/** Publishing and editing articles. The object store is written before the transaction
    that refers to the object commits, so an edit is two steps: put, then commit or be
    refused. Either may be the last thing a call does, and other calls run in between.

    Parsing is a parameter: what body a source has, if it is valid, and what lines, tokens
    and word count a body has. The headings are those of the index. */
module Articles {
  import opened Wrappers
  import opened Content
  import Headings
  import Slug

  type Source = seq<nat>
  type Call = nat
  type Objects = map<ObjectKey, Source>

  datatype Parsing = Parsing(
    bodyOf: Source -> Option<string>,
    linesOf: string -> seq<string>,
    tokensOf: string -> seq<Headings.Token>,
    wordsOf: string -> nat)

  /** A new article, its names taken from the command or the frontmatter, or a change. */
  datatype Edit =
    | New(
        id: BlogId,
        now: Time,
        text: Source,
        slug: string,
        title: string,
        keys: seq<string>,
        seriesKey: Option<string>,
        position: Option<nat>,
        status: Status)
    | Change(id: BlogId, now: Time, newText: Option<Source>, patch: Patch)

  function TextOf(e: Edit): Option<Source> {
    match e
    case New(_, _, text, _, _, _, _, _, _) => Some(text)
    case Change(_, _, newText, _) => newText
  }

  predicate Parses(env: Parsing, e: Edit) {
    TextOf(e).Some? ==> env.bodyOf(TextOf(e).value).Some?
  }

  function KeyFor(env: Parsing, id: BlogId, text: Source): ObjectKey
    requires env.bodyOf(text).Some?
  {
    ObjectKey(id, Sha256(env.bodyOf(text).value))
  }

  function Put(env: Parsing, objects: Objects, e: Edit): Objects
    requires Parses(env, e)
  {
    match TextOf(e)
    case None => objects
    case Some(text) => objects[KeyFor(env, e.id, text) := text]
  }

  function SectionsIn(env: Parsing, body: string): seq<Headings.Section> {
    Headings.SectionsOf(Headings.IndexOf(env.linesOf(body), env.tokensOf(body)))
  }

  function ResolveSeries(t: Tables, key: Option<string>): Result<Option<SeriesId>, Error> {
    match key
    case None => Success(None)
    case Some(k) => if k in t.series then Success(Some(t.series[k])) else Failure(SeriesUnknown)
  }

  function NewRow(env: Parsing, e: Edit, series: Option<SeriesId>): Blog
    requires e.New? && Parses(env, e)
  {
    var body := env.bodyOf(e.text).value;
    Blog(e.slug, e.title, KeyFor(env, e.id, e.text), Sha256(body), env.wordsOf(body), e.status,
         if e.status == Published then Some(e.now) else None, None, {}, series, e.position)
  }

  /** The first statements of an edit: the row and its categories. */
  function Described(env: Parsing, t: Tables, e: Edit): Result<Tables, Error>
    requires Parses(env, e)
  {
    match e
    case New(id, _, _, _, _, keys, seriesKey, _, _) =>
      var series :- ResolveSeries(t, seriesKey);
      var t1 :- Insert(t, id, NewRow(env, e, series));
      SetCategories(t1, id, keys)
    case Change(id, now, _, patch) =>
      if id !in t.blogs then Failure(BlogNotFound)
      else
        var series :- ResolveSeries(t, patch.seriesKey);
        var t1 :- UpdateMetadata(t, id, patch, series, now);
        if patch.categories.Some? then SetCategories(t1, id, patch.categories.value) else Success(t1)
  }

  /** The statements about the content, which follow. A new row has its content already. */
  function Filled(env: Parsing, t: Tables, e: Edit): Result<Tables, Error>
    requires Parses(env, e) && e.id in t.blogs
  {
    match TextOf(e)
    case None => Success(t)
    case Some(text) =>
      var body := env.bodyOf(text).value;
      var t1 := if e.New? then t else UpdateContent(t, e.id, KeyFor(env, e.id, text), Sha256(body), env.wordsOf(body));
      ReplaceAll(t1, e.id, SectionsIn(env, body))
  }

  /** What the transaction of an edit commits, or why it is refused. */
  function Commit(env: Parsing, t: Tables, e: Edit): Result<Tables, Error>
    requires Parses(env, e)
  {
    var t1 :- Described(env, t, e);
    Filled(env, t1, e)
  }

  class BlogService {
    var tables: Tables
    var objects: Objects

    constructor (t: Tables)
      ensures tables == t && objects == map[]
    {
      tables, objects := t, map[];
    }

    /** One whole edit. A refusal restores the tables but not the object store. */
    method Run(env: Parsing, e: Edit) returns (refused: Option<Error>)
      modifies this
      ensures !Parses(env, e) ==> refused == Some(MarkdownInvalid) && tables == old(tables) && objects == old(objects)
      ensures Parses(env, e) ==>
                && objects == Put(env, old(objects), e)
                && match Commit(env, old(tables), e)
                   case Success(t) => refused == None && tables == t
                   case Failure(error) => refused == Some(error) && tables == old(tables)
    {
      var text := TextOf(e);
      if text.Some? {
        if env.bodyOf(text.value).None? {
          return Some(MarkdownInvalid);
        }
        objects := objects[KeyFor(env, e.id, text.value) := text.value];
      }
      var snapshot := tables;
      if e.New? {
        refused := Publish(env, e);
      } else {
        refused := Update(env, e);
      }
      if refused.Some? {
        tables := snapshot;
      }
    }

    method Publish(env: Parsing, e: Edit) returns (refused: Option<Error>)
      requires e.New? && Parses(env, e)
      modifies this`tables
      ensures match Commit(env, old(tables), e)
              case Success(t) => refused == None && tables == t
              case Failure(error) => refused == Some(error)
      ensures refused == None ==>
                && e.id in tables.blogs
                && var b := tables.blogs[e.id];
                   && b.slug == e.slug && b.title == e.title && b.status == e.status && b.position == e.position
                   && b.categories == (set k | k in e.keys) && b.archivedAt.None?
                   && b.publishedAt == if e.status == Published then Some(e.now) else None
    {
      if Commit(env, tables, e).Success? {
        CommitAppliesNew(env, tables, e);
      }
      var series := ResolveSeries(tables, e.seriesKey);
      if series.Failure? {
        return Some(series.error);
      }
      var r := Insert(tables, e.id, NewRow(env, e, series.value));
      if r.Failure? {
        return Some(r.error);
      }
      tables := r.value;
      r := SetCategories(tables, e.id, e.keys);
      if r.Failure? {
        return Some(r.error);
      }
      tables := r.value;
      refused := ReplaceSections(e.id, SectionsIn(env, env.bodyOf(e.text).value));
    }

    method Update(env: Parsing, e: Edit) returns (refused: Option<Error>)
      requires e.Change? && Parses(env, e)
      modifies this`tables
      ensures match Commit(env, old(tables), e)
              case Success(t) => refused == None && tables == t
              case Failure(error) => refused == Some(error)
      ensures refused == None ==>
                && e.id in old(tables).blogs && e.id in tables.blogs
                && var b, b', p := old(tables).blogs[e.id], tables.blogs[e.id], e.patch;
                   && b'.title == (if p.title.Some? then p.title.value else b.title)
                   && b'.status == (if p.status.Some? then p.status.value else b.status)
                   && b'.position == (if p.position.Some? then p.position else b.position)
                   && b'.categories == (if p.categories.Some? then (set k | k in p.categories.value) else b.categories)
                   && b'.slug == b.slug && b'.archivedAt == b.archivedAt
    {
      if Commit(env, tables, e).Success? {
        CommitAppliesPatch(env, tables, e);
      }
      if e.id !in tables.blogs {
        return Some(BlogNotFound);
      }
      var series := ResolveSeries(tables, e.patch.seriesKey);
      if series.Failure? {
        return Some(series.error);
      }
      var r := UpdateMetadata(tables, e.id, e.patch, series.value, e.now);
      if r.Failure? {
        return Some(r.error);
      }
      tables := r.value;
      if e.patch.categories.Some? {
        r := SetCategories(tables, e.id, e.patch.categories.value);
        if r.Failure? {
          return Some(r.error);
        }
        tables := r.value;
      }
      refused := None;
      if e.newText.Some? {
        var body := env.bodyOf(e.newText.value).value;
        tables := UpdateContent(tables, e.id, KeyFor(env, e.id, e.newText.value), Sha256(body), env.wordsOf(body));
        refused := ReplaceSections(e.id, SectionsIn(env, body));
      }
    }

    method ReplaceSections(id: BlogId, sections: seq<Headings.Section>) returns (refused: Option<Error>)
      modifies this`tables
      ensures match ReplaceAll(old(tables), id, sections)
              case Success(t) => refused == None && tables == t
              case Failure(error) => refused == Some(error) && tables == old(tables)
    {
      var store := new SectionStore();
      store.rows := SectionsFor(tables, id);
      var pinned := set p | p in tables.pins && tables.pins[p].target == id :: tables.pins[p].anchor;
      assert forall a :: a in pinned <==> Pinned(tables, id, a);
      var ok := store.ReplaceRows(sections, pinned);
      if !ok {
        return Some(SectionReferencedByPin);
      }
      tables := tables.(sections := tables.sections[id := store.rows]);
      refused := None;
    }

    method Retire(id: BlogId, at: Time) returns (refused: Option<Error>)
      modifies this`tables
      ensures match Archive(old(tables), id, at)
              case Some(t) => refused == None && tables == t
              case None => refused == Some(BlogNotFound) && tables == old(tables)
      ensures refused == None <==> id in old(tables).blogs && old(tables).blogs[id].status != Archived
      ensures refused == None ==>
                && tables.blogs ==
                   old(tables).blogs[id := old(tables).blogs[id].(status := Archived, archivedAt := Some(at))]
                && tables == old(tables).(blogs := tables.blogs)
    {
      if id !in tables.blogs || tables.blogs[id].status == Archived {
        return Some(BlogNotFound);
      }
      var b := tables.blogs[id];
      tables := tables.(blogs := tables.blogs[id := b.(status := Archived, archivedAt := Some(at))]);
      refused := None;
    }

    method PinSection(pinId: PinId, pin: Pin) returns (refused: Option<Error>)
      modifies this`tables
      ensures match CreatePin(old(tables), pinId, pin)
              case Success(t) => refused == None && tables == t
              case Failure(error) => refused == Some(error) && tables == old(tables)
      ensures var t := old(tables);
              refused == if pin.source == pin.target then Some(PinSelfReference)
                         else if exists p :: p in t.pins && t.pins[p] == pin then Some(RequestInvalid)
                         else if pin.source !in t.blogs || pin.target !in t.blogs then Some(BlogNotFound)
                         else if pin.target !in t.sections || pin.anchor !in t.sections[pin.target]
                         then Some(SectionAnchorUnknown)
                         else None
      ensures tables == if refused == None then old(tables).(pins := old(tables).pins[pinId := pin]) else old(tables)
    {
      if pin.source == pin.target {
        return Some(PinSelfReference);
      }
      if exists p :: p in tables.pins && tables.pins[p] == pin {
        return Some(RequestInvalid);
      }
      if pin.source !in tables.blogs || pin.target !in tables.blogs {
        return Some(BlogNotFound);
      }
      if pin.target !in tables.sections || pin.anchor !in tables.sections[pin.target] {
        return Some(SectionAnchorUnknown);
      }
      tables := tables.(pins := tables.pins[pinId := pin]);
      refused := None;
    }

    method Unpin(pinId: PinId) returns (refused: Option<Error>)
      modifies this`tables
      ensures tables == old(tables).(pins := old(tables).pins - {pinId})
      ensures refused == if pinId in old(tables).pins then None else Some(PinNotFound)
    {
      refused := if pinId in tables.pins then None else Some(PinNotFound);
      tables := tables.(pins := tables.pins - {pinId});
    }

    /** Advisory: the first free name among the base and its first fifty suffixes. */
    method ResolveSlug(base: string, fallback: string) returns (slug: string)
      ensures SlugTaken(tables, slug) ==> slug == base + "-" + fallback
      ensures !SlugTaken(tables, base) ==> slug == base
      ensures forall k :: 2 <= k < SLUG_ATTEMPTS + 2 && SlugTaken(tables, base)
                          && !SlugTaken(tables, Headings.Suffixed(base, k)) ==>
                exists j :: 2 <= j <= k && slug == Headings.Suffixed(base, j) && !SlugTaken(tables, slug)
    {
      if !SlugTaken(tables, base) {
        return base;
      }
      for k := 2 to SLUG_ATTEMPTS + 2
        invariant forall j :: 2 <= j < k ==> SlugTaken(tables, Headings.Suffixed(base, j))
      {
        var candidate := Headings.Suffixed(base, k);
        if !SlugTaken(tables, candidate) {
          return candidate;
        }
      }
      slug := base + "-" + fallback;
    }
  }

  const SLUG_ATTEMPTS := 50

  // ------------------------------------------------------------------- runs

  /** `inflight` holds the edits whose object has been put and whose transaction has not
      run yet. */
  datatype World = World(tables: Tables, objects: Objects, inflight: map<Call, Edit>)

  datatype Step =
    | Begin(call: Call, edit: Edit)
    | Finish(call: Call)
    | Die(call: Call)
    | Retire(blog: BlogId, at: Time)
    | AddPin(pinId: PinId, pin: Pin)
    | RemovePin(pinId: PinId)
    | AddCategory(key: string)
    | AddSeries(key: string, series: SeriesId)

  const EMPTY := World(Tables(map[], map[], map[], {}, map[]), map[], map[])

  predicate IdIsNew(w: World, id: BlogId) {
    id !in w.tables.blogs && forall c :: c in w.inflight && w.inflight[c].New? ==> w.inflight[c].id != id
  }

  predicate Enabled(env: Parsing, w: World, step: Step) {
    match step
    case Begin(call, edit) => call !in w.inflight && Parses(env, edit) && (edit.New? ==> IdIsNew(w, edit.id))
    case Finish(call) => call in w.inflight && Parses(env, w.inflight[call])
    case Die(call) => call in w.inflight
    case AddPin(pinId, _) => pinId !in w.tables.pins
    case AddSeries(key, _) => key !in w.tables.series
    case _ => true
  }

  function OrSame(r: Result<Tables, Error>, t: Tables): Tables {
    if r.Success? then r.value else t
  }

  function Apply(env: Parsing, w: World, step: Step): World
    requires Enabled(env, w, step)
  {
    match step
    case Begin(call, edit) => w.(objects := Put(env, w.objects, edit), inflight := w.inflight[call := edit])
    case Finish(call) =>
      w.(tables := OrSame(Commit(env, w.tables, w.inflight[call]), w.tables), inflight := w.inflight - {call})
    case Die(call) => w.(inflight := w.inflight - {call})
    case Retire(blog, at) =>
      var t := Archive(w.tables, blog, at);
      if t.Some? then w.(tables := t.value) else w
    case AddPin(pinId, pin) => w.(tables := OrSame(CreatePin(w.tables, pinId, pin), w.tables))
    case RemovePin(pinId) => w.(tables := w.tables.(pins := w.tables.pins - {pinId}))
    case AddCategory(key) => w.(tables := w.tables.(categories := w.tables.categories + {key}))
    case AddSeries(key, series) => w.(tables := w.tables.(series := w.tables.series[key := series]))
  }

  ghost predicate Valid(env: Parsing, w: World, steps: seq<Step>)
    decreases |steps|
  {
    steps == [] || (Enabled(env, w, steps[0]) && Valid(env, Apply(env, w, steps[0]), steps[1..]))
  }

  ghost function RunSteps(env: Parsing, w: World, steps: seq<Step>): World
    requires Valid(env, w, steps)
    decreases |steps|
  {
    if steps == [] then w else RunSteps(env, Apply(env, w, steps[0]), steps[1..])
  }

  // -------------------------------------------------------------- invariants

  /** Re-parsing an object gives the body its key was made from. */
  ghost predicate ObjectOk(env: Parsing, objects: Objects, k: ObjectKey) {
    k in objects ==> env.bodyOf(objects[k]) == Some(k.sha.body)
  }

  /** An edit in flight has its object stored, and a new article its id to itself. */
  ghost predicate EditOk(env: Parsing, w: World, c: Call) {
    c in w.inflight ==>
      var e := w.inflight[c];
      && Parses(env, e)
      && (TextOf(e).Some? ==> KeyFor(env, e.id, TextOf(e).value) in w.objects)
      && (e.New? ==>
            && e.id !in w.tables.blogs
            && forall d :: d in w.inflight && d != c && w.inflight[d].New? ==> w.inflight[d].id != e.id)
  }

  /** The row, the sections and the stored object of an article agree, and the row passes
      the checks of its table. */
  ghost predicate ArticleOk(env: Parsing, t: Tables, objects: Objects, id: BlogId) {
    id in t.blogs ==>
      var b := t.blogs[id];
      && b.uri == ObjectKey(id, b.sha) && b.uri in objects
      && b.words == env.wordsOf(b.sha.body)
      && SectionsFor(t, id) == TableOf(SectionsIn(env, b.sha.body))
      && PassesChecks(b) && |b.slug| <= SLUG_LENGTH
  }

  ghost predicate PinOk(t: Tables, p: PinId) {
    p in t.pins ==>
      var pin := t.pins[p];
      && pin.source in t.blogs && pin.target in t.blogs && pin.source != pin.target
      && pin.anchor in SectionsFor(t, pin.target)
  }

  ghost predicate PinsUnique(t: Tables) {
    forall p, q :: p in t.pins && q in t.pins && t.pins[p] == t.pins[q] ==> p == q
  }

  ghost predicate SlugsUnique(t: Tables) {
    forall a, b :: a in t.blogs && b in t.blogs && t.blogs[a].slug == t.blogs[b].slug ==> a == b
  }

  ghost predicate TablesOk(env: Parsing, t: Tables, objects: Objects) {
    && (forall id :: ArticleOk(env, t, objects, id))
    && (forall p :: PinOk(t, p))
    && PinsUnique(t)
    && SlugsUnique(t)
  }

  ghost predicate Inv(env: Parsing, w: World) {
    && (forall k :: ObjectOk(env, w.objects, k))
    && (forall c :: EditOk(env, w, c))
    && TablesOk(env, w.tables, w.objects)
  }

  /** What a committed edit does to everything but its own article: nothing. */
  ghost predicate OnlyArticleDiffers(t: Tables, t': Tables, id: BlogId) {
    && t'.blogs.Keys == t.blogs.Keys + {id}
    && (forall other :: other != id && other in t.blogs ==> t'.blogs[other] == t.blogs[other])
    && (forall other :: other != id ==> SectionsFor(t', other) == SectionsFor(t, other))
    && t'.pins == t.pins && t'.categories == t.categories && t'.series == t.series
  }

  lemma RowIsLocal(t: Tables, t': Tables, id: BlogId, b: Blog)
    requires OnlyArticleDiffers(t, t', id)
    ensures OnlyArticleDiffers(t, t'.(blogs := t'.blogs[id := b]), id)
  {
    var t2 := t'.(blogs := t'.blogs[id := b]);
    forall other | other != id ensures SectionsFor(t2, other) == SectionsFor(t, other) {
      assert SectionsFor(t', other) == SectionsFor(t, other);
    }
  }

  lemma SectionsAreLocal(t: Tables, t': Tables, id: BlogId, sections: SectionTable)
    requires OnlyArticleDiffers(t, t', id)
    ensures OnlyArticleDiffers(t, t'.(sections := t'.sections[id := sections]), id)
  {
    var t2 := t'.(sections := t'.sections[id := sections]);
    forall other | other != id ensures SectionsFor(t2, other) == SectionsFor(t, other) {
      assert SectionsFor(t', other) == SectionsFor(t, other);
    }
  }

  lemma CategoriesAreLocal(t: Tables, t': Tables, id: BlogId, keys: seq<string>)
    requires OnlyArticleDiffers(t, t', id) && id in t'.blogs && SetCategories(t', id, keys).Success?
    ensures OnlyArticleDiffers(t, SetCategories(t', id, keys).value, id)
  {
    RowIsLocal(t, t', id, t'.blogs[id].(categories := KeySet(keys)));
  }

  lemma DescribedIsLocal(env: Parsing, t: Tables, e: Edit)
    requires Parses(env, e) && Described(env, t, e).Success?
    ensures OnlyArticleDiffers(t, Described(env, t, e).value, e.id)
  {
    if e.New? {
      var b := NewRow(env, e, ResolveSeries(t, e.seriesKey).value);
      InsertIsLocal(t, e.id, b);
      CategoriesAreLocal(t, Insert(t, e.id, b).value, e.id, e.keys);
    } else {
      var series := ResolveSeries(t, e.patch.seriesKey).value;
      UpdateIsLocal(t, e.id, e.patch, series, e.now);
      if e.patch.categories.Some? {
        CategoriesAreLocal(t, UpdateMetadata(t, e.id, e.patch, series, e.now).value, e.id, e.patch.categories.value);
      }
    }
  }

  lemma InsertIsLocal(t: Tables, id: BlogId, b: Blog)
    requires Insert(t, id, b).Success?
    ensures OnlyArticleDiffers(t, Insert(t, id, b).value, id)
  {
    var t' := Insert(t, id, b).value;
    assert t'.sections == t.sections;
  }

  lemma UpdateIsLocal(t: Tables, id: BlogId, patch: Patch, series: Option<SeriesId>, now: Time)
    requires id in t.blogs && UpdateMetadata(t, id, patch, series, now).Success?
    ensures OnlyArticleDiffers(t, UpdateMetadata(t, id, patch, series, now).value, id)
  {
    RowIsLocal(t, t, id, Patched(t.blogs[id], patch, series, now));
  }

  lemma FilledIsLocal(env: Parsing, t: Tables, t': Tables, e: Edit)
    requires Parses(env, e) && e.id in t'.blogs && OnlyArticleDiffers(t, t', e.id) && Filled(env, t', e).Success?
    ensures OnlyArticleDiffers(t, Filled(env, t', e).value, e.id)
  {
    if TextOf(e).Some? {
      var text := TextOf(e).value;
      var body := env.bodyOf(text).value;
      var b := t'.blogs[e.id].(uri := KeyFor(env, e.id, text), sha := Sha256(body), words := env.wordsOf(body));
      RowIsLocal(t, t', e.id, b);
      var t1 := if e.New? then t' else t'.(blogs := t'.blogs[e.id := b]);
      SectionsAreLocal(t, t1, e.id, TableOf(SectionsIn(env, body)));
    }
  }

  lemma CommitIsLocal(env: Parsing, t: Tables, e: Edit)
    requires Parses(env, e) && Commit(env, t, e).Success?
    ensures OnlyArticleDiffers(t, Commit(env, t, e).value, e.id)
  {
    DescribedIsLocal(env, t, e);
    FilledIsLocal(env, t, Described(env, t, e).value, e);
  }

  /** The row an edit writes before its content. */
  lemma DescribedRow(env: Parsing, t: Tables, e: Edit)
    requires Parses(env, e) && Described(env, t, e).Success?
    ensures e.id in Described(env, t, e).value.blogs
    ensures var b' := Described(env, t, e).value.blogs[e.id];
            && PassesChecks(b')
            && (e.New? ==>
                  && !SlugTaken(t, e.slug) && |e.slug| <= SLUG_LENGTH
                  && b' == NewRow(env, e, ResolveSeries(t, e.seriesKey).value).(categories := KeySet(e.keys)))
            && (e.Change? ==>
                  && e.id in t.blogs
                  && var b := Patched(t.blogs[e.id], e.patch, ResolveSeries(t, e.patch.seriesKey).value, e.now);
                     b' == if e.patch.categories.Some? then b.(categories := KeySet(e.patch.categories.value)) else b)
    ensures Described(env, t, e).value.sections == t.sections && Described(env, t, e).value.pins == t.pins
  {
  }

  lemma CommittedRow(env: Parsing, t: Tables, e: Edit)
    requires Parses(env, e) && Commit(env, t, e).Success?
    ensures var b1, b' := Described(env, t, e).value.blogs[e.id], Commit(env, t, e).value.blogs[e.id];
            b' == b1.(uri := b'.uri, sha := b'.sha, words := b'.words) && PassesChecks(b')
    ensures e.New? ==> Commit(env, t, e).value.blogs[e.id] == Described(env, t, e).value.blogs[e.id]
  {
    DescribedRow(env, t, e);
  }

  /** What a committed edit does to its own article. */
  lemma CommitSetsArticle(env: Parsing, t: Tables, e: Edit)
    requires Parses(env, e) && Commit(env, t, e).Success?
    ensures var t' := Commit(env, t, e).value;
            var b' := t'.blogs[e.id];
            && (TextOf(e).Some? ==>
                  var body := env.bodyOf(TextOf(e).value).value;
                  && b'.uri == ObjectKey(e.id, Sha256(body)) && b'.sha == Sha256(body)
                  && b'.words == env.wordsOf(body)
                  && SectionsFor(t', e.id) == TableOf(SectionsIn(env, body)))
            && (TextOf(e).None? ==>
                  && e.id in t.blogs && SectionsFor(t', e.id) == SectionsFor(t, e.id)
                  && var b := t.blogs[e.id]; b'.uri == b.uri && b'.sha == b.sha && b'.words == b.words)
            && (e.New? ==> !SlugTaken(t, e.slug) && b'.slug == e.slug && |e.slug| <= SLUG_LENGTH)
            && (e.Change? ==> e.id in t.blogs && b'.slug == t.blogs[e.id].slug)
  {
    DescribedRow(env, t, e);
  }

  /** An article gets its publication time from the edit that first publishes it, and no
      other edit touches it. */
  lemma CommitDatesArticle(env: Parsing, t: Tables, e: Edit)
    requires Parses(env, e) && Commit(env, t, e).Success?
    ensures var b' := Commit(env, t, e).value.blogs[e.id];
            && (e.New? ==> b'.publishedAt == if e.status == Published then Some(e.now) else None)
            && (e.Change? ==>
                  && e.id in t.blogs
                  && var before := t.blogs[e.id].publishedAt;
                     if before.None? && e.patch.status == Some(Published) then b'.publishedAt == Some(e.now)
                     else b'.publishedAt == before)
  {
    DescribedRow(env, t, e);
    CommittedRow(env, t, e);
  }

  /** A committed new article holds what its author gave, and was never archived. */
  lemma CommitAppliesNew(env: Parsing, t: Tables, e: Edit)
    requires e.New? && Parses(env, e) && Commit(env, t, e).Success?
    ensures e.id in Commit(env, t, e).value.blogs
    ensures var b' := Commit(env, t, e).value.blogs[e.id];
            && b'.slug == e.slug && b'.title == e.title && b'.status == e.status && b'.position == e.position
            && b'.categories == (set k | k in e.keys) && b'.archivedAt.None?
            && b'.publishedAt == (if e.status == Published then Some(e.now) else None)
            && (e.seriesKey.None? ==> b'.series.None?)
            && (e.seriesKey.Some? ==> e.seriesKey.value in t.series && b'.series == Some(t.series[e.seriesKey.value]))
  {
    DescribedRow(env, t, e);
    CommittedRow(env, t, e);
  }

  /** Of a committed change every column the caller gave holds what was given, and every
      other column what it held before. */
  lemma CommitAppliesPatch(env: Parsing, t: Tables, e: Edit)
    requires e.Change? && Parses(env, e) && Commit(env, t, e).Success?
    ensures e.id in t.blogs && e.id in Commit(env, t, e).value.blogs
    ensures var b, b', p := t.blogs[e.id], Commit(env, t, e).value.blogs[e.id], e.patch;
            && b'.title == (if p.title.Some? then p.title.value else b.title)
            && b'.status == (if p.status.Some? then p.status.value else b.status)
            && b'.position == (if p.position.Some? then p.position else b.position)
            && b'.categories == (if p.categories.Some? then KeySet(p.categories.value) else b.categories)
            && (p.seriesKey.None? ==> b'.series == b.series)
            && (p.seriesKey.Some? ==> p.seriesKey.value in t.series && b'.series == Some(t.series[p.seriesKey.value]))
            && b'.slug == b.slug && b'.archivedAt == b.archivedAt
  {
    DescribedRow(env, t, e);
    CommittedRow(env, t, e);
  }

  function Again(e: Edit, later: Time): Edit
    requires e.Change?
  {
    Change(e.id, later, e.newText, e.patch)
  }

  /** A retried change does no harm: made again at any later time it commits and leaves the
      tables as they are, publication time included. */
  lemma RepeatedChangeIsNoOp(env: Parsing, t: Tables, e: Edit, later: Time)
    requires e.Change? && Parses(env, e) && Commit(env, t, e).Success?
    requires e.id in t.blogs ==> PassesChecks(t.blogs[e.id])
    ensures Commit(env, Commit(env, t, e).value, Again(e, later)) == Success(Commit(env, t, e).value)
  {
    var t1 := Commit(env, t, e).value;
    var again := Again(e, later);
    CommitIsLocal(env, t, e);
    CommitAppliesPatch(env, t, e);
    CommitSetsArticle(env, t, e);
    CommitDatesArticle(env, t, e);
    CommittedRow(env, t, e);
    DescribedAgain(env, t, t1, e, later);
    if TextOf(e).Some? {
      FilledAgain(env, t1, again);
    }
  }

  /** A row that a change was made to is not changed by it again. */
  lemma PatchedAgain(env: Parsing, t: Tables, t1: Tables, e: Edit, later: Time)
    requires e.Change? && Parses(env, e) && Commit(env, t, e) == Success(t1)
    requires e.id in t.blogs && e.id in t1.blogs && t1.series == t.series
    ensures ResolveSeries(t1, e.patch.seriesKey).Success? && PassesChecks(t1.blogs[e.id])
    ensures Patched(t1.blogs[e.id], e.patch, ResolveSeries(t1, e.patch.seriesKey).value, later) == t1.blogs[e.id]
  {
    CommittedRow(env, t, e);
    CommitAppliesPatch(env, t, e);
    CommitDatesArticle(env, t, e);
  }

  lemma UpdateAgain(t: Tables, id: BlogId, patch: Patch, series: Option<SeriesId>, now: Time)
    requires id in t.blogs && PassesChecks(t.blogs[id]) && Patched(t.blogs[id], patch, series, now) == t.blogs[id]
    ensures UpdateMetadata(t, id, patch, series, now) == Success(t)
  {
    assert t.blogs[id := t.blogs[id]] == t.blogs;
  }

  lemma CategoriesAgain(t: Tables, id: BlogId, keys: seq<string>)
    requires id in t.blogs && t.blogs[id].categories == KeySet(keys)
    requires Distinct(keys) && KeySet(keys) <= t.categories
    ensures SetCategories(t, id, keys) == Success(t)
  {
    assert t.blogs[id].(categories := KeySet(keys)) == t.blogs[id];
    assert t.blogs[id := t.blogs[id]] == t.blogs;
  }

  /** The row and the categories stay as a committed change left them. */
  lemma DescribedAgain(env: Parsing, t: Tables, t1: Tables, e: Edit, later: Time)
    requires e.Change? && Parses(env, e) && Commit(env, t, e) == Success(t1)
    requires e.id in t.blogs && PassesChecks(t.blogs[e.id])
    requires e.id in t1.blogs && t1.categories == t.categories && t1.series == t.series
    ensures Described(env, t1, Again(e, later)) == Success(t1)
  {
    PatchedAgain(env, t, t1, e, later);
    UpdateAgain(t1, e.id, e.patch, ResolveSeries(t1, e.patch.seriesKey).value, later);
    if e.patch.categories.Some? {
      CommitAppliesPatch(env, t, e);
      CommitsExactly(env, t, e);
      CategoriesAgain(t1, e.id, e.patch.categories.value);
    }
  }

  /** Nothing of a section table that came from the same list would go. */
  lemma FilledAgain(env: Parsing, t1: Tables, e: Edit)
    requires e.Change? && Parses(env, e) && TextOf(e).Some? && e.id in t1.blogs && e.id in t1.sections
    requires var body := env.bodyOf(TextOf(e).value).value;
             && t1.sections[e.id] == TableOf(SectionsIn(env, body))
             && var b := t1.blogs[e.id];
                b == b.(uri := ObjectKey(e.id, Sha256(body)), sha := Sha256(body), words := env.wordsOf(body))
    ensures Filled(env, t1, e) == Success(t1)
  {
    var sections := SectionsIn(env, env.bodyOf(TextOf(e).value).value);
    forall a ensures a in SectionsFor(t1, e.id) <==> HasAnchor(sections, a) {
      TableOfAnchors(sections, a);
    }
    assert t1.blogs[e.id := t1.blogs[e.id]] == t1.blogs;
    assert t1.sections[e.id := TableOf(sections)] == t1.sections;
  }

  /** The article is there, or its slug is free, and the series and categories exist. */
  predicate NamesResolve(t: Tables, e: Edit) {
    var seriesKey := if e.New? then e.seriesKey else e.patch.seriesKey;
    var keys := if e.New? then Some(e.keys) else e.patch.categories;
    && (if e.New? then !SlugTaken(t, e.slug) else e.id in t.blogs)
    && (seriesKey.Some? ==> seriesKey.value in t.series)
    && (keys.Some? ==> Distinct(keys.value) && KeySet(keys.value) <= t.categories)
  }

  /** The row keeps the rules of its table: only an article that was archived before may be
      given the status archived, a position needs a series, and a slug is a key short
      enough to be read back. */
  predicate FitsTable(t: Tables, e: Edit)
    requires e.Change? ==> e.id in t.blogs
  {
    match e
    case New(_, _, _, slug, _, _, seriesKey, position, status) =>
      && status != Archived && (position.Some? ==> seriesKey.Some?)
      && Slug.IsKey(slug) && |slug| <= SLUG_LENGTH
    case Change(id, _, _, patch) =>
      var b := t.blogs[id];
      && (patch.status == Some(Archived) ==> b.archivedAt.Some?)
      && (patch.position.Some? ==> patch.seriesKey.Some? || b.series.Some?)
  }

  /** The headings of the new source include every pinned anchor of the article. */
  ghost predicate KeepsPinned(env: Parsing, t: Tables, e: Edit)
    requires Parses(env, e)
  {
    TextOf(e).Some? ==>
      forall p :: p in t.pins && t.pins[p].target == e.id && t.pins[p].anchor in SectionsFor(t, e.id) ==>
        HasAnchor(SectionsIn(env, env.bodyOf(TextOf(e).value).value), t.pins[p].anchor)
  }

  lemma DescribedExactly(env: Parsing, t: Tables, e: Edit)
    requires Parses(env, e)
    requires e.Change? && e.id in t.blogs ==> PassesChecks(t.blogs[e.id])
    ensures Described(env, t, e).Success? <==> NamesResolve(t, e) && FitsTable(t, e)
  {
  }

  lemma FilledExactly(env: Parsing, t: Tables, e: Edit)
    requires Parses(env, e) && e.id in t.blogs
    ensures Filled(env, t, e).Success? <==> KeepsPinned(env, t, e)
    ensures Filled(env, t, e).Failure? ==> Filled(env, t, e).error == SectionReferencedByPin
  {
    if TextOf(e).Some? {
      var sections := SectionsIn(env, env.bodyOf(TextOf(e).value).value);
      forall p | p in t.pins && t.pins[p].target == e.id && t.pins[p].anchor in SectionsFor(t, e.id)
        ensures !HasAnchor(sections, t.pins[p].anchor) ==> DropsPinned(t, e.id, sections)
      {
        assert Pinned(t, e.id, t.pins[p].anchor);
      }
    }
  }

  /** An edit commits exactly when all it names resolves, its row fits the table, and no pin
      would be left dangling; when only the last fails, it is refused for a pin. */
  lemma CommitsExactly(env: Parsing, t: Tables, e: Edit)
    requires Parses(env, e)
    requires e.Change? && e.id in t.blogs ==> PassesChecks(t.blogs[e.id])
    ensures Commit(env, t, e).Success? <==> NamesResolve(t, e) && FitsTable(t, e) && KeepsPinned(env, t, e)
    ensures NamesResolve(t, e) && FitsTable(t, e) && Commit(env, t, e).Failure? ==>
              Commit(env, t, e).error == SectionReferencedByPin
  {
    DescribedExactly(env, t, e);
    if Described(env, t, e).Success? {
      DescribedRow(env, t, e);
      FilledExactly(env, Described(env, t, e).value, e);
    }
  }

  /** The first thing wrong with the names and the row of a new article. */
  lemma NewRefusedFor(env: Parsing, t: Tables, e: Edit)
    requires e.New? && Parses(env, e) && Described(env, t, e).Failure?
    ensures Described(env, t, e).error ==
              if e.seriesKey.Some? && e.seriesKey.value !in t.series then SeriesUnknown
              else if e.status == Archived || (e.position.Some? && e.seriesKey.None?) || !Slug.IsKey(e.slug)
              then RequestInvalid
              else if exists id :: id in t.blogs && t.blogs[id].slug == e.slug then SlugConflict
              else if |e.slug| > SLUG_LENGTH then Unreadable
              else if exists i, j :: 0 <= i < j < |e.keys| && e.keys[i] == e.keys[j] then RequestInvalid
              else CategoryUnknown
  {
  }

  /** The first thing wrong with the names and the row of a change. */
  lemma ChangeRefusedFor(env: Parsing, t: Tables, e: Edit)
    requires e.Change? && Parses(env, e) && Described(env, t, e).Failure?
    requires e.id in t.blogs ==> PassesChecks(t.blogs[e.id])
    ensures Described(env, t, e).error ==
              if e.id !in t.blogs then BlogNotFound
              else if e.patch.seriesKey.Some? && e.patch.seriesKey.value !in t.series then SeriesUnknown
              else if e.patch.status == Some(Archived) && t.blogs[e.id].archivedAt.None? then RequestInvalid
              else if e.patch.position.Some? && e.patch.seriesKey.None? && t.blogs[e.id].series.None?
              then RequestInvalid
              else if e.patch.categories.Some? && !Distinct(e.patch.categories.value) then RequestInvalid
              else CategoryUnknown
  {
  }

  /** What a refused edit is told: the first thing wrong with its names and its row if there
      is any, and else that a pin would be left dangling. */
  lemma RefusalsInOrder(env: Parsing, t: Tables, e: Edit)
    requires Parses(env, e) && Commit(env, t, e).Failure?
    ensures Described(env, t, e).Failure? ==> Commit(env, t, e) == Described(env, t, e)
    ensures Described(env, t, e).Success? ==> Commit(env, t, e) == Failure(SectionReferencedByPin)
  {
    if Described(env, t, e).Success? {
      FilledExactly(env, Described(env, t, e).value, e);
    }
  }

  /** Removing a pin lifts the refusal of an edit it stood against, and exactly that: the edit
      then commits unless another pin points into a section it drops. */
  lemma UnpinningLiftsRefusal(env: Parsing, t: Tables, e: Edit, p: PinId)
    requires Parses(env, e) && TextOf(e).Some?
    requires e.Change? && e.id in t.blogs ==> PassesChecks(t.blogs[e.id])
    requires Commit(env, t, e) == Failure(SectionReferencedByPin)
    ensures Commit(env, t.(pins := t.pins - {p}), e).Success? <==>
              forall q :: q in t.pins - {p} && t.pins[q].target == e.id && t.pins[q].anchor in SectionsFor(t, e.id) ==>
                HasAnchor(SectionsIn(env, env.bodyOf(TextOf(e).value).value), t.pins[q].anchor)
  {
    var t' := t.(pins := t.pins - {p});
    CommitsExactly(env, t', e);
    OnlyDescribedFailsOtherwise(env, t, e);
    assert NamesResolve(t', e) && FitsTable(t', e);
    forall q ensures q in t'.pins <==> q in t.pins && q != p {}
  }

  lemma OnlyDescribedFailsOtherwise(env: Parsing, t: Tables, e: Edit)
    requires Parses(env, e)
    requires e.Change? && e.id in t.blogs ==> PassesChecks(t.blogs[e.id])
    requires Commit(env, t, e) == Failure(SectionReferencedByPin)
    ensures NamesResolve(t, e) && FitsTable(t, e)
  {
    DescribedExactly(env, t, e);
    assert Described(env, t, e) != Failure(SectionReferencedByPin);
  }

  /** Removing a pin just made gives the tables back, and so the pin may be made again. */
  lemma UnpinUndoesPin(t: Tables, id: PinId, pin: Pin)
    requires id !in t.pins && CreatePin(t, id, pin).Success?
    ensures var t' := CreatePin(t, id, pin).value;
            && t'.(pins := t'.pins - {id}) == t
            && forall other :: CreatePin(t', other, pin) == Failure(RequestInvalid)
  {
    var t' := CreatePin(t, id, pin).value;
    assert t'.pins - {id} == t.pins;
    assert t'.pins[id] == pin;
  }

  /** A committed edit keeps every pinned section of its article. */
  lemma CommitKeepsPinned(env: Parsing, t: Tables, e: Edit, anchor: string)
    requires Parses(env, e) && Commit(env, t, e).Success?
    requires Pinned(t, e.id, anchor) && anchor in SectionsFor(t, e.id)
    ensures anchor in SectionsFor(Commit(env, t, e).value, e.id)
  {
    DescribedRow(env, t, e);
    FilledExactly(env, Described(env, t, e).value, e);
    CommitSetsArticle(env, t, e);
    if TextOf(e).Some? {
      var p :| p in t.pins && t.pins[p].target == e.id && t.pins[p].anchor == anchor;
      TableOfAnchors(SectionsIn(env, env.bodyOf(TextOf(e).value).value), anchor);
    }
  }

  lemma CommitKeepsTables(env: Parsing, t: Tables, objects: Objects, e: Edit)
    requires TablesOk(env, t, objects)
    requires Parses(env, e) && Commit(env, t, e).Success?
    requires TextOf(e).Some? ==> KeyFor(env, e.id, TextOf(e).value) in objects
    requires e.New? ==> e.id !in t.blogs
    ensures TablesOk(env, Commit(env, t, e).value, objects)
  {
    var t' := Commit(env, t, e).value;
    CommitIsLocal(env, t, e);
    CommitKeepsArticle(env, t, objects, e);
    forall id | id != e.id ensures ArticleOk(env, t', objects, id) {
      assert ArticleOk(env, t, objects, id);
    }
    forall p ensures PinOk(t', p) {
      assert PinOk(t, p);
      if p in t.pins && t.pins[p].target == e.id {
        CommitKeepsPinned(env, t, e, t.pins[p].anchor);
      }
    }
    CommitKeepsSlugs(env, t, e);
  }

  lemma CommitKeepsArticle(env: Parsing, t: Tables, objects: Objects, e: Edit)
    requires ArticleOk(env, t, objects, e.id)
    requires Parses(env, e) && Commit(env, t, e).Success?
    requires TextOf(e).Some? ==> KeyFor(env, e.id, TextOf(e).value) in objects
    ensures ArticleOk(env, Commit(env, t, e).value, objects, e.id)
  {
    CommitSetsArticle(env, t, e);
    CommittedRow(env, t, e);
  }

  lemma CommitKeepsSlugs(env: Parsing, t: Tables, e: Edit)
    requires SlugsUnique(t) && Parses(env, e) && Commit(env, t, e).Success?
    requires e.New? ==> e.id !in t.blogs
    ensures SlugsUnique(Commit(env, t, e).value)
  {
    CommitIsLocal(env, t, e);
    CommitSetsArticle(env, t, e);
  }

  lemma PutKeepsObjects(env: Parsing, objects: Objects, e: Edit)
    requires Parses(env, e) && forall k :: ObjectOk(env, objects, k)
    ensures forall k :: ObjectOk(env, Put(env, objects, e), k)
    ensures objects.Keys <= Put(env, objects, e).Keys
    ensures TextOf(e).Some? ==> KeyFor(env, e.id, TextOf(e).value) in Put(env, objects, e)
  {
    forall k ensures ObjectOk(env, Put(env, objects, e), k) {
      assert ObjectOk(env, objects, k);
    }
  }

  lemma BeginKeepsInv(env: Parsing, w: World, call: Call, e: Edit)
    requires Inv(env, w) && Enabled(env, w, Begin(call, e))
    ensures Inv(env, Apply(env, w, Begin(call, e)))
  {
    var w' := Apply(env, w, Begin(call, e));
    PutKeepsObjects(env, w.objects, e);
    forall c ensures EditOk(env, w', c) {
      assert EditOk(env, w, c);
    }
    forall id ensures ArticleOk(env, w'.tables, w'.objects, id) {
      assert ArticleOk(env, w.tables, w.objects, id);
    }
  }

  lemma FinishKeepsInv(env: Parsing, w: World, call: Call)
    requires Inv(env, w) && Enabled(env, w, Finish(call))
    ensures Inv(env, Apply(env, w, Finish(call)))
  {
    var w', e := Apply(env, w, Finish(call)), w.inflight[call];
    assert EditOk(env, w, call);
    if Commit(env, w.tables, e).Success? {
      CommitIsLocal(env, w.tables, e);
      CommitSetsArticle(env, w.tables, e);
      CommitKeepsTables(env, w.tables, w.objects, e);
    }
    forall c ensures EditOk(env, w', c) {
      assert EditOk(env, w, c);
    }
  }

  lemma RetireKeepsTables(env: Parsing, t: Tables, objects: Objects, id: BlogId, at: Time)
    requires TablesOk(env, t, objects) && Archive(t, id, at).Some?
    ensures TablesOk(env, Archive(t, id, at).value, objects)
  {
    var t' := Archive(t, id, at).value;
    forall other ensures ArticleOk(env, t', objects, other) {
      assert ArticleOk(env, t, objects, other);
    }
    forall p ensures PinOk(t', p) {
      assert PinOk(t, p);
    }
  }

  lemma PinKeepsTables(env: Parsing, t: Tables, objects: Objects, id: PinId, pin: Pin)
    requires TablesOk(env, t, objects) && id !in t.pins && CreatePin(t, id, pin).Success?
    ensures TablesOk(env, CreatePin(t, id, pin).value, objects)
  {
    var t' := CreatePin(t, id, pin).value;
    forall other ensures ArticleOk(env, t', objects, other) {
      assert ArticleOk(env, t, objects, other);
    }
    forall p ensures PinOk(t', p) {
      assert PinOk(t, p);
    }
  }

  /** Fewer pins, more categories and other series do no harm. */
  lemma RestKeepsTables(env: Parsing, t: Tables, t': Tables, objects: Objects)
    requires TablesOk(env, t, objects)
    requires t'.blogs == t.blogs && t'.sections == t.sections
    requires forall p :: p in t'.pins ==> p in t.pins && t'.pins[p] == t.pins[p]
    ensures TablesOk(env, t', objects)
  {
    forall other ensures ArticleOk(env, t', objects, other) {
      assert ArticleOk(env, t, objects, other);
    }
    forall p ensures PinOk(t', p) {
      assert PinOk(t, p);
    }
  }

  lemma OtherKeepsTables(env: Parsing, w: World, step: Step)
    requires TablesOk(env, w.tables, w.objects) && Enabled(env, w, step) && !step.Begin? && !step.Finish?
    ensures var w' := Apply(env, w, step);
            && TablesOk(env, w'.tables, w'.objects)
            && w'.objects == w.objects && w'.tables.blogs.Keys == w.tables.blogs.Keys
  {
    if step.Retire? {
      if Archive(w.tables, step.blog, step.at).Some? {
        RetireKeepsTables(env, w.tables, w.objects, step.blog, step.at);
      }
    } else if step.AddPin? {
      if CreatePin(w.tables, step.pinId, step.pin).Success? {
        PinKeepsTables(env, w.tables, w.objects, step.pinId, step.pin);
      }
    } else {
      RestKeepsTables(env, w.tables, Apply(env, w, step).tables, w.objects);
    }
  }

  lemma OtherKeepsDates(env: Parsing, w: World, step: Step)
    requires Enabled(env, w, step) && !step.Begin? && !step.Finish?
    ensures var t' := Apply(env, w, step).tables;
            forall id :: id in w.tables.blogs ==>
              id in t'.blogs && t'.blogs[id].publishedAt == w.tables.blogs[id].publishedAt
  {
  }

  lemma StepKeepsInv(env: Parsing, w: World, step: Step)
    requires Inv(env, w) && Enabled(env, w, step)
    ensures Inv(env, Apply(env, w, step))
  {
    match step
    case Begin(call, edit) => BeginKeepsInv(env, w, call, edit);
    case Finish(call) => FinishKeepsInv(env, w, call);
    case _ =>
      OtherKeepsTables(env, w, step);
      forall c ensures EditOk(env, Apply(env, w, step), c) {
        assert EditOk(env, w, c);
      }
  }

  lemma {:induction false} RunKeepsInv(env: Parsing, w: World, steps: seq<Step>)
    requires Inv(env, w) && Valid(env, w, steps)
    ensures Inv(env, RunSteps(env, w, steps))
    decreases |steps|
  {
    if steps != [] {
      StepKeepsInv(env, w, steps[0]);
      RunKeepsInv(env, Apply(env, w, steps[0]), steps[1..]);
    }
  }

  function Served(w: World, id: BlogId): Option<Source> {
    if id in w.tables.blogs && w.tables.blogs[id].uri in w.objects then Some(w.objects[w.tables.blogs[id].uri])
    else None
  }

  /** In every reachable state every article can be served, and re-parsing what is served
      gives exactly its row's hash and word count and its section table; the row passes the
      checks of its table, so a published article has its publication time and an archived
      one its archive time. */
  lemma ArticlesAgreeWithObjects(env: Parsing, steps: seq<Step>, id: BlogId)
    requires Valid(env, EMPTY, steps) && id in RunSteps(env, EMPTY, steps).tables.blogs
    ensures var w := RunSteps(env, EMPTY, steps);
            var b := w.tables.blogs[id];
            && Served(w, id).Some?
            && env.bodyOf(Served(w, id).value).Some?
            && var body := env.bodyOf(Served(w, id).value).value;
            && b.sha == Sha256(body) && b.words == env.wordsOf(body)
            && SectionsFor(w.tables, id) == TableOf(SectionsIn(env, body))
            && (b.status == Published ==> b.publishedAt.Some?)
            && (b.status == Archived ==> b.archivedAt.Some?)
            && (b.position.Some? ==> b.series.Some?)
            && Slug.IsKey(b.slug) && |b.slug| <= SLUG_LENGTH
            && (forall other :: other in w.tables.blogs && w.tables.blogs[other].slug == b.slug ==> other == id)
  {
    RunKeepsInv(env, EMPTY, steps);
    var w := RunSteps(env, EMPTY, steps);
    assert ArticleOk(env, w.tables, w.objects, id);
    assert ObjectOk(env, w.objects, w.tables.blogs[id].uri);
  }

  /** Lines are split where the token stream's line numbers say, and headings come in order. */
  ghost predicate WellSplit(env: Parsing) {
    forall body :: Headings.Concat(env.linesOf(body)) == body && Headings.LinesDoNotGoBack(env.tokensOf(body))
  }

  /** What that means for the stored sections: all their anchors are keys; the sections of
      the served body tile it; and the table holds exactly those sections, each under its
      anchor, if and only if no two headings share an anchor. */
  lemma StoredSectionsTileServedBody(env: Parsing, steps: seq<Step>, id: BlogId)
    requires WellSplit(env) && Valid(env, EMPTY, steps) && id in RunSteps(env, EMPTY, steps).tables.blogs
    ensures var w := RunSteps(env, EMPTY, steps);
            && Served(w, id).Some? && env.bodyOf(Served(w, id).value).Some?
            && var body := env.bodyOf(Served(w, id).value).value;
            var sections, table := SectionsIn(env, body), SectionsFor(w.tables, id);
            && Headings.Tiles(body, sections)
            && (forall a :: a in table <==> HasAnchor(sections, a))
            && (forall a :: a in table ==> Slug.IsKey(a))
            && (Headings.AnchorsDistinct(Headings.FoundIn(env.linesOf(body), env.tokensOf(body))) <==>
                  forall i :: 0 <= i < |sections| ==>
                    sections[i].anchor in table && table[sections[i].anchor] == sections[i])
  {
    ArticlesAgreeWithObjects(env, steps, id);
    var body := env.bodyOf(Served(RunSteps(env, EMPTY, steps), id).value).value;
    assert Headings.Concat(env.linesOf(body)) == body;
    Headings.SectionsTileBody(env.linesOf(body), env.tokensOf(body));
    TableOfIndex(env.linesOf(body), env.tokensOf(body));
  }

  lemma TableOfIndex(lines: seq<string>, tokens: seq<Headings.Token>)
    ensures var found := Headings.FoundIn(lines, tokens);
            var sections := Headings.SectionsOf(Headings.IndexOf(lines, tokens));
            && (forall a :: a in TableOf(sections) <==> HasAnchor(sections, a))
            && (forall a :: a in TableOf(sections) ==> Slug.IsKey(a))
            && (Headings.AnchorsDistinct(found) <==> HoldsAll(sections))
  {
    var found := Headings.FoundIn(lines, tokens);
    var sections := Headings.SectionsOf(Headings.IndexOf(lines, tokens));
    forall i | 0 <= i < |sections|
      ensures sections[i].anchor == Headings.Anchor(found, i)
      ensures sections[i].ordinal == i && Slug.IsKey(sections[i].anchor)
    {
      Headings.AnchorsAreKeys(found, i);
    }
    TableHoldsSections(sections);
    assert Headings.AnchorsDistinct(found) <==> AnchorsDiffer(sections);
  }

  ghost predicate AnchorsDiffer(sections: seq<Headings.Section>) {
    forall i, j :: 0 <= i < j < |sections| ==> sections[i].anchor != sections[j].anchor
  }

  ghost predicate HoldsAll(sections: seq<Headings.Section>) {
    forall i :: 0 <= i < |sections| ==>
      sections[i].anchor in TableOf(sections) && TableOf(sections)[sections[i].anchor] == sections[i]
  }

  lemma TableHoldsSections(sections: seq<Headings.Section>)
    requires forall i :: 0 <= i < |sections| ==> sections[i].ordinal == i
    ensures forall a :: a in TableOf(sections) <==> HasAnchor(sections, a)
    ensures AnchorsDiffer(sections) <==> HoldsAll(sections)
  {
    forall a ensures a in TableOf(sections) <==> HasAnchor(sections, a) {
      TableOfAnchors(sections, a);
    }
    if AnchorsDiffer(sections) {
      forall i | 0 <= i < |sections|
        ensures sections[i].anchor in TableOf(sections) && TableOf(sections)[sections[i].anchor] == sections[i]
      {
        TableOfKeepsLast(sections, i);
      }
    } else {
      var i, j :| 0 <= i < j < |sections| && sections[i].anchor == sections[j].anchor;
      assert sections[i] != sections[j];
    }
  }

  /** Headings whose slugs are "a", "a" and "a-2" leave two rows, the later of the two that
      share an anchor. */
  lemma SharedAnchorKeepsLater(lines: seq<string>, tokens: seq<Headings.Token>)
    requires var found := Headings.FoundIn(lines, tokens);
             |found| == 3 && found[0].title == found[1].title == "a" && found[2].title == "a-2"
    ensures var sections := Headings.SectionsOf(Headings.IndexOf(lines, tokens));
            && TableOf(sections).Keys == {"a", "a-2"}
            && TableOf(sections)["a-2"] == sections[2] != sections[1]
  {
    Headings.RepeatMeetsSuffix(Headings.FoundIn(lines, tokens));
    TableOfThree(Headings.SectionsOf(Headings.IndexOf(lines, tokens)), "a", "a-2");
  }

  lemma TableOfThree(sections: seq<Headings.Section>, a: string, b: string)
    requires |sections| == 3 && sections[1].ordinal != sections[2].ordinal
    requires sections[0].anchor == a && sections[1].anchor == sections[2].anchor == b
    ensures TableOf(sections).Keys == {a, b} && TableOf(sections)[b] == sections[2] != sections[1]
  {
    TableOfKeepsLast(sections, 2);
    forall x ensures x in TableOf(sections) <==> x in {a, b} {
      TableOfAnchors(sections, x);
    }
  }

  /** In every reachable state every pin targets an existing section of another article, and
      no other pin does so from the same article. */
  lemma PinsNeverDangle(env: Parsing, steps: seq<Step>, p: PinId)
    requires Valid(env, EMPTY, steps) && p in RunSteps(env, EMPTY, steps).tables.pins
    ensures var t := RunSteps(env, EMPTY, steps).tables;
            var pin := t.pins[p];
            && pin.source in t.blogs && pin.target in t.blogs && pin.source != pin.target
            && pin.anchor in SectionsFor(t, pin.target)
            && forall q :: q in t.pins && t.pins[q] == pin ==> q == p
  {
    RunKeepsInv(env, EMPTY, steps);
    assert PinOk(RunSteps(env, EMPTY, steps).tables, p);
  }

  /** A content edit that passes every other check commits exactly when its headings include
      every pinned anchor of the article, and is otherwise refused for a pin. */
  lemma EditCommitsExactlyWhenPinsKept(env: Parsing, w: World, e: Edit)
    requires Inv(env, w) && e.Change? && Parses(env, e) && e.newText.Some?
    requires NamesResolve(w.tables, e) && FitsTable(w.tables, e)
    ensures var t, sections := w.tables, SectionsIn(env, env.bodyOf(e.newText.value).value);
            && (Commit(env, t, e).Success? <==>
                  forall p :: p in t.pins && t.pins[p].target == e.id ==> HasAnchor(sections, t.pins[p].anchor))
            && (Commit(env, t, e).Failure? ==> Commit(env, t, e).error == SectionReferencedByPin)
  {
    var t := w.tables;
    assert ArticleOk(env, t, w.objects, e.id);
    CommitsExactly(env, t, e);
    forall p | p in t.pins && t.pins[p].target == e.id ensures t.pins[p].anchor in SectionsFor(t, e.id) {
      assert PinOk(t, p);
    }
  }

  // ------------------------------------------------- bytes under a live hash

  /** A put of new frontmatter over the text an article serves. */
  predicate Rewraps(env: Parsing, w: World, e: Edit, id: BlogId)
    requires Parses(env, e) && Served(w, id).Some?
  {
    && e.id == id && TextOf(e).Some?
    && env.bodyOf(TextOf(e).value) == env.bodyOf(Served(w, id).value)
    && TextOf(e) != Served(w, id)
  }

  /** The row's hash covers the body, not the bytes. From one step to the next, if the hash
      stays, the bytes an article serves change exactly when the step starts an edit of it,
      later accepted or refused, whose source has the served body and differs from what is
      served: new frontmatter, same text. */
  lemma ServedBytesChangeExactly(env: Parsing, w: World, step: Step, id: BlogId)
    requires Inv(env, w) && Enabled(env, w, step) && id in w.tables.blogs
    ensures var w' := Apply(env, w, step);
            && id in w'.tables.blogs && Served(w, id).Some?
            && (w'.tables.blogs[id].sha == w.tables.blogs[id].sha ==>
                  (Served(w', id) != Served(w, id) <==> step.Begin? && Rewraps(env, w, step.edit, id)))
  {
    assert ArticleOk(env, w.tables, w.objects, id);
    if step.Begin? {
      PutChangesServedBytesExactly(env, w, step.call, step.edit, id);
    } else {
      StepKeepsInv(env, w, step);
      StepKeepsBytes(env, w, step, id);
      assert ArticleOk(env, Apply(env, w, step).tables, Apply(env, w, step).objects, id);
    }
  }

  lemma StepKeepsBytes(env: Parsing, w: World, step: Step, id: BlogId)
    requires Inv(env, w) && Enabled(env, w, step) && id in w.tables.blogs && !step.Begin?
    ensures Apply(env, w, step).objects == w.objects && id in Apply(env, w, step).tables.blogs
  {
    if step.Finish? {
      var e := w.inflight[step.call];
      if Commit(env, w.tables, e).Success? {
        CommitIsLocal(env, w.tables, e);
      }
    } else {
      OtherKeepsTables(env, w, step);
    }
  }

  lemma PutChangesServedBytesExactly(env: Parsing, w: World, call: Call, e: Edit, id: BlogId)
    requires Inv(env, w) && Enabled(env, w, Begin(call, e)) && id in w.tables.blogs
    ensures var w' := Apply(env, w, Begin(call, e));
            && w'.tables == w.tables && Served(w, id).Some?
            && (Served(w', id) != Served(w, id) <==> Rewraps(env, w, e, id))
  {
    assert ArticleOk(env, w.tables, w.objects, id);
    assert ObjectOk(env, w.objects, w.tables.blogs[id].uri);
  }

  /** What a step puts into the object store under a key. */
  function PutTo(env: Parsing, step: Step, key: ObjectKey): Option<Source> {
    if step.Begin? && step.edit.id == key.blog && TextOf(step.edit).Some?
       && env.bodyOf(TextOf(step.edit).value) == Some(key.sha.body)
    then TextOf(step.edit)
    else None
  }

  /** The last put under a key in a run. */
  function LastPut(env: Parsing, steps: seq<Step>, key: ObjectKey): Option<Source>
    decreases |steps|
  {
    if steps == [] then None
    else
      var later := LastPut(env, steps[1..], key);
      if later.Some? then later else PutTo(env, steps[0], key)
  }

  function Stored(w: World, key: ObjectKey): Option<Source> {
    if key in w.objects then Some(w.objects[key]) else None
  }

  lemma StepStores(env: Parsing, w: World, step: Step, key: ObjectKey)
    requires Enabled(env, w, step)
    ensures Stored(Apply(env, w, step), key)
         == if PutTo(env, step, key).Some? then PutTo(env, step, key) else Stored(w, key)
  {
  }

  /** A run leaves under a key what was last put there. */
  lemma {:induction false} RunStores(env: Parsing, w: World, steps: seq<Step>, key: ObjectKey)
    requires Valid(env, w, steps)
    ensures Stored(RunSteps(env, w, steps), key)
         == if LastPut(env, steps, key).Some? then LastPut(env, steps, key) else Stored(w, key)
    decreases |steps|
  {
    if steps != [] {
      StepStores(env, w, steps[0], key);
      RunStores(env, Apply(env, w, steps[0]), steps[1..], key);
    }
  }

  lemma {:induction false} RunKeepsArticles(env: Parsing, w: World, steps: seq<Step>, id: BlogId)
    requires Inv(env, w) && Valid(env, w, steps) && id in w.tables.blogs
    ensures id in RunSteps(env, w, steps).tables.blogs
    decreases |steps|
  {
    if steps != [] {
      if !steps[0].Begin? {
        StepKeepsBytes(env, w, steps[0], id);
      }
      StepKeepsInv(env, w, steps[0]);
      RunKeepsArticles(env, Apply(env, w, steps[0]), steps[1..], id);
    }
  }

  /** What a hash promises about the bytes. Between any two states of any run in which an
      article has the same hash, whatever hashes it had in between, it serves at the end the
      last source put for that article with that body, or what it served before if there
      was none. So a client that holds the hash holds other bytes exactly when that last put
      differs from them. */
  lemma ServedUnderSameHash(env: Parsing, before: seq<Step>, steps: seq<Step>, id: BlogId)
    requires Valid(env, EMPTY, before) && Valid(env, RunSteps(env, EMPTY, before), steps)
    requires id in RunSteps(env, EMPTY, before).tables.blogs
    ensures var w := RunSteps(env, EMPTY, before);
            var w' := RunSteps(env, w, steps);
            && id in w'.tables.blogs && Served(w, id).Some? && Served(w', id).Some?
            && (w'.tables.blogs[id].sha == w.tables.blogs[id].sha ==>
                  var put := LastPut(env, steps, ObjectKey(id, w.tables.blogs[id].sha));
                  && Served(w', id) == (if put.Some? then put else Served(w, id))
                  && (Served(w', id) != Served(w, id) <==> put.Some? && put != Served(w, id)))
  {
    var w := RunSteps(env, EMPTY, before);
    var w' := RunSteps(env, w, steps);
    RunKeepsInv(env, EMPTY, before);
    RunKeepsInv(env, w, steps);
    RunKeepsArticles(env, w, steps, id);
    assert ArticleOk(env, w.tables, w.objects, id) && ArticleOk(env, w'.tables, w'.objects, id);
    RunStores(env, w, steps, ObjectKey(id, w.tables.blogs[id].sha));
  }

  // ---------------------------------------------------------- whole edits

  function EditSteps(e: Edit): seq<Step> {
    [Begin(0, e), Finish(0)]
  }

  /** An edit that nothing interrupts. */
  lemma EditRuns(env: Parsing, w: World, e: Edit)
    requires 0 !in w.inflight && Parses(env, e) && (e.New? ==> IdIsNew(w, e.id))
    ensures Valid(env, w, EditSteps(e))
    ensures RunSteps(env, w, EditSteps(e))
         == World(OrSame(Commit(env, w.tables, e), w.tables), Put(env, w.objects, e), w.inflight)
  {
    var w1 := Apply(env, w, Begin(0, e));
    assert w1.inflight[0] == e && w1.inflight - {0} == w.inflight;
    TwoSteps(env, w, EditSteps(e));
  }

  lemma {:induction false} RunAppend(env: Parsing, w: World, a: seq<Step>, b: seq<Step>)
    requires Valid(env, w, a) && Valid(env, RunSteps(env, w, a), b)
    ensures Valid(env, w, a + b) && RunSteps(env, w, a + b) == RunSteps(env, RunSteps(env, w, a), b)
    decreases |a|
  {
    if a == [] {
      assert a + b == b;
    } else {
      RunAppend(env, Apply(env, w, a[0]), a[1..], b);
      assert (a + b)[1..] == a[1..] + b;
    }
  }

  function Rewrite(id: BlogId, text: Source): Edit {
    Change(id, 0, Some(text), Patch(None, None, None, None, None))
  }

  /** Source 3 has another body than every other source. */
  const TWO_BODIES := Parsing(text => Some(if text == [3] then "b" else "a"), body => [], body => [], body => 0)

  const FIRST := New(1, 0, [1], "a", "A", [], None, None, Published)

  /** While there are no pins, a new text is accepted. */
  lemma RewriteRuns(env: Parsing, w: World, id: BlogId, text: Source)
    requires Inv(env, w) && w.inflight == map[] && id in w.tables.blogs && w.tables.pins == map[]
    requires env.bodyOf(text).Some?
    ensures Valid(env, w, EditSteps(Rewrite(id, text)))
    ensures var w' := RunSteps(env, w, EditSteps(Rewrite(id, text)));
            && Inv(env, w') && w'.inflight == map[] && w'.tables.pins == map[] && id in w'.tables.blogs
            && w'.tables.blogs[id].sha == Sha256(env.bodyOf(text).value)
            && Served(w', id) == Some(text)
  {
    var e := Rewrite(id, text);
    assert ArticleOk(env, w.tables, w.objects, id);
    CommitsExactly(env, w.tables, e);
    CommitSetsArticle(env, w.tables, e);
    CommitIsLocal(env, w.tables, e);
    EditRuns(env, w, e);
    RunKeepsInv(env, w, EditSteps(e));
  }

  lemma FirstRuns(env: Parsing)
    requires env.bodyOf([1]).Some?
    ensures Valid(env, EMPTY, EditSteps(FIRST))
    ensures var w := RunSteps(env, EMPTY, EditSteps(FIRST));
            && Inv(env, w) && w.inflight == map[] && w.tables.pins == map[] && w.tables.series == map[]
            && 1 in w.tables.blogs && w.tables.blogs[1].sha == Sha256(env.bodyOf([1]).value)
            && w.tables.blogs[1].archivedAt.None? && Served(w, 1) == Some([1])
  {
    CommitsExactly(env, EMPTY.tables, FIRST);
    CommitSetsArticle(env, EMPTY.tables, FIRST);
    CommitAppliesNew(env, EMPTY.tables, FIRST);
    CommitIsLocal(env, EMPTY.tables, FIRST);
    EditRuns(env, EMPTY, FIRST);
    RunKeepsInv(env, EMPTY, EditSteps(FIRST));
  }

  /** So the promise that bytes never change under a given hash fails: here a refused edit
      changes them. */
  lemma RefusedEditChangesServedBytes() returns (env: Parsing, before: seq<Step>, edit: seq<Step>, id: BlogId)
    ensures Valid(env, EMPTY, before) && Valid(env, RunSteps(env, EMPTY, before), edit)
    ensures var w := RunSteps(env, EMPTY, before);
            var w' := RunSteps(env, w, edit);
            && id in w.tables.blogs && w'.tables == w.tables && w'.inflight == w.inflight
            && Served(w', id) != Served(w, id)
  {
    env, id := TWO_BODIES, 1;
    var second := Change(1, 1, Some([2]), Patch(None, None, Some("missing"), None, None));
    before, edit := EditSteps(FIRST), EditSteps(second);
    FirstRuns(env);
    var w := RunSteps(env, EMPTY, before);
    assert Commit(env, w.tables, second) == Failure(SeriesUnknown);
    EditRuns(env, w, second);
    assert ArticleOk(env, w.tables, w.objects, 1);
  }

  /** And here accepted edits do, none of which changes the bytes at the moment it is put:
      away to another text, and back to the first under other frontmatter. */
  lemma EditingAwayAndBackChangesServedBytes()
    returns (env: Parsing, before: seq<Step>, away: Edit, back: Edit, id: BlogId)
    ensures Valid(env, EMPTY, before) && Valid(env, RunSteps(env, EMPTY, before), EditSteps(away))
    ensures Valid(env, RunSteps(env, RunSteps(env, EMPTY, before), EditSteps(away)), EditSteps(back))
    ensures var w0 := RunSteps(env, EMPTY, before);
            var w1 := RunSteps(env, w0, EditSteps(away));
            var w2 := RunSteps(env, w1, EditSteps(back));
            && id in w0.tables.blogs && id in w1.tables.blogs && id in w2.tables.blogs
            && w1.tables.blogs[id].sha != w2.tables.blogs[id].sha == w0.tables.blogs[id].sha
            && Served(w0, id).Some? && Served(w1, id).Some?
            && Parses(env, away) && !Rewraps(env, w0, away, id)
            && Parses(env, back) && !Rewraps(env, w1, back, id)
            && Served(w2, id) != Served(w0, id)
  {
    env, id, before := TWO_BODIES, 1, EditSteps(FIRST);
    away, back := Rewrite(1, [3]), Rewrite(1, [2]);
    FirstRuns(env);
    var w0 := RunSteps(env, EMPTY, before);
    RewriteRuns(env, w0, 1, [3]);
    RewriteRuns(env, RunSteps(env, w0, EditSteps(away)), 1, [2]);
  }

  /** A published article cannot be archived by an edit of its status. */
  lemma ArchivingByEditIsRefused() returns (env: Parsing, before: seq<Step>, edit: Edit)
    ensures Valid(env, EMPTY, before) && Parses(env, edit)
    ensures edit.Change? && edit.patch == Patch(None, Some(Archived), None, None, None)
    ensures var t := RunSteps(env, EMPTY, before).tables;
            edit.id in t.blogs && Commit(env, t, edit) == Failure(RequestInvalid)
  {
    env, before := TWO_BODIES, EditSteps(FIRST);
    edit := Change(1, 1, None, Patch(None, Some(Archived), None, None, None));
    FirstRuns(env);
  }

  lemma TwoSteps(env: Parsing, w: World, steps: seq<Step>)
    requires |steps| == 2 && Enabled(env, w, steps[0]) && Enabled(env, Apply(env, w, steps[0]), steps[1])
    ensures Valid(env, w, steps) && RunSteps(env, w, steps) == Apply(env, Apply(env, w, steps[0]), steps[1])
  {
    assert steps[1..] == [steps[1]] && steps[1..][1..] == [];
    var w1 := Apply(env, w, steps[0]);
    assert Valid(env, Apply(env, w1, steps[1]), []);
    assert Valid(env, w1, steps[1..]);
    assert RunSteps(env, w1, steps[1..]) == Apply(env, w1, steps[1]);
  }
}
