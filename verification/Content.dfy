/** The article tables and the statements that change them: `blogs` with its categories,
    `blog_sections`, `reference_pins`, and the constraints the schema puts on them. */
module Content {
  import opened Wrappers
  import opened Headings
  import Slug

  type Time = int
  type BlogId = nat
  type PinId = nat
  type SeriesId = nat

  /** SHA-256 of an article body, represented by an injective constructor. */
  datatype Digest = Sha256(body: string)

  /** The two parts of the object key `blogs/{id}/{sha}.md`. */
  datatype ObjectKey = ObjectKey(blog: BlogId, sha: Digest)

  datatype Status = Draft | Published | Archived

  datatype Blog = Blog(
    slug: string,
    title: string,
    uri: ObjectKey,
    sha: Digest,
    words: nat,
    status: Status,
    publishedAt: Option<Time>,
    archivedAt: Option<Time>,
    categories: set<string>,
    series: Option<SeriesId>,
    position: Option<nat>)

  datatype Pin = Pin(source: BlogId, target: BlogId, anchor: string)

  type SectionTable = map<string, Section>

  datatype Tables = Tables(
    blogs: map<BlogId, Blog>,
    sections: map<BlogId, SectionTable>,
    pins: map<PinId, Pin>,
    categories: set<string>,
    series: map<string, SeriesId>)

  datatype Error =
    | BlogNotFound
    | SlugConflict
    | CategoryUnknown
    | SeriesUnknown
    | SectionReferencedByPin
    | SectionAnchorUnknown
    | PinSelfReference
    | PinNotFound
    | MarkdownInvalid
    | RequestInvalid
    | Unreadable

  /** A patch; None means "leave alone". */
  datatype Patch = Patch(
    title: Option<string>,
    status: Option<Status>,
    seriesKey: Option<string>,
    position: Option<nat>,
    categories: Option<seq<string>>)

  /** The longest slug an article can be read back with. */
  const SLUG_LENGTH := 120

  /** The CHECK constraints of `blogs` over more than one column, and the slug's grammar. A
      row that breaks one is refused with a constraint that has no error of its own. */
  predicate PassesChecks(b: Blog) {
    && (b.status == Published ==> b.publishedAt.Some?)
    && (b.status == Archived ==> b.archivedAt.Some?)
    && (b.position.Some? ==> b.series.Some?)
    && Slug.IsKey(b.slug)
  }

  predicate SlugTaken(t: Tables, slug: string) {
    exists id :: id in t.blogs && t.blogs[id].slug == slug
  }

  function SectionsFor(t: Tables, id: BlogId): SectionTable {
    if id in t.sections then t.sections[id] else map[]
  }

  // --------------------------------------------------------------- statements

  function Insert(t: Tables, id: BlogId, blog: Blog): Result<Tables, Error> {
    if !PassesChecks(blog) then Failure(RequestInvalid)
    else if SlugTaken(t, blog.slug) then Failure(SlugConflict)
    else if |blog.slug| > SLUG_LENGTH then Failure(Unreadable)
    else Success(t.(blogs := t.blogs[id := blog.(categories := {})]))
  }

  /** COALESCE per column; the publication time is set once, by the first publication. The
      archive time is not among the columns, so only an article archived before passes the
      checks when this sets its status to archived. */
  function Patched(b: Blog, patch: Patch, series: Option<SeriesId>, now: Time): Blog {
    b.(title := if patch.title.Some? then patch.title.value else b.title,
       status := if patch.status.Some? then patch.status.value else b.status,
       series := if series.Some? then series else b.series,
       position := if patch.position.Some? then patch.position else b.position,
       publishedAt := if patch.status == Some(Published) && b.publishedAt.None? then Some(now) else b.publishedAt)
  }

  function UpdateMetadata(t: Tables, id: BlogId, patch: Patch, series: Option<SeriesId>, now: Time)
    : Result<Tables, Error>
    requires id in t.blogs
  {
    var b := Patched(t.blogs[id], patch, series, now);
    if PassesChecks(b) then Success(t.(blogs := t.blogs[id := b])) else Failure(RequestInvalid)
  }

  function UpdateContent(t: Tables, id: BlogId, uri: ObjectKey, sha: Digest, words: nat): Tables
    requires id in t.blogs
  {
    t.(blogs := t.blogs[id := t.blogs[id].(uri := uri, sha := sha, words := words)])
  }

  predicate Distinct(keys: seq<string>) {
    forall i, j :: 0 <= i < j < |keys| ==> keys[i] != keys[j]
  }

  function KeySet(keys: seq<string>): set<string> {
    set k | k in keys
  }

  /** A repeated key breaks the primary key before the foreign key is looked at. */
  function SetCategories(t: Tables, id: BlogId, keys: seq<string>): Result<Tables, Error>
    requires id in t.blogs
  {
    if !Distinct(keys) then Failure(RequestInvalid)
    else if !(KeySet(keys) <= t.categories) then Failure(CategoryUnknown)
    else Success(t.(blogs := t.blogs[id := t.blogs[id].(categories := KeySet(keys))]))
  }

  /** None when there is no live row to archive. */
  function Archive(t: Tables, id: BlogId, at: Time): Option<Tables> {
    if id in t.blogs && t.blogs[id].status != Archived
    then Some(t.(blogs := t.blogs[id := t.blogs[id].(status := Archived, archivedAt := Some(at))]))
    else None
  }

  predicate Pinned(t: Tables, id: BlogId, anchor: string) {
    exists p :: p in t.pins && t.pins[p].target == id && t.pins[p].anchor == anchor
  }

  predicate HasAnchor(sections: seq<Section>, anchor: string) {
    exists i :: 0 <= i < |sections| && sections[i].anchor == anchor
  }

  /** The rows a list of sections becomes: one per anchor, a later section winning. */
  function TableOf(sections: seq<Section>): SectionTable {
    if sections == [] then map[]
    else
      var last := sections[|sections| - 1];
      TableOf(sections[..|sections| - 1])[last.anchor := last]
  }

  /** A pinned section that the new list drops stops the edit. */
  predicate DropsPinned(t: Tables, id: BlogId, sections: seq<Section>) {
    exists a :: a in SectionsFor(t, id) && !HasAnchor(sections, a) && Pinned(t, id, a)
  }

  function ReplaceAll(t: Tables, id: BlogId, sections: seq<Section>): Result<Tables, Error> {
    if DropsPinned(t, id, sections) then Failure(SectionReferencedByPin)
    else Success(t.(sections := t.sections[id := TableOf(sections)]))
  }

  /** The pair of articles and the anchor may be pinned once. */
  predicate PinTaken(t: Tables, pin: Pin) {
    exists p :: p in t.pins && t.pins[p] == pin
  }

  function CreatePin(t: Tables, id: PinId, pin: Pin): Result<Tables, Error> {
    if pin.source == pin.target then Failure(PinSelfReference)
    else if PinTaken(t, pin) then Failure(RequestInvalid)
    else if pin.source !in t.blogs || pin.target !in t.blogs then Failure(BlogNotFound)
    else if pin.anchor !in SectionsFor(t, pin.target) then Failure(SectionAnchorUnknown)
    else Success(t.(pins := t.pins[id := pin]))
  }

  lemma {:induction false} TableOfAnchors(sections: seq<Section>, anchor: string)
    ensures anchor in TableOf(sections) <==> HasAnchor(sections, anchor)
    decreases |sections|
  {
    if sections != [] {
      var n := |sections| - 1;
      TableOfAnchors(sections[..n], anchor);
      if HasAnchor(sections[..n], anchor) {
        var i :| 0 <= i < n && sections[..n][i].anchor == anchor;
        assert sections[i].anchor == anchor;
      }
      if HasAnchor(sections, anchor) && sections[n].anchor != anchor {
        var i :| 0 <= i < |sections| && sections[i].anchor == anchor;
        assert sections[..n][i].anchor == anchor;
      }
    }
  }

  /** Every row is the last section with its anchor. */
  lemma {:induction false} TableOfKeepsLast(sections: seq<Section>, i: nat)
    requires i < |sections|
    requires forall j :: i < j < |sections| ==> sections[j].anchor != sections[i].anchor
    ensures sections[i].anchor in TableOf(sections) && TableOf(sections)[sections[i].anchor] == sections[i]
    decreases |sections|
  {
    var n := |sections| - 1;
    if i < n {
      TableOfKeepsLast(sections[..n], i);
    }
  }

  // ---------------------------------------------------- the section statements

  class SectionStore {
    var rows: SectionTable

    constructor ()
      ensures rows == map[]
    {
      rows := map[];
    }

    /** Deletes what the new list lacks, which a pin may forbid, then upserts the list in
        order. The rows that were there before leave no trace. */
    method ReplaceRows(sections: seq<Section>, pinned: set<string>) returns (ok: bool)
      modifies this
      ensures ok <==> forall a :: a in old(rows) && a in pinned ==> HasAnchor(sections, a)
      ensures rows == if ok then TableOf(sections) else old(rows)
    {
      var doomed := set a | a in rows && !HasAnchor(sections, a);
      if exists a :: a in doomed && a in pinned {
        return false;
      }
      rows := rows - doomed;
      ghost var kept := rows;
      for n := 0 to |sections|
        invariant forall a :: a in rows <==> a in kept || a in TableOf(sections[..n])
        invariant forall a :: a in TableOf(sections[..n]) ==> rows[a] == TableOf(sections[..n])[a]
      {
        assert sections[..n + 1][..n] == sections[..n];
        rows := rows[sections[n].anchor := sections[n]];
      }
      assert sections[..|sections|] == sections;
      forall a | a in kept ensures a in TableOf(sections) {
        TableOfAnchors(sections, a);
      }
      ok := true;
    }
  }
}
