/** The article feed: keyset pages over the published articles while other calls edit,
    publish and archive between the fetches. */
module Feed {
  import opened Wrappers
  import opened Content
  import Articles
  import opened Keyset
  import Slug

  datatype Filter = Filter(
    status: Status,
    category: Option<string>,
    series: Option<SeriesId>,
    publishedBefore: Option<Time>)

  predicate Matches(b: Blog, f: Filter) {
    && b.status == f.status
    && (f.category.Some? ==> f.category.value in b.categories)
    && (f.series.Some? ==> b.series == f.series)
    && (f.publishedBefore.Some? ==> b.publishedAt.Some? && b.publishedAt.value < f.publishedBefore.value)
  }

  /** The keys of the articles that match and have a publication time. */
  function FeedKeys(t: Tables, f: Filter): set<Key> {
    set id | id in t.blogs && Matches(t.blogs[id], f) && t.blogs[id].publishedAt.Some? ::
      Key(t.blogs[id].publishedAt.value, id)
  }

  /** The articles that match and were never published: drafts, and drafts archived. */
  function Undated(t: Tables, f: Filter): set<BlogId> {
    set id | id in t.blogs && Matches(t.blogs[id], f) && t.blogs[id].publishedAt.None?
  }

  /** Rows without a publication time come first; no cursor points behind them. */
  datatype Listing = Listing(undated: seq<BlogId>, page: Page)

  /** The page would end with a row that has no publication time to make a cursor from. */
  predicate ListingBreaks(t: Tables, f: Filter, cursor: Option<Key>, limit: nat) {
    cursor.None? && limit >= 1 && |Undated(t, f)| >= limit && |Undated(t, f)| + |FeedKeys(t, f)| > limit
  }

  ghost predicate IsListing(t: Tables, f: Filter, cursor: Option<Key>, limit: nat, l: Listing) {
    if cursor.Some? || Undated(t, f) == {} then
      l.undated == [] && IsPage(FeedKeys(t, f), cursor, limit, l.page)
    else
      && (forall i, j :: 0 <= i < j < |l.undated| ==> l.undated[j] < l.undated[i])
      && (forall id :: id in l.undated <==> id in Undated(t, f))
      && |l.undated| <= limit
      && IsPage(FeedKeys(t, f), None, limit - |l.undated|, l.page)
      && (|l.undated| == limit ==> !l.page.hasMore)
  }

  method NewestIdsFirst(s: set<BlogId>) returns (ids: seq<BlogId>)
    ensures |ids| == |s| && forall id :: id in ids <==> id in s
    ensures forall i, j :: 0 <= i < j < |ids| ==> ids[j] < ids[i]
  {
    ids := [];
    var rest := s;
    while rest != {}
      invariant rest <= s && |ids| + |rest| == |s|
      invariant forall id :: id in s <==> id in rest || id in ids
      invariant forall id, i :: id in rest && 0 <= i < |ids| ==> id < ids[i]
      invariant forall i, j :: 0 <= i < j < |ids| ==> ids[j] < ids[i]
      decreases |rest|
    {
      var id := Greatest(rest);
      ids := ids + [id];
      rest := rest - {id};
    }
  }

  method Greatest(s: set<BlogId>) returns (greatest: BlogId)
    requires s != {}
    ensures greatest in s && forall id :: id in s ==> id <= greatest
  {
    greatest :| greatest in s;
    var rest := s - {greatest};
    while rest != {}
      invariant rest <= s && greatest in s
      invariant forall id :: id in s && id !in rest ==> id <= greatest
      decreases |rest|
    {
      var id :| id in rest;
      if greatest < id {
        greatest := id;
      }
      rest := rest - {id};
    }
  }

  /** Narrows by one clause after another. */
  method Matching(t: Tables, f: Filter) returns (rows: set<BlogId>)
    ensures rows == set id | id in t.blogs && Matches(t.blogs[id], f)
  {
    rows := set id | id in t.blogs && t.blogs[id].status == f.status;
    if f.category.Some? {
      rows := set id | id in rows && f.category.value in t.blogs[id].categories;
    }
    if f.series.Some? {
      rows := set id | id in rows && t.blogs[id].series == f.series;
    }
    if f.publishedBefore.Some? {
      rows := set id | id in rows && t.blogs[id].publishedAt.Some?
                       && t.blogs[id].publishedAt.value < f.publishedBefore.value;
    }
  }

  /** A page of what matches. None is the failure to make a cursor from a row without a
      publication time. */
  method List(t: Tables, f: Filter, cursor: Option<Key>, limit: nat) returns (r: Option<Listing>)
    ensures r.None? <==> ListingBreaks(t, f, cursor, limit)
    ensures r.Some? && limit >= 1 ==> IsListing(t, f, cursor, limit, r.value)
    ensures limit == 0 ==> r.Some? && r.value.undated == [] && r.value.page.items == [] && r.value.page.next == None
  {
    var rows := Matching(t, f);
    var keys := set id | id in rows && t.blogs[id].publishedAt.Some? :: Key(t.blogs[id].publishedAt.value, id);
    var undated := set id | id in rows && t.blogs[id].publishedAt.None?;
    assert keys == FeedKeys(t, f) && undated == Undated(t, f);
    if cursor.Some? || undated == {} || limit == 0 {
      var page := FetchPage(keys, cursor, limit);
      return Some(Listing([], page));
    }
    if |undated| > limit || (|undated| == limit && keys != {}) {
      return None;
    }
    var first := NewestIdsFirst(undated);
    var page := FetchPage(keys, None, limit - |first|);
    return Some(Listing(first, page));
  }

  /** What a filter lets through, clause by clause. */
  lemma FilterMeans(t: Tables, f: Filter, k: Key)
    ensures k in FeedKeys(t, f) <==>
              && k.id in t.blogs && t.blogs[k.id].publishedAt == Some(k.at) && t.blogs[k.id].status == f.status
              && (f.category == None || f.category.value in t.blogs[k.id].categories)
              && (f.series == None || f.series == t.blogs[k.id].series)
              && (f.publishedBefore == None || k.at < f.publishedBefore.value)
    ensures k.id in Undated(t, f) <==>
              && k.id in t.blogs && t.blogs[k.id].publishedAt.None? && t.blogs[k.id].status == f.status
              && (f.category == None || f.category.value in t.blogs[k.id].categories)
              && (f.series == None || f.series == t.blogs[k.id].series)
              && f.publishedBefore == None
  {
    if k.id in t.blogs && t.blogs[k.id].publishedAt == Some(k.at) {
      assert k == Key(t.blogs[k.id].publishedAt.value, k.id);
    }
  }

  /** An article published as such is in the feed at once, under its own time, and in the
      feeds of its categories and its series. */
  lemma PublishedIsListedAtOnce(env: Articles.Parsing, t: Tables, e: Articles.Edit)
    requires e.New? && e.status == Published && Articles.Parses(env, e) && Articles.Commit(env, t, e).Success?
    ensures var t', key := Articles.Commit(env, t, e).value, Key(e.now, e.id);
            && key in FeedKeys(t', Filter(Published, None, None, None))
            && (forall k :: k in e.keys ==> key in FeedKeys(t', Filter(Published, Some(k), None, Some(e.now + 1))))
            && (e.seriesKey.Some? ==>
                  && e.seriesKey.value in t.series
                  && key in FeedKeys(t', Filter(Published, None, Some(t.series[e.seriesKey.value]), None)))
  {
    Articles.CommitAppliesNew(env, t, e);
  }

  /** Archiving takes an article that is not archived, gives it that status and the time, and
      takes it, and nothing else, out of every public feed. */
  lemma ArchivedLeavesFeed(t: Tables, id: BlogId, at: Time, f: Filter, k: Key)
    ensures Archive(t, id, at).Some? <==> id in t.blogs && t.blogs[id].status != Archived
    ensures Archive(t, id, at).Some? ==>
              var t' := Archive(t, id, at).value;
              && t'.blogs[id].status == Archived && t'.blogs[id].archivedAt == Some(at)
              && (f.status == Published ==> (k in FeedKeys(t', f) <==> k in FeedKeys(t, f) && k.id != id))
  {
    FilterMeans(t, f, k);
    if Archive(t, id, at).Some? {
      FilterMeans(Archive(t, id, at).value, f, k);
    }
  }

  /** A published article has a publication time. */
  predicate Dated(t: Tables) {
    forall id :: id in t.blogs && t.blogs[id].status == Published ==> t.blogs[id].publishedAt.Some?
  }

  /** So the public feed never breaks, and lists by keys alone. */
  lemma PublishedListingIsByKeys(t: Tables, f: Filter, cursor: Option<Key>, limit: nat, l: Listing)
    requires Dated(t) && f.status == Published
    ensures Undated(t, f) == {} && !ListingBreaks(t, f, cursor, limit)
    ensures IsListing(t, f, cursor, limit, l) <==> l.undated == [] && IsPage(FeedKeys(t, f), cursor, limit, l.page)
  {
  }

  function Draft(id: BlogId, slug: string): Articles.Edit {
    Articles.New(id, 0, [], slug, slug, [], None, None, Status.Draft)
  }

  /** Exactly these drafts are there, and no edit is under way. */
  ghost predicate DraftsOnly(env: Articles.Parsing, w: Articles.World, slugs: map<BlogId, string>) {
    && Articles.Inv(env, w) && w.inflight == map[] && w.tables.pins == map[]
    && w.tables.blogs.Keys == slugs.Keys
    && forall id :: id in slugs ==>
         var b := w.tables.blogs[id];
         b.slug == slugs[id] && b.status == Status.Draft && b.publishedAt.None?
  }

  lemma DraftCommits(env: Articles.Parsing, t: Tables, id: BlogId, slug: string)
    requires t.pins == map[] && !SlugTaken(t, slug)
    requires env.bodyOf([]).Some? && Slug.IsKey(slug) && |slug| <= SLUG_LENGTH
    ensures Articles.Commit(env, t, Draft(id, slug)).Success?
    ensures var t' := Articles.Commit(env, t, Draft(id, slug)).value;
            && Articles.OnlyArticleDiffers(t, t', id)
            && var b := t'.blogs[id]; b.slug == slug && b.status == Status.Draft && b.publishedAt.None?
  {
    var e := Draft(id, slug);
    Articles.CommitsExactly(env, t, e);
    Articles.CommitIsLocal(env, t, e);
    Articles.CommitAppliesNew(env, t, e);
  }

  /** Adding a draft under a free slug. */
  lemma DraftRuns(env: Articles.Parsing, w: Articles.World, slugs: map<BlogId, string>, id: BlogId, slug: string)
    requires DraftsOnly(env, w, slugs) && id !in slugs && slug !in slugs.Values
    requires env.bodyOf([]).Some? && Slug.IsKey(slug) && |slug| <= SLUG_LENGTH
    ensures var steps := Articles.EditSteps(Draft(id, slug));
            && Articles.Valid(env, w, steps)
            && DraftsOnly(env, Articles.RunSteps(env, w, steps), slugs[id := slug])
  {
    var e := Draft(id, slug);
    assert !SlugTaken(w.tables, slug) by {
      assert forall x :: x in w.tables.blogs ==> w.tables.blogs[x].slug in slugs.Values;
    }
    DraftCommits(env, w.tables, id, slug);
    Articles.EditRuns(env, w, e);
    Articles.RunKeepsInv(env, w, Articles.EditSteps(e));
  }

  lemma ThenDraft(
    env: Articles.Parsing, before: seq<Articles.Step>, slugs: map<BlogId, string>, id: BlogId, slug: string)
    returns (steps: seq<Articles.Step>)
    requires Articles.Valid(env, Articles.EMPTY, before)
    requires DraftsOnly(env, Articles.RunSteps(env, Articles.EMPTY, before), slugs)
    requires id !in slugs && slug !in slugs.Values
    requires env.bodyOf([]).Some? && Slug.IsKey(slug) && |slug| <= SLUG_LENGTH
    ensures Articles.Valid(env, Articles.EMPTY, steps)
    ensures DraftsOnly(env, Articles.RunSteps(env, Articles.EMPTY, steps), slugs[id := slug])
  {
    DraftRuns(env, Articles.RunSteps(env, Articles.EMPTY, before), slugs, id, slug);
    steps := before + Articles.EditSteps(Draft(id, slug));
    Articles.RunAppend(env, Articles.EMPTY, before, Articles.EditSteps(Draft(id, slug)));
  }

  ghost predicate TwoDrafts(t: Tables) {
    && t.blogs.Keys == {1, 2}
    && forall id :: id in t.blogs ==> t.blogs[id].status == Status.Draft && t.blogs[id].publishedAt.None?
  }

  lemma TwoDraftsRun(env: Articles.Parsing) returns (steps: seq<Articles.Step>)
    requires env.bodyOf([]).Some?
    ensures Articles.Valid(env, Articles.EMPTY, steps)
    ensures TwoDrafts(Articles.RunSteps(env, Articles.EMPTY, steps).tables)
  {
    var one := ThenDraft(env, [], map[], 1, "a");
    steps := ThenDraft(env, one, map[][1 := "a"], 2, "b");
  }

  lemma TwoDraftsAreOneTooMany(t: Tables, f: Filter)
    requires TwoDrafts(t) && f == Filter(Status.Draft, None, None, None)
    ensures ListingBreaks(t, f, None, 1)
  {
    assert Undated(t, f) == {1, 2};
  }

  /** But the listing of drafts does: a run that adds two of them, and a page of one. */
  lemma TwoDraftsBreakListing() returns (env: Articles.Parsing, steps: seq<Articles.Step>, f: Filter)
    ensures Articles.Valid(env, Articles.EMPTY, steps) && f.status == Status.Draft
    ensures ListingBreaks(Articles.RunSteps(env, Articles.EMPTY, steps).tables, f, None, 1)
  {
    env, f := Articles.TWO_BODIES, Filter(Status.Draft, None, None, None);
    steps := TwoDraftsRun(env);
    TwoDraftsAreOneTooMany(Articles.RunSteps(env, Articles.EMPTY, steps).tables, f);
  }

  /** Articles are never removed, and a publication time once set never changes. */
  ghost predicate DatesKept(t: Tables, t': Tables) {
    forall id :: id in t.blogs ==>
      && id in t'.blogs
      && (t.blogs[id].publishedAt.Some? ==> t'.blogs[id].publishedAt == t.blogs[id].publishedAt)
  }

  lemma StepKeepsDates(env: Articles.Parsing, w: Articles.World, step: Articles.Step)
    requires Articles.Inv(env, w) && Articles.Enabled(env, w, step)
    ensures DatesKept(w.tables, Articles.Apply(env, w, step).tables)
  {
    if step.Finish? {
      var e := w.inflight[step.call];
      assert Articles.EditOk(env, w, step.call);
      if Articles.Commit(env, w.tables, e).Success? {
        Articles.CommitIsLocal(env, w.tables, e);
        Articles.CommitDatesArticle(env, w.tables, e);
      }
    } else if !step.Begin? {
      Articles.OtherKeepsDates(env, w, step);
    }
  }

  lemma {:induction false} RunKeepsDates(env: Articles.Parsing, w: Articles.World, steps: seq<Articles.Step>)
    requires Articles.Inv(env, w) && Articles.Valid(env, w, steps)
    ensures DatesKept(w.tables, Articles.RunSteps(env, w, steps).tables)
    decreases |steps|
  {
    if steps != [] {
      Articles.StepKeepsInv(env, w, steps[0]);
      StepKeepsDates(env, w, steps[0]);
      RunKeepsDates(env, Articles.Apply(env, w, steps[0]), steps[1..]);
    }
  }

  // ------------------------------------------------------------- the scan

  /** What the i-th fetch of a reader sees: any run may happen before each fetch. */
  ghost function Views(env: Articles.Parsing, w: Articles.World, between: seq<seq<Articles.Step>>): seq<Articles.World>
    requires AllValid(env, w, between)
    decreases |between|
  {
    if between == [] then []
    else
      var w' := Articles.RunSteps(env, w, between[0]);
      [w'] + Views(env, w', between[1..])
  }

  ghost predicate AllValid(env: Articles.Parsing, w: Articles.World, between: seq<seq<Articles.Step>>)
    decreases |between|
  {
    between == []
    || (Articles.Valid(env, w, between[0]) && AllValid(env, Articles.RunSteps(env, w, between[0]), between[1..]))
  }

  ghost function KeySets(ws: seq<Articles.World>, f: Filter): seq<set<Key>> {
    seq(|ws|, i requires 0 <= i < |ws| => FeedKeys(ws[i].tables, f))
  }

  ghost predicate MatchesIn(w: Articles.World, f: Filter, id: BlogId) {
    id in w.tables.blogs && Matches(w.tables.blogs[id], f)
  }

  ghost predicate MatchesThroughout(ws: seq<Articles.World>, f: Filter, id: BlogId) {
    forall i :: 0 <= i < |ws| ==> MatchesIn(ws[i], f, id)
  }

  lemma InvMeansDated(env: Articles.Parsing, w: Articles.World)
    requires Articles.Inv(env, w)
    ensures Dated(w.tables)
  {
    var t := w.tables;
    forall id | id in t.blogs && t.blogs[id].status == Published ensures t.blogs[id].publishedAt.Some? {
      assert Articles.ArticleOk(env, t, w.objects, id);
    }
  }

  lemma {:induction false} ViewsKeepDates(env: Articles.Parsing, w: Articles.World, between: seq<seq<Articles.Step>>)
    requires Articles.Inv(env, w) && AllValid(env, w, between)
    ensures var ws := Views(env, w, between);
            && |ws| == |between|
            && (forall i :: 0 <= i < |ws| ==> DatesKept(w.tables, ws[i].tables))
            && AllDatesKept(ws)
    decreases |between|
  {
    if between != [] {
      var w' := Articles.RunSteps(env, w, between[0]);
      Articles.RunKeepsInv(env, w, between[0]);
      RunKeepsDates(env, w, between[0]);
      InvMeansDated(env, w');
      ViewsKeepDates(env, w', between[1..]);
      var ws, rest := Views(env, w, between), Views(env, w', between[1..]);
      forall i | 0 <= i < |ws|
        ensures Dated(ws[i].tables) && DatesKept(w.tables, ws[i].tables) && DatesKept(w'.tables, ws[i].tables)
      {
        assert i > 0 ==> ws[i] == rest[i - 1];
      }
      forall i, j | 0 <= i <= j < |ws| ensures DatesKept(ws[i].tables, ws[j].tables) {
        if i > 0 {
          assert ws[i] == rest[i - 1] && ws[j] == rest[j - 1];
        }
      }
    }
  }

  ghost predicate AllDatesKept(ws: seq<Articles.World>) {
    && (forall i :: 0 <= i < |ws| ==> Dated(ws[i].tables))
    && (forall i, j :: 0 <= i <= j < |ws| ==> DatesKept(ws[i].tables, ws[j].tables))
  }

  lemma DatesKeptMeansKeysAdvance(ws: seq<Articles.World>, f: Filter)
    requires AllDatesKept(ws)
    ensures KeysOnlyAdvance(KeySets(ws, f))
  {
    var sets := KeySets(ws, f);
    forall i, j, k: Key, l: Key | 0 <= i <= j < |sets| && k in sets[i] && l in sets[j] && k.id == l.id
      ensures k.at <= l.at
    {
      assert DatesKept(ws[i].tables, ws[j].tables);
    }
  }

  lemma FeedRepeatsNothing(ws: seq<Articles.World>, f: Filter, limit: nat, pages: seq<Page>)
    requires AllDatesKept(ws) && limit >= 1 && IsScan(KeySets(ws, f), None, limit, pages)
    ensures Descending(Items(pages))
    ensures forall a, b :: 0 <= a < b < |Items(pages)| ==> Items(pages)[a].id != Items(pages)[b].id
  {
    DatesKeptMeansKeysAdvance(ws, f);
    ScanDescends(KeySets(ws, f), None, limit, pages);
    forall a, b | 0 <= a < b < |Items(pages)| ensures Items(pages)[a].id != Items(pages)[b].id {
      ScanRepeatsNoRow(KeySets(ws, f), None, limit, pages, a, b);
    }
  }

  lemma FeedMissesNothing(ws: seq<Articles.World>, f: Filter, limit: nat, pages: seq<Page>, id: BlogId)
    requires AllDatesKept(ws) && f.status == Published
    requires limit >= 1 && IsScan(KeySets(ws, f), None, limit, pages) && MatchesThroughout(ws, f, id)
    ensures exists k :: k in Items(pages) && k.id == id
  {
    assert MatchesIn(ws[0], f, id);
    var k := Key(ws[0].tables.blogs[id].publishedAt.value, id);
    forall i | 0 <= i < |ws| ensures k in KeySets(ws, f)[i] {
      assert DatesKept(ws[0].tables, ws[i].tables);
      assert MatchesIn(ws[i], f, id);
    }
    ScanMissesNothing(KeySets(ws, f), None, limit, pages, k);
  }

  /** The row was listed under its key when the world was `w`. */
  ghost predicate ListedIn(w: Articles.World, f: Filter, k: Key) {
    MatchesIn(w, f, k.id) && w.tables.blogs[k.id].publishedAt == Some(k.at)
  }

  lemma FeedInventsNothing(ws: seq<Articles.World>, f: Filter, limit: nat, pages: seq<Page>, k: Key)
    requires IsScan(KeySets(ws, f), None, limit, pages) && k in Items(pages)
    ensures exists i :: 0 <= i < |ws| && k in pages[i].items && ListedIn(ws[i], f, k)
  {
    var i := ScanInventsNothing(KeySets(ws, f), None, limit, pages, k);
    assert k in FeedKeys(ws[i].tables, f);
  }

  /** The feed's promise. However the articles change between fetches, no fetch breaks, and
      following `next` returns articles in strictly descending key order, none of them
      twice, each of them an article that matched when its page was fetched, and among them
      every article that matched at every fetch. */
  lemma FeedScanIsExact(
    env: Articles.Parsing, between: seq<seq<Articles.Step>>, f: Filter, limit: nat, pages: seq<Page>)
    requires f.status == Published && limit >= 1 && AllValid(env, Articles.EMPTY, between)
    requires IsScan(KeySets(Views(env, Articles.EMPTY, between), f), None, limit, pages)
    ensures var ws := Views(env, Articles.EMPTY, between);
            && (forall i :: 0 <= i < |ws| ==> Undated(ws[i].tables, f) == {})
            && (forall id :: MatchesThroughout(ws, f, id) ==> exists k :: k in Items(pages) && k.id == id)
            && (forall k :: k in Items(pages) ==>
                  exists i :: 0 <= i < |ws| && k in pages[i].items && ListedIn(ws[i], f, k))
    ensures Descending(Items(pages))
    ensures forall a, b :: 0 <= a < b < |Items(pages)| ==> Items(pages)[a].id != Items(pages)[b].id
  {
    var ws := Views(env, Articles.EMPTY, between);
    ViewsKeepDates(env, Articles.EMPTY, between);
    FeedRepeatsNothing(ws, f, limit, pages);
    forall id | MatchesThroughout(ws, f, id) ensures exists k :: k in Items(pages) && k.id == id {
      FeedMissesNothing(ws, f, limit, pages, id);
    }
    forall k | k in Items(pages) ensures exists i :: 0 <= i < |ws| && k in pages[i].items && ListedIn(ws[i], f, k) {
      FeedInventsNothing(ws, f, limit, pages, k);
    }
  }
}
