/** Keyset paging, newest first: the scheme shared by the article feed, the comment
    threads and the catalogue items. A page is the first `limit` rows after a cursor in
    `ORDER BY at DESC, id DESC`; one extra row is fetched to learn whether more follow.

    The matching rows are represented by their keys. Each fetch sees the set of keys that
    match at that moment; nothing is assumed about how that set changes in between. */
module Keyset {
  import opened Wrappers

  datatype Key = Key(at: int, id: nat)

  /** The keys that match at each of a row of fetches. */
  type Fetched = seq<set<Key>>

  /** The row comparison `(at, id) < (at, id)`. */
  predicate Older(a: Key, b: Key) {
    a.at < b.at || (a.at == b.at && a.id < b.id)
  }

  predicate Descending(ks: seq<Key>) {
    forall i, j :: 0 <= i < j < |ks| ==> Older(ks[j], ks[i])
  }

  function After(s: set<Key>, cursor: Option<Key>): set<Key> {
    set k | k in s && (cursor.None? || Older(k, cursor.value))
  }

  /** `ks` is the result of the ordered query with `LIMIT n` over `s`. */
  ghost predicate IsTop(s: set<Key>, n: nat, ks: seq<Key>) {
    && Descending(ks)
    && |ks| <= n
    && (forall k :: k in ks ==> k in s)
    && (forall k :: k in s && k !in ks ==> |ks| == n && forall i :: 0 <= i < |ks| ==> Older(k, ks[i]))
  }

  datatype Page = Page(items: seq<Key>, next: Option<Key>, hasMore: bool)

  ghost predicate IsPage(s: set<Key>, cursor: Option<Key>, limit: nat, p: Page) {
    && IsTop(After(s, cursor), limit, p.items)
    && (p.hasMore <==> exists k :: k in After(s, cursor) && k !in p.items)
    && p.next == if p.hasMore && p.items != [] then Some(p.items[|p.items| - 1]) else None
  }

  method NewestOf(s: set<Key>) returns (newest: Key)
    requires s != {}
    ensures newest in s && forall k :: k in s && k != newest ==> Older(k, newest)
  {
    newest :| newest in s;
    var rest := s - {newest};
    while rest != {}
      invariant rest <= s && newest in s
      invariant forall k :: k in s && k !in rest && k != newest ==> Older(k, newest)
      decreases |rest|
    {
      var k :| k in rest;
      if Older(newest, k) {
        newest := k;
      }
      rest := rest - {k};
    }
  }

  method Select(s: set<Key>, n: nat) returns (ks: seq<Key>)
    ensures IsTop(s, n, ks)
  {
    ks := [];
    var rest := s;
    while rest != {} && |ks| < n
      invariant |ks| <= n && rest <= s && Descending(ks)
      invariant forall k :: k in ks ==> k in s - rest
      invariant forall k :: k in s ==> k in rest || k in ks
      invariant forall k, i :: k in rest && 0 <= i < |ks| ==> Older(k, ks[i])
      decreases |rest|
    {
      var newest := NewestOf(rest);
      ks := ks + [newest];
      rest := rest - {newest};
    }
  }

  method FetchPage(s: set<Key>, cursor: Option<Key>, limit: nat) returns (p: Page)
    ensures IsPage(s, cursor, limit, p)
    ensures |p.items| <= limit
    ensures forall i, j :: 0 <= i < j < |p.items| ==>
              || p.items[j].at < p.items[i].at
              || (p.items[j].at == p.items[i].at && p.items[j].id < p.items[i].id)
    ensures forall k :: k in p.items ==>
              k in s && (cursor.Some? ==> k.at < cursor.value.at || (k.at == cursor.value.at && k.id < cursor.value.id))
    ensures p.hasMore <==> exists k :: k in After(s, cursor) && k !in p.items
  {
    var rows := Select(After(s, cursor), limit + 1);
    var hasMore := |rows| > limit;
    var items := if hasMore then rows[..limit] else rows;
    if hasMore {
      assert rows[limit] in After(s, cursor) && rows[limit] !in items;
      assert forall k :: k in rows ==> k in items || k == rows[limit];
    }
    assert forall k :: k in items ==> k in rows && k in After(s, cursor);
    p := Page(items, if hasMore && items != [] then Some(items[|items| - 1]) else None, hasMore);
  }

  /** A page is determined by the rows that match, the cursor and the limit. */
  lemma PageIsDetermined(s: set<Key>, cursor: Option<Key>, limit: nat, p: Page, q: Page)
    requires IsPage(s, cursor, limit, p) && IsPage(s, cursor, limit, q)
    ensures p == q
  {
    TopIsDetermined(After(s, cursor), limit, p.items, q.items, |p.items|);
    TopIsDetermined(After(s, cursor), limit, q.items, p.items, |q.items|);
  }

  lemma {:induction false} TopIsDetermined(s: set<Key>, n: nat, a: seq<Key>, b: seq<Key>, i: nat)
    requires IsTop(s, n, a) && IsTop(s, n, b) && i <= |a|
    ensures i <= |b| && a[..i] == b[..i]
  {
    if i > 0 {
      TopIsDetermined(s, n, a, b, i - 1);
      var k := a[i - 1];
      assert k in s && k !in a[..i - 1];
      assert i <= |b| by {
        if k in b {
          var j :| 0 <= j < |b| && b[j] == k;
          assert j >= i - 1;
        }
      }
      var l := b[i - 1];
      assert l in s && l !in b[..i - 1];
      assert k == l by {
        EarlierIsNewer(s, n, a, i - 1, l);
        EarlierIsNewer(s, n, b, i - 1, k);
      }
    }
  }

  lemma EarlierIsNewer(s: set<Key>, n: nat, ks: seq<Key>, i: nat, k: Key)
    requires IsTop(s, n, ks) && i < |ks|
    requires k in s && k !in ks[..i]
    ensures k == ks[i] || Older(k, ks[i])
  {
    if k in ks {
      var j :| 0 <= j < |ks| && ks[j] == k;
      assert j >= i;
    }
  }

  // ------------------------------------------------------------------ scans

  /** Fetching by `next` until `hasMore` is false. The i-th fetch sees `sets[i]`. */
  ghost predicate IsScan(sets: Fetched, cursor: Option<Key>, limit: nat, pages: seq<Page>)
    decreases |pages|
  {
    && |sets| == |pages| >= 1
    && IsPage(sets[0], cursor, limit, pages[0])
    && (if |pages| == 1 then !pages[0].hasMore
        else pages[0].hasMore && IsScan(sets[1..], pages[0].next, limit, pages[1..]))
  }

  function Items(pages: seq<Page>): seq<Key> {
    if pages == [] then [] else pages[0].items + Items(pages[1..])
  }

  /** However the table changes between fetches, the scan descends strictly: nothing is
      repeated and nothing comes out of order. */
  lemma {:induction false} ScanDescends(sets: Fetched, cursor: Option<Key>, limit: nat, pages: seq<Page>)
    requires limit >= 1 && IsScan(sets, cursor, limit, pages)
    ensures Descending(Items(pages))
    ensures cursor.Some? ==> forall k :: k in Items(pages) ==> Older(k, cursor.value)
    decreases |pages|
  {
    var first, rest := pages[0].items, Items(pages[1..]);
    if |pages| > 1 {
      ScanDescends(sets[1..], pages[0].next, limit, pages[1..]);
      assert first != [] by {
        var k :| k in After(sets[0], cursor) && k !in first;
        assert |first| == limit;
      }
      var last := first[|first| - 1];
      assert pages[0].next == Some(last) && last in After(sets[0], cursor);
      forall i, j | 0 <= i < |first| && 0 <= j < |rest| ensures Older(rest[j], first[i]) {
        assert rest[j] in rest && Older(rest[j], last);
      }
    } else {
      assert rest == [];
    }
  }

  /** A row that matched at every fetch is returned. */
  lemma {:induction false} ScanMissesNothing(sets: Fetched, cursor: Option<Key>, limit: nat, pages: seq<Page>, k: Key)
    requires limit >= 1 && IsScan(sets, cursor, limit, pages)
    requires forall i :: 0 <= i < |sets| ==> k in sets[i]
    requires cursor.Some? ==> Older(k, cursor.value)
    ensures k in Items(pages)
    decreases |pages|
  {
    if k !in pages[0].items {
      assert k in After(sets[0], cursor);
      assert |pages| > 1 && |pages[0].items| == limit;
      ScanMissesNothing(sets[1..], pages[0].next, limit, pages[1..], k);
    }
  }

  /** The cursor the i-th fetch is made with. */
  function CursorAt(cursor: Option<Key>, pages: seq<Page>, i: nat): Option<Key>
    requires i <= |pages|
  {
    if i == 0 then cursor else pages[i - 1].next
  }

  lemma {:induction false} PageAt(sets: Fetched, cursor: Option<Key>, limit: nat, pages: seq<Page>, i: nat)
    requires limit >= 1 && IsScan(sets, cursor, limit, pages) && i < |pages|
    ensures IsPage(sets[i], CursorAt(cursor, pages, i), limit, pages[i])
    ensures i < |pages| - 1 ==> pages[i].next.Some?
    decreases |pages|
  {
    if i > 0 {
      PageAt(sets[1..], pages[0].next, limit, pages[1..], i - 1);
      assert CursorAt(cursor, pages, i) == CursorAt(pages[0].next, pages[1..], i - 1);
    } else if |pages| > 1 {
      var k :| k in After(sets[0], cursor) && k !in pages[0].items;
      assert |pages[0].items| == limit;
    }
  }

  lemma {:induction false} LastPageHasNoMore(sets: Fetched, cursor: Option<Key>, limit: nat, pages: seq<Page>)
    requires limit >= 1 && IsScan(sets, cursor, limit, pages)
    ensures !pages[|pages| - 1].hasMore
    decreases |pages|
  {
    if |pages| > 1 {
      LastPageHasNoMore(sets[1..], pages[0].next, limit, pages[1..]);
    }
  }

  /** Nothing returned so far is older than the cursor that comes next. */
  lemma NextIsOldestSoFar(sets: Fetched, cursor: Option<Key>, limit: nat, pages: seq<Page>, j: nat, i: nat, k: Key)
    requires limit >= 1 && IsScan(sets, cursor, limit, pages)
    requires j <= i < |pages| && k in pages[j].items && pages[i].next.Some?
    ensures !Older(k, pages[i].next.value)
  {
    PageAt(sets, cursor, limit, pages, i);
    var next := pages[i].next.value;
    if j < i {
      LaterPagesAreOlder(sets, cursor, limit, pages, j, i, next);
    } else {
      assert next == pages[i].items[|pages[i].items| - 1];
    }
  }

  /** A row is missed only by leaving before the scan comes to it. */
  lemma {:induction false} MissedMeansGone(sets: Fetched, cursor: Option<Key>, limit: nat, pages: seq<Page>, k: Key)
    returns (i: nat)
    requires limit >= 1 && IsScan(sets, cursor, limit, pages) && k !in Items(pages)
    requires cursor.Some? ==> Older(k, cursor.value)
    ensures i < |sets| && k !in sets[i]
    ensures CursorAt(cursor, pages, i).Some? ==> Older(k, CursorAt(cursor, pages, i).value)
    decreases |pages|
  {
    if k !in sets[0] {
      i := 0;
    } else {
      assert k in After(sets[0], cursor);
      assert |pages| > 1 && |pages[0].items| == limit;
      var j := MissedMeansGone(sets[1..], pages[0].next, limit, pages[1..], k);
      i := j + 1;
      assert CursorAt(cursor, pages, i) == CursorAt(pages[0].next, pages[1..], j);
    }
  }

  lemma {:induction false} OnAPage(pages: seq<Page>, i: nat, k: Key)
    requires i < |pages| && k in pages[i].items
    ensures k in Items(pages)
  {
    if i > 0 {
      OnAPage(pages[1..], i - 1, k);
    }
  }

  /** What a later page returns is older than everything, and the cursor, of an earlier one. */
  lemma {:induction false} LaterPagesAreOlder(
    sets: Fetched, cursor: Option<Key>, limit: nat, pages: seq<Page>, i: nat, j: nat, l: Key)
    requires limit >= 1 && IsScan(sets, cursor, limit, pages)
    requires i < j < |pages| && l in pages[j].items
    ensures pages[i].next.Some? && pages[i].next.value in pages[i].items
    ensures Older(l, pages[i].next.value)
    ensures forall k :: k in pages[i].items ==> Older(l, k)
    decreases i
  {
    if i > 0 {
      LaterPagesAreOlder(sets[1..], pages[0].next, limit, pages[1..], i - 1, j - 1, l);
    } else {
      assert pages[0].items != [] by {
        var k :| k in After(sets[0], cursor) && k !in pages[0].items;
        assert |pages[0].items| == limit;
      }
      OnAPage(pages[1..], j - 1, l);
      ScanDescends(sets[1..], pages[0].next, limit, pages[1..]);
    }
  }

  /** Every row returned matched at the fetch that returned it. */
  lemma {:induction false} ScanInventsNothing(sets: Fetched, cursor: Option<Key>, limit: nat, pages: seq<Page>, k: Key)
    returns (i: nat)
    requires IsScan(sets, cursor, limit, pages) && k in Items(pages)
    ensures i < |sets| && k in sets[i] && k in pages[i].items
    decreases |pages|
  {
    if k in pages[0].items {
      i := 0;
      assert k in After(sets[0], cursor);
    } else {
      assert |pages| > 1;
      var j := ScanInventsNothing(sets[1..], pages[0].next, limit, pages[1..], k);
      i := j + 1;
    }
  }

  /** The time in a row's key may move forward between fetches but never back. */
  ghost predicate KeysOnlyAdvance(sets: Fetched) {
    forall i, j, k, l :: 0 <= i <= j < |sets| && k in sets[i] && l in sets[j] && k.id == l.id ==> k.at <= l.at
  }

  lemma AdvanceFromSecond(sets: Fetched)
    requires sets != [] && KeysOnlyAdvance(sets)
    ensures KeysOnlyAdvance(sets[1..])
  {
  }

  lemma ItemsAfterFirst(pages: seq<Page>, a: nat)
    requires pages != [] && a < |Items(pages)|
    ensures a < |pages[0].items| ==> Items(pages)[a] in pages[0].items
    ensures a >= |pages[0].items| ==>
              var b := a - |pages[0].items|; b < |Items(pages[1..])| && Items(pages)[a] == Items(pages[1..])[b]
  {
  }

  /** Then no row is returned twice, not even under a new key. */
  lemma {:induction false} ScanRepeatsNoRow(
    sets: Fetched, cursor: Option<Key>, limit: nat, pages: seq<Page>, a: nat, b: nat)
    requires limit >= 1 && IsScan(sets, cursor, limit, pages) && KeysOnlyAdvance(sets)
    requires a < b < |Items(pages)|
    ensures Items(pages)[a].id != Items(pages)[b].id
    decreases |pages|
  {
    var first := pages[0].items;
    ItemsAfterFirst(pages, a);
    ItemsAfterFirst(pages, b);
    if a >= |first| {
      assert pages[1..] != [];
      AdvanceFromSecond(sets);
      ScanRepeatsNoRow(sets[1..], pages[0].next, limit, pages[1..], a - |first|, b - |first|);
    } else {
      FirstPageIsNotRepeated(sets, cursor, limit, pages, a, b);
    }
  }

  lemma FirstPageIsNotRepeated(sets: Fetched, cursor: Option<Key>, limit: nat, pages: seq<Page>, a: nat, b: nat)
    requires limit >= 1 && IsScan(sets, cursor, limit, pages) && KeysOnlyAdvance(sets)
    requires a < b < |Items(pages)| && Items(pages)[a] in pages[0].items
    ensures Items(pages)[a].id != Items(pages)[b].id
  {
    var k, l := Items(pages)[a], Items(pages)[b];
    ScanDescends(sets, cursor, limit, pages);
    assert Older(l, k);
    assert k in After(sets[0], cursor);
    var j := ScanInventsNothing(sets, cursor, limit, pages, l);
  }

  /** Over a table nobody changes, paging is the same as asking for everything at once. */
  lemma {:induction false} QuietScanIsOneBigPage(
    s: set<Key>, cursor: Option<Key>, limit: nat, pages: seq<Page>, enough: nat)
    requires limit >= 1 && IsScan(seq(|pages|, _ => s), cursor, limit, pages)
    requires |Items(pages)| <= enough
    ensures IsPage(s, cursor, enough, Page(Items(pages), None, false))
  {
    var sets := seq(|pages|, _ => s);
    ScanDescends(sets, cursor, limit, pages);
    forall k | k in After(s, cursor) ensures k in Items(pages) {
      ScanMissesNothing(sets, cursor, limit, pages, k);
    }
    forall k | k in Items(pages) ensures k in After(s, cursor) {
      var i := ScanInventsNothing(sets, cursor, limit, pages, k);
    }
  }
}
