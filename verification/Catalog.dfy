/** Items of the catalogues readers save articles to. An item removed and saved again comes
    back under a newer key, which the article feed's keys never do. */
module Catalog {
  import opened Wrappers
  import opened Keyset

  type Time = int
  type CatalogId = nat
  type BlogId = nat

  datatype Slot = Slot(catalog: CatalogId, blog: BlogId)

  datatype Item = Item(addedAt: Time, note: Option<string>)

  type ItemTable = map<Slot, Item>

  /** Saving twice is not an error: the first time stays, a new note replaces the old. */
  function Save(t: ItemTable, slot: Slot, note: Option<string>, now: Time): ItemTable {
    t[slot := if slot !in t then Item(now, note) else t[slot].(note := if note.Some? then note else t[slot].note)]
  }

  /** A first save takes the time and the note; a later one only replaces the note, and only by
      one that is given. Nothing else changes. */
  lemma SaveMeans(t: ItemTable, slot: Slot, note: Option<string>, now: Time)
    ensures var t' := Save(t, slot, note, now);
            && t'.Keys == t.Keys + {slot}
            && (forall other :: other in t && other != slot ==> t'[other] == t[other])
            && (slot !in t ==> t'[slot] == Item(now, note))
            && (slot in t ==> t'[slot].addedAt == t[slot].addedAt)
            && (slot in t && note.Some? ==> t'[slot].note == note)
            && (slot in t && note.None? ==> t'[slot].note == t[slot].note)
  {
  }

  /** The listing of a catalogue has each of its articles once, under the time it was saved. */
  lemma ListingMeans(t: ItemTable, catalog: CatalogId, k: Key)
    ensures k in ItemKeys(t, catalog) <==> Slot(catalog, k.id) in t && t[Slot(catalog, k.id)].addedAt == k.at
  {
    if Slot(catalog, k.id) in t && t[Slot(catalog, k.id)].addedAt == k.at {
      assert k == Key(t[Slot(catalog, k.id)].addedAt, Slot(catalog, k.id).blog);
    }
  }

  function ItemKeys(t: ItemTable, catalog: CatalogId): set<Key> {
    set slot | slot in t && slot.catalog == catalog :: Key(t[slot].addedAt, slot.blog)
  }

  /** Removing an item takes its key, and no other, out of its catalogue's listing. */
  lemma RemovedItemLeavesListing(t: ItemTable, slot: Slot, catalog: CatalogId)
    ensures ItemKeys(t - {slot}, catalog)
         == set k | k in ItemKeys(t, catalog) && !(catalog == slot.catalog && k.id == slot.blog)
  {
    var kept := set k | k in ItemKeys(t, catalog) && !(catalog == slot.catalog && k.id == slot.blog);
    forall k | k in kept ensures k in ItemKeys(t - {slot}, catalog) {
      assert Slot(catalog, k.id) in t - {slot};
    }
  }

  /** Saving an item again in place keeps its key; removing it first gives it a new one. */
  lemma SavingAgainKeepsKey(t: ItemTable, slot: Slot, note: Option<string>, now: Time)
    ensures slot in t ==> ItemKeys(Save(t, slot, note, now), slot.catalog) == ItemKeys(t, slot.catalog)
    ensures ItemKeys(Save(t - {slot}, slot, note, now), slot.catalog)
         == ItemKeys(t - {slot}, slot.catalog) + {Key(now, slot.blog)}
    ensures slot !in t ==> Save(t, slot, note, now) - {slot} == t
  {
    var t' := Save(t, slot, note, now);
    if slot in t {
      forall k ensures k in ItemKeys(t', slot.catalog) <==> k in ItemKeys(t, slot.catalog) {
        assert Slot(slot.catalog, k.id) in t' <==> Slot(slot.catalog, k.id) in t;
      }
    }
    var u, u' := t - {slot}, Save(t - {slot}, slot, note, now);
    forall k ensures k in ItemKeys(u', slot.catalog) <==> k in ItemKeys(u, slot.catalog) + {Key(now, slot.blog)} {
      assert Slot(slot.catalog, k.id) in u' <==> Slot(slot.catalog, k.id) in u || k.id == slot.blog;
    }
  }

  class CatalogTable {
    var rows: ItemTable

    constructor ()
      ensures rows == map[]
    {
      rows := map[];
    }

    method AddItem(slot: Slot, note: Option<string>, now: Time) returns (item: Item)
      modifies this
      ensures rows == Save(old(rows), slot, note, now) && item == rows[slot]
      ensures rows == old(rows)[slot := item]
      ensures slot !in old(rows) ==> item == Item(now, note)
      ensures slot in old(rows) ==>
                item == Item(old(rows)[slot].addedAt, if note.Some? then note else old(rows)[slot].note)
    {
      if slot in rows {
        item := rows[slot];
        if note.Some? {
          item := item.(note := note);
        }
      } else {
        item := Item(now, note);
      }
      rows := rows[slot := item];
    }

    method RemoveItem(slot: Slot) returns (removed: bool)
      modifies this
      ensures rows == old(rows) - {slot} && removed == (slot in old(rows))
    {
      removed := slot in rows;
      rows := rows - {slot};
    }

    method ListItems(catalog: CatalogId, cursor: Option<Key>, limit: nat) returns (p: Page)
      ensures IsPage(ItemKeys(rows, catalog), cursor, limit, p)
      ensures forall k :: k in p.items ==> Slot(catalog, k.id) in rows && rows[Slot(catalog, k.id)].addedAt == k.at
    {
      var slots := set slot | slot in rows && slot.catalog == catalog;
      var keys := set slot | slot in slots :: Key(rows[slot].addedAt, slot.blog);
      assert keys == ItemKeys(rows, catalog);
      p := FetchPage(keys, cursor, limit);
    }
  }

  // ------------------------------------------------------------------- runs

  datatype World = World(items: ItemTable, now: Time)

  datatype Step = Tick(to: Time) | Add(slot: Slot, note: Option<string>) | Remove(slot: Slot)

  predicate Enabled(w: World, step: Step) {
    step.Tick? ==> w.now <= step.to
  }

  function Apply(w: World, step: Step): World {
    match step
    case Tick(to) => w.(now := to)
    case Add(slot, note) => w.(items := Save(w.items, slot, note, w.now))
    case Remove(slot) => w.(items := w.items - {slot})
  }

  ghost predicate Next(w: World, w': World) {
    exists step :: Enabled(w, step) && w' == Apply(w, step)
  }

  ghost predicate IsTrace(trace: seq<World>) {
    && |trace| >= 1 && trace[0].items == map[]
    && forall i :: 0 < i < |trace| ==> Next(trace[i - 1], trace[i])
  }

  ghost predicate NotFromTheFuture(w: World) {
    forall slot :: slot in w.items ==> w.items[slot].addedAt <= w.now
  }

  /** An item either stays as it was added or was added in between. */
  ghost predicate Later(w: World, w': World) {
    && w.now <= w'.now
    && forall slot :: slot in w'.items ==>
         (slot in w.items && w'.items[slot].addedAt == w.items[slot].addedAt) || w.now <= w'.items[slot].addedAt
  }

  lemma {:induction false} TraceAdvances(trace: seq<World>, i: nat, j: nat)
    requires IsTrace(trace) && i <= j < |trace|
    ensures Later(trace[i], trace[j])
    decreases j - i
  {
    if i < j {
      TraceAdvances(trace, i, j - 1);
      assert Next(trace[j - 1], trace[j]);
    }
  }

  lemma {:induction false} TraceStaysInThePast(trace: seq<World>, i: nat)
    requires IsTrace(trace) && i < |trace|
    ensures NotFromTheFuture(trace[i])
  {
    if i > 0 {
      TraceStaysInThePast(trace, i - 1);
      assert Next(trace[i - 1], trace[i]);
    }
  }

  ghost predicate Moments(trace: seq<World>, moments: seq<nat>) {
    && |moments| >= 1
    && (forall i :: 0 <= i < |moments| ==> moments[i] < |trace|)
    && (forall i, j :: 0 <= i <= j < |moments| ==> moments[i] <= moments[j])
  }

  ghost function Seen(trace: seq<World>, moments: seq<nat>, catalog: CatalogId): seq<set<Key>>
    requires Moments(trace, moments)
  {
    seq(|moments|, i requires 0 <= i < |moments| => ItemKeys(trace[moments[i]].items, catalog))
  }

  lemma ItemKeysAdvance(trace: seq<World>, moments: seq<nat>, catalog: CatalogId)
    requires IsTrace(trace) && Moments(trace, moments)
    ensures KeysOnlyAdvance(Seen(trace, moments, catalog))
  {
    var sets := Seen(trace, moments, catalog);
    forall i, j, k: Key, l: Key | 0 <= i <= j < |sets| && k in sets[i] && l in sets[j] && k.id == l.id
      ensures k.at <= l.at
    {
      TraceAdvances(trace, moments[i], moments[j]);
      TraceStaysInThePast(trace, moments[i]);
    }
  }

  /** However items come and go between fetches, none is returned twice, not even one that
      was removed and saved again. */
  lemma ItemScanRepeatsNothing(trace: seq<World>, moments: seq<nat>, catalog: CatalogId, limit: nat, pages: seq<Page>)
    requires IsTrace(trace) && Moments(trace, moments)
    requires limit >= 1 && IsScan(Seen(trace, moments, catalog), None, limit, pages)
    ensures Descending(Items(pages))
    ensures forall a, b :: 0 <= a < b < |Items(pages)| ==> Items(pages)[a].id != Items(pages)[b].id
  {
    var sets := Seen(trace, moments, catalog);
    ItemKeysAdvance(trace, moments, catalog);
    ScanDescends(sets, None, limit, pages);
    forall a, b | 0 <= a < b < |Items(pages)| ensures Items(pages)[a].id != Items(pages)[b].id {
      ScanRepeatsNoRow(sets, None, limit, pages, a, b);
    }
  }

  // ------------------------------------------------- items missed by a scan

  ghost predicate SavedThroughout(trace: seq<World>, moments: seq<nat>, slot: Slot)
    requires Moments(trace, moments)
  {
    forall i :: 0 <= i < |moments| ==> slot in trace[moments[i]].items
  }

  ghost function KeyAt(trace: seq<World>, moments: seq<nat>, slot: Slot, i: nat): Key
    requires Moments(trace, moments) && SavedThroughout(trace, moments, slot) && i < |moments|
  {
    Key(trace[moments[i]].items[slot].addedAt, slot.blog)
  }

  /** Before the i-th fetch the item was still to come; now it is above where that fetch
      starts. */
  ghost predicate Overtaken(trace: seq<World>, moments: seq<nat>, slot: Slot, pages: seq<Page>, i: nat)
    requires Moments(trace, moments) && SavedThroughout(trace, moments, slot) && |pages| == |moments|
  {
    && 0 < i < |moments| && pages[i - 1].next.Some?
    && Older(KeyAt(trace, moments, slot, i - 1), pages[i - 1].next.value)
    && !Older(KeyAt(trace, moments, slot, i), pages[i - 1].next.value)
  }

  /** That takes removing the item and saving it again since the fetch before. */
  lemma OvertakenMeansSavedAgain(trace: seq<World>, moments: seq<nat>, slot: Slot, pages: seq<Page>, i: nat)
    requires IsTrace(trace) && Moments(trace, moments) && SavedThroughout(trace, moments, slot)
    requires |pages| == |moments| && Overtaken(trace, moments, slot, pages, i)
    ensures KeyAt(trace, moments, slot, i - 1).at < KeyAt(trace, moments, slot, i).at
    ensures trace[moments[i - 1]].now <= KeyAt(trace, moments, slot, i).at
  {
    TraceAdvances(trace, moments[i - 1], moments[i]);
    TraceStaysInThePast(trace, moments[i - 1]);
  }

  /** What a page holds of the item is its key at that fetch. */
  lemma ReturnedAsSeen(trace: seq<World>, moments: seq<nat>, slot: Slot, limit: nat, pages: seq<Page>, k: Key)
    returns (j: nat)
    requires Moments(trace, moments) && SavedThroughout(trace, moments, slot)
    requires limit >= 1 && IsScan(Seen(trace, moments, slot.catalog), None, limit, pages)
    requires k in Items(pages) && k.id == slot.blog
    ensures j < |moments| && k in pages[j].items && k == KeyAt(trace, moments, slot, j)
  {
    j := ScanInventsNothing(Seen(trace, moments, slot.catalog), None, limit, pages, k);
  }

  /** An item saved throughout is returned under the key it had at the first fetch, unless
      it was saved again at the very instant of that fetch. */
  lemma ReturnedUnderFirstKey(trace: seq<World>, moments: seq<nat>, slot: Slot, limit: nat, pages: seq<Page>, k: Key)
    requires IsTrace(trace) && Moments(trace, moments) && SavedThroughout(trace, moments, slot)
    requires limit >= 1 && IsScan(Seen(trace, moments, slot.catalog), None, limit, pages)
    requires k in Items(pages) && k.id == slot.blog
    ensures k == KeyAt(trace, moments, slot, 0) || k.at == trace[moments[0]].now
  {
    var sets := Seen(trace, moments, slot.catalog);
    var j := ReturnedAsSeen(trace, moments, slot, limit, pages, k);
    if j > 0 {
      LaterPagesAreOlder(sets, None, limit, pages, 0, j, k);
      assert pages[0].next.value in After(sets[0], None);
      TraceAdvances(trace, moments[0], moments[j]);
      TraceStaysInThePast(trace, moments[0]);
    }
  }

  lemma OvertakenIsMissed(
    trace: seq<World>, moments: seq<nat>, slot: Slot, limit: nat, pages: seq<Page>, i: nat, k: Key)
    requires IsTrace(trace) && Moments(trace, moments) && SavedThroughout(trace, moments, slot)
    requires limit >= 1 && IsScan(Seen(trace, moments, slot.catalog), None, limit, pages)
    requires Overtaken(trace, moments, slot, pages, i) && k in Items(pages)
    ensures k.id != slot.blog
  {
    if k.id == slot.blog {
      var sets := Seen(trace, moments, slot.catalog);
      var j := ReturnedAsSeen(trace, moments, slot, limit, pages, k);
      if j < i {
        KeyAdvances(trace, moments, slot, j, i - 1);
        NextIsOldestSoFar(sets, None, limit, pages, j, i - 1, k);
        assert false;
      } else {
        KeyAdvances(trace, moments, slot, i, j);
        LaterPagesAreOlder(sets, None, limit, pages, i - 1, j, k);
        assert false;
      }
    }
  }

  lemma KeyAdvances(trace: seq<World>, moments: seq<nat>, slot: Slot, i: nat, j: nat)
    requires IsTrace(trace) && Moments(trace, moments) && SavedThroughout(trace, moments, slot)
    requires i <= j < |moments|
    ensures KeyAt(trace, moments, slot, i).at <= KeyAt(trace, moments, slot, j).at
  {
    TraceAdvances(trace, moments[i], moments[j]);
    TraceStaysInThePast(trace, moments[i]);
  }

  /** Follows an item that is still to come at the i-th fetch until it is overtaken. */
  lemma {:induction false} FindOvertaken(
    trace: seq<World>, moments: seq<nat>, slot: Slot, limit: nat, pages: seq<Page>, i: nat)
    returns (j: nat)
    requires Moments(trace, moments) && SavedThroughout(trace, moments, slot)
    requires limit >= 1 && IsScan(Seen(trace, moments, slot.catalog), None, limit, pages)
    requires forall k :: k in Items(pages) ==> k.id != slot.blog
    requires i < |moments|
    requires i > 0 ==> pages[i - 1].next.Some? && Older(KeyAt(trace, moments, slot, i), pages[i - 1].next.value)
    ensures Overtaken(trace, moments, slot, pages, j)
    decreases |moments| - i
  {
    var sets, key := Seen(trace, moments, slot.catalog), KeyAt(trace, moments, slot, i);
    PageAt(sets, None, limit, pages, i);
    assert key in After(sets[i], CursorAt(None, pages, i));
    if key in pages[i].items {
      OnAPage(pages, i, key);
      assert false;
    } else {
      assert pages[i].hasMore;
      LastPageHasNoMore(sets, None, limit, pages);
      if Older(KeyAt(trace, moments, slot, i + 1), pages[i].next.value) {
        j := FindOvertaken(trace, moments, slot, limit, pages, i + 1);
      } else {
        j := i + 1;
      }
    }
  }

  /** An item saved at every fetch can still be missed, and exactly then: it was overtaken,
      saved again above the cursor before the scan came to it. */
  lemma ItemMissedExactlyWhenOvertaken(
    trace: seq<World>, moments: seq<nat>, slot: Slot, limit: nat, pages: seq<Page>)
    requires IsTrace(trace) && Moments(trace, moments) && SavedThroughout(trace, moments, slot)
    requires limit >= 1 && IsScan(Seen(trace, moments, slot.catalog), None, limit, pages)
    ensures (forall k :: k in Items(pages) ==> k.id != slot.blog) <==>
              exists i :: Overtaken(trace, moments, slot, pages, i)
  {
    if forall k :: k in Items(pages) ==> k.id != slot.blog {
      var i := FindOvertaken(trace, moments, slot, limit, pages, 0);
    }
    if i :| Overtaken(trace, moments, slot, pages, i) {
      forall k | k in Items(pages) ensures k.id != slot.blog {
        OvertakenIsMissed(trace, moments, slot, limit, pages, i, k);
      }
    }
  }

  const OLD := Slot(0, 1)
  const OTHER := Slot(0, 2)

  /** OLD is saved, then OTHER, and OLD is removed and saved again. */
  ghost function Resaving(): (trace: seq<World>) {
    var one, two, three := Item(1, None), Item(2, None), Item(3, None);
    [ World(map[], 1),
      World(map[OLD := one], 1),
      World(map[OLD := one], 2),
      World(map[OLD := one, OTHER := two], 2),
      World(map[OLD := one, OTHER := two], 3),
      World(map[OTHER := two], 3),
      World(map[OLD := three, OTHER := two], 3)]
  }

  lemma ResavingIsTrace()
    ensures IsTrace(Resaving())
  {
    var trace := Resaving();
    assert Next(trace[0], trace[1]) by { assert trace[1] == Apply(trace[0], Add(OLD, None)); }
    assert Next(trace[1], trace[2]) by { assert trace[2] == Apply(trace[1], Tick(2)) && Enabled(trace[1], Tick(2)); }
    assert Next(trace[2], trace[3]) by { assert trace[3] == Apply(trace[2], Add(OTHER, None)); }
    assert Next(trace[3], trace[4]) by { assert trace[4] == Apply(trace[3], Tick(3)) && Enabled(trace[3], Tick(3)); }
    assert Next(trace[4], trace[5]) by { assert trace[5] == Apply(trace[4], Remove(OLD)); }
    assert Next(trace[5], trace[6]) by { assert trace[6] == Apply(trace[5], Add(OLD, None)); }
  }

  lemma ResavingKeys()
    ensures ItemKeys(Resaving()[3].items, 0) == {Key(1, 1), Key(2, 2)}
    ensures ItemKeys(Resaving()[6].items, 0) == {Key(3, 1), Key(2, 2)}
  {
  }

  lemma TwoPageScan(sets: seq<set<Key>>) returns (pages: seq<Page>)
    requires sets == [{Key(1, 1), Key(2, 2)}, {Key(3, 1), Key(2, 2)}]
    ensures IsScan(sets, None, 1, pages) && Items(pages) == [Key(2, 2)]
  {
    var last := Key(2, 2);
    pages := [Page([last], Some(last), true), Page([], None, false)];
    assert IsPage(sets[0], None, 1, pages[0]) by {
      assert Key(1, 1) in After(sets[0], None) && Key(1, 1) !in pages[0].items;
    }
    assert IsPage(sets[1], Some(last), 1, pages[1]) by {
      assert After(sets[1], Some(last)) == {};
    }
    assert IsScan(sets[1..], Some(last), 1, pages[1..]);
    assert Items(pages[1..][1..]) == [];
    assert Items(pages[1..]) == [];
  }

  /** It happens: an item saved at both fetches of a scan that never returns it. */
  lemma ResavedItemCanBeMissed() returns (trace: seq<World>, moments: seq<nat>, slot: Slot, pages: seq<Page>)
    ensures IsTrace(trace) && Moments(trace, moments) && SavedThroughout(trace, moments, slot)
    ensures IsScan(Seen(trace, moments, slot.catalog), None, 1, pages)
    ensures forall k :: k in Items(pages) ==> k.id != slot.blog
  {
    trace, moments, slot := Resaving(), [3, 6], OLD;
    ResavingIsTrace();
    ResavingKeys();
    var sets := Seen(trace, moments, 0);
    assert sets == [{Key(1, 1), Key(2, 2)}, {Key(3, 1), Key(2, 2)}];
    pages := TwoPageScan(sets);
  }
}
