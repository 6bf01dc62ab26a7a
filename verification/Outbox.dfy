/** The transactional outbox: the rows of `outbox_events`, the statements that change
    them, and the relay that several workers run over them at once.

    A drain is split into its observable steps (claim, one delivery at a time, commit),
    because a delivery leaves the process and is not undone when the transaction is. */
module Outbox {
  import opened Wrappers

  type Id = nat
  type Worker = nat
  /** Microseconds. */
  type Time = int

  datatype Status = Pending | Published | Dead

  datatype Event = Event(
    status: Status,
    attempts: nat,
    nextAttempt: Time,
    publishedAt: Option<Time>,
    lastError: Option<string>)

  type Table = map<Id, Event>

  datatype Config = Config(limit: nat, maxAttempts: nat)

  type Settings = c: Config | c.limit >= 1 && c.maxAttempts >= 1 witness Config(50, 8)

  /** What one delivery came to: handed over, or failed with the jitter then drawn. */
  datatype Outcome = Sent | Failed(delay: nat, error: string)

  const BACKOFF_BASE := 2_000_000
  const BACKOFF_CAP := 600_000_000
  const ERROR_LENGTH := 2000

  function Pow2(n: nat): (p: nat)
    ensures p > n
  {
    if n == 0 then 1 else 2 * Pow2(n - 1)
  }

  function BackoffCeiling(attempts: nat): (ceiling: nat) {
    if BACKOFF_BASE * Pow2(attempts) < BACKOFF_CAP then BACKOFF_BASE * Pow2(attempts) else BACKOFF_CAP
  }

  /** The ceiling doubles with every failure until it meets the cap, so a retry never waits
      longer than ten minutes. `attempts` is the number of earlier failures: the cap holds
      from the tenth failure on. */
  lemma BackoffDoublesThenCaps(attempts: nat)
    ensures BackoffCeiling(0) == BACKOFF_BASE == 2_000_000 && BACKOFF_CAP == 600_000_000
    ensures var ceiling := BackoffCeiling(attempts);
            BackoffCeiling(attempts + 1) == if 2 * ceiling < BACKOFF_CAP then 2 * ceiling else BACKOFF_CAP
    ensures attempts >= 9 <==> BackoffCeiling(attempts) == BACKOFF_CAP
  {
    assert Pow2(8) == 256 by {
      assert Pow2(4) == 16;
      assert Pow2(6) == 64;
    }
    if attempts >= 9 {
      Pow2Monotone(9, attempts);
    } else {
      Pow2Monotone(attempts, 8);
    }
  }

  lemma {:induction false} Pow2Monotone(m: nat, n: nat)
    requires m <= n
    ensures Pow2(m) <= Pow2(n)
  {
    if m < n {
      Pow2Monotone(m, n - 1);
    }
  }

  // ---------------------------------------------------------------- claiming

  /** The claim order: `ORDER BY next_attempt_at, id`. */
  predicate Ahead(t: Table, a: Id, b: Id)
    requires a in t && b in t
  {
    t[a].nextAttempt < t[b].nextAttempt || (t[a].nextAttempt == t[b].nextAttempt && a < b)
  }

  predicate IsPending(t: Table, id: Id) {
    id in t && t[id].status == Pending
  }

  function Due(t: Table, locked: set<Id>, now: Time): set<Id> {
    set id | id in t && IsPending(t, id) && t[id].nextAttempt <= now && id !in locked
  }

  /** `ids` is what `FOR UPDATE SKIP LOCKED` with a limit returns: the first due rows, in
      claim order, that no other transaction holds. */
  ghost predicate IsClaim(t: Table, locked: set<Id>, now: Time, limit: nat, ids: seq<Id>) {
    var due := Due(t, locked, now);
    && |ids| <= limit
    && (forall i :: 0 <= i < |ids| ==> ids[i] in due)
    && (forall i, j :: 0 <= i < j < |ids| ==> Ahead(t, ids[i], ids[j]))
    && (forall id :: id in due && id !in ids ==> |ids| == limit && forall i :: 0 <= i < |ids| ==> Ahead(t, ids[i], id))
  }

  // ---------------------------------------------------------------- settling

  function Truncated(error: string): string {
    if |error| <= ERROR_LENGTH then error else error[..ERROR_LENGTH]
  }

  function Settled(c: Settings, e: Event, now: Time, outcome: Outcome): Event {
    match outcome
    case Sent => e.(status := Published, publishedAt := Some(now), lastError := None)
    case Failed(delay, error) =>
      e.(status := if e.attempts + 1 >= c.maxAttempts then Dead else Pending,
         attempts := e.attempts + 1,
         nextAttempt := now + delay,
         lastError := Some(Truncated(error)))
  }

  /** The table once a drain that took `now` commits with these results. */
  function Settle(c: Settings, t: Table, now: Time, results: map<Id, Outcome>): Table {
    map id | id in t :: if id in results then Settled(c, t[id], now, results[id]) else t[id]
  }

  /** `kept` is the text, or its first 2000 characters. */
  predicate IsCut(text: string, kept: string) {
    if |text| <= 2000 then kept == text else |kept| == 2000 && kept <= text
  }

  /** A delivered event is published at the drain's time with no error. */
  predicate IsDelivered(before: Event, after: Event, now: Time) {
    && after.status == Published && after.publishedAt == Some(now) && after.lastError == None
    && after.attempts == before.attempts && after.nextAttempt == before.nextAttempt
  }

  /** A failed event has one more attempt, is due again after the delay, counted from the
      drain's time, keeps the first 2000 characters of its error, and is dead if that was
      its last try. */
  predicate IsPutOff(c: Settings, before: Event, after: Event, now: Time, delay: nat, error: string) {
    && after.attempts == before.attempts + 1
    && after.nextAttempt == now + delay
    && after.status == (if before.attempts + 1 < c.maxAttempts then Pending else Dead)
    && after.publishedAt == before.publishedAt
    && after.lastError.Some? && IsCut(error, after.lastError.value)
  }

  /** What settling means for each row. */
  lemma SettleMeans(c: Settings, t: Table, now: Time, results: map<Id, Outcome>)
    ensures var t' := Settle(c, t, now, results);
            && t'.Keys == t.Keys
            && (forall id :: id in t && id !in results ==> t'[id] == t[id])
            && (forall id :: id in t && id in results && results[id].Sent? ==> IsDelivered(t[id], t'[id], now))
            && (forall id :: id in t && id in results && results[id].Failed? ==>
                  IsPutOff(c, t[id], t'[id], now, results[id].delay, results[id].error))
  {
  }

  function PublishAll(t: Table, ids: seq<Id>, now: Time): Table {
    map id | id in t ::
      if id in ids then t[id].(status := Published, publishedAt := Some(now), lastError := None) else t[id]
  }

  function IdsOf(ids: seq<Id>): set<Id> {
    set id | id in ids
  }

  ghost predicate Distinct(ids: seq<Id>) {
    forall i, j :: 0 <= i < j < |ids| ==> ids[i] != ids[j]
  }

  lemma ClaimIsDistinct(t: Table, locked: set<Id>, now: Time, limit: nat, ids: seq<Id>)
    requires IsClaim(t, locked, now, limit, ids)
    ensures Distinct(ids) && IdsOf(ids) <= t.Keys
  {
    forall id | id in ids ensures id in t {
      assert id in Due(t, locked, now);
    }
    forall i, j | 0 <= i < j < |ids| ensures ids[i] != ids[j] {
      assert ids[i] in Due(t, locked, now) && ids[j] in Due(t, locked, now);
    }
  }

  /** No failed delivery is put off beyond its ceiling. */
  ghost predicate DelaysOk(t: Table, results: map<Id, Outcome>) {
    forall id :: id in results && results[id].Failed? ==> id in t && results[id].delay <= BackoffCeiling(t[id].attempts)
  }

  function SentIds(results: map<Id, Outcome>): set<Id> {
    set id | id in results && results[id].Sent?
  }

  function FailedIds(results: map<Id, Outcome>): set<Id> {
    set id | id in results && results[id].Failed?
  }

  // ------------------------------------------------- the table and the worker

  class OutboxTable {
    var rows: Table

    constructor ()
      ensures rows == map[]
    {
      rows := map[];
    }

    method Add(id: Id, nextAttempt: Time)
      requires id !in rows
      modifies this
      ensures rows == old(rows)[id := Event(Pending, 0, nextAttempt, None, None)]
    {
      rows := rows[id := Event(Pending, 0, nextAttempt, None, None)];
    }

    method Claim(limit: nat, now: Time, locked: set<Id>) returns (ids: seq<Id>)
      ensures IsClaim(rows, locked, now, limit, ids)
      ensures forall i :: 0 <= i < |ids| ==>
                && ids[i] in rows && ids[i] !in locked
                && rows[ids[i]].status == Pending && rows[ids[i]].nextAttempt <= now
      ensures forall i, j :: 0 <= i < j < |ids| ==>
                || rows[ids[i]].nextAttempt < rows[ids[j]].nextAttempt
                || (rows[ids[i]].nextAttempt == rows[ids[j]].nextAttempt && ids[i] < ids[j])
    {
      ids := [];
      var rest := Due(rows, locked, now);
      while rest != {} && |ids| < limit
        invariant |ids| <= limit
        invariant rest <= Due(rows, locked, now)
        invariant forall i :: 0 <= i < |ids| ==> ids[i] in Due(rows, locked, now) - rest
        invariant forall i, j :: 0 <= i < j < |ids| ==> Ahead(rows, ids[i], ids[j])
        invariant forall id :: id in Due(rows, locked, now) ==> id in rest || id in ids
        invariant forall id, i :: id in rest && 0 <= i < |ids| ==> Ahead(rows, ids[i], id)
        decreases |rest|
      {
        var first := FirstOf(rest);
        ids := ids + [first];
        rest := rest - {first};
      }
    }

    method FirstOf(ids: set<Id>) returns (first: Id)
      requires ids != {} && ids <= rows.Keys
      ensures first in ids && forall id :: id in ids && id != first ==> Ahead(rows, first, id)
    {
      first :| first in ids;
      var rest := ids - {first};
      while rest != {}
        invariant rest <= ids && first in ids
        invariant forall id :: id in ids && id !in rest && id != first ==> Ahead(rows, first, id)
        decreases |rest|
      {
        var id :| id in rest;
        if Ahead(rows, id, first) {
          first := id;
        }
        rest := rest - {id};
      }
    }

    method MarkPublished(ids: seq<Id>, now: Time) returns (affected: nat)
      modifies this
      ensures rows == PublishAll(old(rows), ids, now)
      ensures rows.Keys == old(rows).Keys
      ensures forall id :: id in rows && id !in ids ==> rows[id] == old(rows)[id]
      ensures forall id :: id in rows && id in ids ==>
                rows[id] == old(rows)[id].(status := Published, publishedAt := Some(now), lastError := None)
      ensures affected == |set id | id in ids && id in old(rows)|
    {
      var hit := set id | id in ids && id in rows;
      rows := PublishAll(rows, ids, now);
      affected := |hit|;
    }

    method MarkFailed(id: Id, error: string, nextAttempt: Time, dead: bool)
      modifies this
      ensures id !in old(rows) ==> rows == old(rows)
      ensures id in old(rows) ==>
                rows == old(rows)[id := old(rows)[id].(status := if dead then Dead else Pending,
                                                       attempts := old(rows)[id].attempts + 1,
                                                       nextAttempt := nextAttempt,
                                                       lastError := Some(Truncated(error)))]
      ensures id in rows ==> rows[id].lastError.Some? && IsCut(error, rows[id].lastError.value)
    {
      if id !in rows {
        return;
      }
      var e := rows[id];
      rows := rows[id := e.(status := if dead then Dead else Pending,
                            attempts := e.attempts + 1,
                            nextAttempt := nextAttempt,
                            lastError := Some(Truncated(error)))];
    }

    /** One whole drain with nobody else about. Every delivery may go either way and the
        jitter is any delay under the ceiling; `results` reports what happened. */
    method Drain(c: Settings, now: Time) returns (published: nat, claimed: seq<Id>, results: map<Id, Outcome>)
      modifies this
      ensures IsClaim(old(rows), {}, now, c.limit, claimed)
      ensures results.Keys == IdsOf(claimed) && DelaysOk(old(rows), results)
      ensures rows == Settle(c, old(rows), now, results)
      ensures rows.Keys == old(rows).Keys && forall id :: id in rows && id !in results ==> rows[id] == old(rows)[id]
      ensures forall id :: id in results ==> id in rows
      ensures forall id :: id in results && results[id].Sent? ==> IsDelivered(old(rows)[id], rows[id], now)
      ensures forall id :: id in results && results[id].Failed? ==>
                IsPutOff(c, old(rows)[id], rows[id], now, results[id].delay, results[id].error)
      ensures published == |SentIds(results)|
    {
      claimed := Claim(c.limit, now, {});
      results := map[];
      published := 0;
      SettleMeans(c, rows, now, results);
      if claimed == [] {
        return;
      }
      ClaimIsDistinct(rows, {}, now, c.limit, claimed);
      var succeeded;
      succeeded, results := DeliverAll(c, now, claimed);
      SettleTheSent(c, old(rows), now, results, succeeded);
      SettleMeans(c, old(rows), now, results);
      if succeeded != [] {
        published := MarkPublished(succeeded, now);
      } else {
        assert SentIds(results) == {};
      }
    }

    /** The loop over a batch. */
    method DeliverAll(c: Settings, now: Time, claimed: seq<Id>) returns (succeeded: seq<Id>, results: map<Id, Outcome>)
      requires IdsOf(claimed) <= rows.Keys && Distinct(claimed)
      modifies this
      ensures results.Keys == IdsOf(claimed) && DelaysOk(old(rows), results)
      ensures forall id :: id in succeeded <==> id in SentIds(results)
      ensures rows == Settle(c, old(rows), now, FailedOnly(results))
    {
      results, succeeded := map[], [];
      for i := 0 to |claimed|
        invariant results.Keys == IdsOf(claimed[..i]) && DelaysOk(old(rows), results)
        invariant forall id :: id in succeeded <==> id in SentIds(results)
        invariant rows == Settle(c, old(rows), now, FailedOnly(results))
      {
        var id := claimed[i];
        assert id in IdsOf(claimed) && id !in claimed[..i];
        assert IdsOf(claimed[..i + 1]) == IdsOf(claimed[..i]) + {id};
        var outcome := Attempt(c, now, id, old(rows), results);
        if outcome.Sent? {
          succeeded := succeeded + [id];
        }
        results := results[id := outcome];
      }
      assert claimed[..|claimed|] == claimed;
    }

    /** Deliver one claimed event; a failure is recorded at once, a success only at the end
        of the batch. */
    method Attempt(c: Settings, now: Time, id: Id, ghost before: Table, ghost results: map<Id, Outcome>)
      returns (outcome: Outcome)
      requires id in before && id !in results
      requires id in rows && rows == Settle(c, before, now, FailedOnly(results))
      modifies this
      ensures rows == Settle(c, before, now, FailedOnly(results[id := outcome]))
      ensures outcome.Failed? ==> outcome.delay <= BackoffCeiling(before[id].attempts)
      ensures rows.Keys == old(rows).Keys && forall x :: x in rows && x != id ==> rows[x] == old(rows)[x]
      ensures outcome.Sent? ==> rows[id] == old(rows)[id]
      ensures outcome.Failed? ==> IsPutOff(c, old(rows)[id], rows[id], now, outcome.delay, outcome.error)
    {
      var ok: bool := *;
      if ok {
        outcome := Sent;
        assert FailedOnly(results[id := outcome]) == FailedOnly(results);
      } else {
        var error: string := *;
        var attempts := rows[id].attempts;
        var delay: nat :| delay <= BackoffCeiling(attempts);
        outcome := Failed(delay, error);
        SettleOneMore(c, before, now, results, id, outcome);
        MarkFailed(id, error, now + delay, attempts + 1 >= c.maxAttempts);
      }
    }
  }

  ghost function FailedOnly(results: map<Id, Outcome>): map<Id, Outcome> {
    map id | id in results && results[id].Failed? :: results[id]
  }

  lemma SettleOneMore(c: Settings, t: Table, now: Time, results: map<Id, Outcome>, id: Id, failed: Outcome)
    requires id in t && id !in results && failed.Failed?
    ensures Settle(c, t, now, FailedOnly(results))[id] == t[id]
    ensures Settle(c, t, now, FailedOnly(results[id := failed]))
         == Settle(c, t, now, FailedOnly(results))[id := Settled(c, t[id], now, failed)]
  {
    assert FailedOnly(results[id := failed]) == FailedOnly(results)[id := failed];
  }

  lemma SettleTheSent(c: Settings, t: Table, now: Time, results: map<Id, Outcome>, succeeded: seq<Id>)
    requires results.Keys <= t.Keys
    requires forall id :: id in succeeded <==> id in SentIds(results)
    ensures Settle(c, t, now, results) == PublishAll(Settle(c, t, now, FailedOnly(results)), succeeded, now)
    ensures SentIds(results) == set id | id in succeeded && id in Settle(c, t, now, FailedOnly(results))
    ensures SentIds(results) == {} ==> results == FailedOnly(results)
  {
    var t1 := Settle(c, t, now, FailedOnly(results));
    forall id | id in t ensures Settle(c, t, now, results)[id] == PublishAll(t1, succeeded, now)[id] {
      assert id in succeeded <==> id in SentIds(results);
    }
    forall id | id in results && SentIds(results) == {} ensures id in FailedOnly(results) {
      assert id !in SentIds(results);
    }
  }

  // -------------------------------------------------------------- the relay

  /** A worker's open transaction: when it read the clock, which is before it claimed, the
      rows it holds locked and what it has done so far. Its writes are not visible to
      anyone before the commit. */
  datatype Drain = Drain(now: Time, claimed: seq<Id>, done: nat, results: map<Id, Outcome>)

  /** The committed table, the open drains, and three tallies of what was observed:
      every delivery made, the deliveries whose drain rolled back, and the failures
      that were committed. */
  datatype World = World(
    rows: Table,
    active: map<Worker, Drain>,
    clock: Time,
    delivered: multiset<Id>,
    lost: multiset<Id>,
    failures: multiset<Id>)

  datatype Step =
    | Add(id: Id, nextAttempt: Time)
    | Tick(to: Time)
    | Claim(w: Worker, now: Time, ids: seq<Id>)
    | Deliver(w: Worker, outcome: Outcome)
    | Commit(w: Worker)
    | Crash(w: Worker)

  const EMPTY := World(map[], map[], 0, multiset{}, multiset{}, multiset{})

  function Locked(s: World): set<Id> {
    set w, id | w in s.active && id in s.active[w].claimed :: id
  }

  ghost predicate Enabled(c: Settings, s: World, step: Step) {
    match step
    case Add(id, _) => id !in s.rows
    case Tick(to) => s.clock <= to
    case Claim(w, now, ids) =>
      w !in s.active && ids != [] && now <= s.clock && IsClaim(s.rows, Locked(s), now, c.limit, ids)
    case Deliver(w, outcome) =>
      && w in s.active && s.active[w].done < |s.active[w].claimed|
      && (var id := s.active[w].claimed[s.active[w].done];
          outcome.Failed? ==> id in s.rows && outcome.delay <= BackoffCeiling(s.rows[id].attempts))
    case Commit(w) => w in s.active && s.active[w].done == |s.active[w].claimed|
    case Crash(w) => w in s.active
  }

  function Apply(c: Settings, s: World, step: Step): World
    requires Enabled(c, s, step)
  {
    match step
    case Add(id, nextAttempt) => s.(rows := s.rows[id := Event(Pending, 0, nextAttempt, None, None)])
    case Tick(to) => s.(clock := to)
    case Claim(w, now, ids) => s.(active := s.active[w := Drain(now, ids, 0, map[])])
    case Deliver(w, outcome) =>
      var d := s.active[w];
      var id := d.claimed[d.done];
      s.(active := s.active[w := d.(done := d.done + 1, results := d.results[id := outcome])],
         delivered := if outcome.Sent? then s.delivered + multiset{id} else s.delivered)
    case Commit(w) =>
      var d := s.active[w];
      s.(rows := Settle(c, s.rows, d.now, d.results),
         active := s.active - {w},
         failures := s.failures + multiset(FailedIds(d.results)))
    case Crash(w) =>
      s.(active := s.active - {w}, lost := s.lost + multiset(SentIds(s.active[w].results)))
  }

  ghost predicate Valid(c: Settings, s: World, steps: seq<Step>)
    decreases |steps|
  {
    steps == [] || (Enabled(c, s, steps[0]) && Valid(c, Apply(c, s, steps[0]), steps[1..]))
  }

  ghost function Run(c: Settings, s: World, steps: seq<Step>): World
    requires Valid(c, s, steps)
    decreases |steps|
  {
    if steps == [] then s else Run(c, Apply(c, s, steps[0]), steps[1..])
  }

  // ----------------------------------------------------------------- safety

  ghost predicate RowOk(c: Settings, e: Event) {
    match e.status
    case Pending => e.attempts < c.maxAttempts && e.publishedAt.None?
    case Published => e.attempts < c.maxAttempts && e.publishedAt.Some?
    case Dead => e.attempts == c.maxAttempts && e.publishedAt.None?
  }

  ghost predicate DrainOk(s: World, d: Drain) {
    && d.claimed != [] && d.done <= |d.claimed|
    && d.now <= s.clock
    && Distinct(d.claimed)
    && (forall id :: id in d.claimed ==> IsPending(s.rows, id) && s.rows[id].nextAttempt <= d.now)
    && (forall id :: id in d.results <==> id in d.claimed[..d.done])
  }

  predicate Holds(s: World, w: Worker, id: Id) {
    w in s.active && id in s.active[w].claimed
  }

  /** Two open drains never hold the same event. */
  ghost predicate ClaimsDisjoint(s: World) {
    forall v, w, id ::
      v in s.active && w in s.active && id in s.active[v].claimed && id in s.active[w].claimed ==> v == w
  }

  ghost predicate InFlight(s: World, id: Id) {
    exists w :: w in s.active && id in SentIds(s.active[w].results)
  }

  /** Every delivery is accounted for: it was committed, or its drain rolled back, or the
      drain that made it is still open. */
  ghost predicate DeliveriesAccounted(s: World) {
    forall id :: Accounted(s, id)
  }

  ghost predicate Accounted(s: World, id: Id) {
    s.delivered[id] ==
      s.lost[id]
      + (if id in s.rows && s.rows[id].status == Published then 1 else 0)
      + (if InFlight(s, id) then 1 else 0)
  }

  ghost predicate FailuresCounted(s: World) {
    forall id :: s.failures[id] == if id in s.rows then s.rows[id].attempts else 0
  }

  ghost predicate Shape(c: Settings, s: World) {
    && (forall id :: id in s.rows ==> RowOk(c, s.rows[id]))
    && (forall w :: w in s.active ==> DrainOk(s, s.active[w]))
    && ClaimsDisjoint(s)
  }

  /** No open drain holds a failure put off beyond its ceiling. */
  ghost predicate DelaysKept(s: World) {
    forall w :: w in s.active ==> DelaysOk(s.rows, s.active[w].results)
  }

  ghost predicate Inv(c: Settings, s: World) {
    Shape(c, s) && DelaysKept(s) && DeliveriesAccounted(s) && FailuresCounted(s)
  }

  lemma ClaimKeepsShape(c: Settings, s: World, w: Worker, now: Time, ids: seq<Id>)
    requires Shape(c, s) && Enabled(c, s, Claim(w, now, ids))
    ensures Shape(c, Apply(c, s, Claim(w, now, ids)))
  {
    var s' := Apply(c, s, Claim(w, now, ids));
    forall i | 0 <= i < |ids| ensures ids[i] in Due(s.rows, Locked(s), now) {}
    forall id, v | v in s.active && id in s.active[v].claimed ensures id in Locked(s) {}
    assert DrainOk(s', s'.active[w]);
    forall v | v in s'.active ensures DrainOk(s', s'.active[v]) {}
  }

  lemma DeliverKeepsShape(c: Settings, s: World, w: Worker, outcome: Outcome)
    requires Shape(c, s) && Enabled(c, s, Deliver(w, outcome))
    ensures Shape(c, Apply(c, s, Deliver(w, outcome)))
  {
    var s' := Apply(c, s, Deliver(w, outcome));
    var d, d' := s.active[w], s'.active[w];
    assert d'.claimed[..d'.done] == d.claimed[..d.done] + [d.claimed[d.done]];
    assert DrainOk(s', d');
    forall v | v in s'.active ensures DrainOk(s', s'.active[v]) {
      assert v != w ==> s'.active[v] == s.active[v];
    }
    forall v | v in s'.active ensures s'.active[v].claimed == s.active[v].claimed {}
  }

  lemma CommitKeepsShape(c: Settings, s: World, w: Worker)
    requires Shape(c, s) && Enabled(c, s, Commit(w))
    ensures Shape(c, Apply(c, s, Commit(w)))
  {
    var s' := Apply(c, s, Commit(w));
    var d := s.active[w];
    assert d.claimed[..d.done] == d.claimed;
    forall id | id in s'.rows ensures RowOk(c, s'.rows[id]) {
      assert id in d.results ==> IsPending(s.rows, id);
    }
    forall v | v in s'.active ensures DrainOk(s', s'.active[v]) {
      assert DrainOk(s, s.active[v]);
      forall id | id in s.active[v].claimed ensures IsPending(s'.rows, id) {
        assert id !in d.claimed;
      }
    }
  }

  lemma StepKeepsShape(c: Settings, s: World, step: Step)
    requires Shape(c, s) && Enabled(c, s, step)
    ensures Shape(c, Apply(c, s, step))
  {
    match step
    case Deliver(w, outcome) => DeliverKeepsShape(c, s, w, outcome);
    case Claim(w, now, ids) => ClaimKeepsShape(c, s, w, now, ids);
    case Commit(w) => CommitKeepsShape(c, s, w);
    case Add(_, _) =>
    case Tick(_) =>
    case Crash(_) =>
  }

  /** `w` is the only worker that can have an event of its own batch in flight. */
  lemma HolderSends(c: Settings, s: World, w: Worker, id: Id)
    requires Shape(c, s)
    requires w in s.active && id in s.active[w].claimed
    ensures InFlight(s, id) <==> id in SentIds(s.active[w].results)
  {
    if InFlight(s, id) {
      var v :| v in s.active && id in SentIds(s.active[v].results);
      assert id in s.active[v].claimed;
    }
  }

  /** What is in flight for an event outside `w`'s batch does not depend on `w`. */
  lemma OthersSend(s: World, s': World, w: Worker, id: Id)
    requires w in s.active ==> id !in SentIds(s.active[w].results)
    requires w in s'.active ==> id !in SentIds(s'.active[w].results)
    requires s.active - {w} == s'.active - {w}
    ensures InFlight(s, id) == InFlight(s', id)
  {
    if InFlight(s, id) {
      var v :| v in s.active && id in SentIds(s.active[v].results);
      assert v in s.active - {w} && (s.active - {w})[v] == s.active[v];
      assert v in s'.active && s'.active[v] == s.active[v];
    }
    if InFlight(s', id) {
      var v :| v in s'.active && id in SentIds(s'.active[v].results);
      assert v in s'.active - {w} && (s'.active - {w})[v] == s'.active[v];
      assert v in s.active && s.active[v] == s'.active[v];
    }
  }

  lemma DeliverInFlight(c: Settings, s: World, w: Worker, outcome: Outcome, id: Id)
    requires Shape(c, s) && Enabled(c, s, Deliver(w, outcome))
    ensures var sent := s.active[w].claimed[s.active[w].done];
            && InFlight(Apply(c, s, Deliver(w, outcome)), id) == (InFlight(s, id) || (id == sent && outcome.Sent?))
            && (id == sent ==> !InFlight(s, id))
  {
    var s' := Apply(c, s, Deliver(w, outcome));
    var d := s.active[w];
    assert s'.active - {w} == s.active - {w};
    if id in d.claimed {
      DeliverKeepsShape(c, s, w, outcome);
      HolderSends(c, s, w, id);
      HolderSends(c, s', w, id);
    } else {
      OthersSend(s, s', w, id);
    }
  }

  lemma CommitInFlight(c: Settings, s: World, w: Worker, id: Id)
    requires Shape(c, s) && Enabled(c, s, Commit(w))
    ensures InFlight(Apply(c, s, Commit(w)), id) == (InFlight(s, id) && id !in s.active[w].results)
    ensures id in s.active[w].results ==> (InFlight(s, id) <==> s.active[w].results[id].Sent?)
  {
    var s' := Apply(c, s, Commit(w));
    var d := s.active[w];
    assert d.claimed[..d.done] == d.claimed;
    if id in d.claimed {
      HolderSends(c, s, w, id);
      forall v | v in s'.active ensures id !in SentIds(s'.active[v].results) {
        assert s.active[v] == s'.active[v] && DrainOk(s, s.active[v]);
      }
    } else {
      assert s'.active - {w} == s.active - {w};
      OthersSend(s, s', w, id);
    }
  }

  lemma CrashInFlight(c: Settings, s: World, w: Worker, id: Id)
    requires Shape(c, s) && Enabled(c, s, Crash(w))
    ensures var sent := SentIds(s.active[w].results);
            && InFlight(Apply(c, s, Crash(w)), id) == (InFlight(s, id) && id !in sent)
            && (id in sent ==> InFlight(s, id))
  {
    var s' := Apply(c, s, Crash(w));
    var d := s.active[w];
    if id in SentIds(d.results) {
      assert id in d.claimed;
      forall v | v in s'.active ensures id !in SentIds(s'.active[v].results) {
        assert s.active[v] == s'.active[v] && DrainOk(s, s.active[v]);
      }
    } else {
      assert s'.active - {w} == s.active - {w};
      OthersSend(s, s', w, id);
    }
  }

  lemma CommitKeepsTallies(c: Settings, s: World, w: Worker)
    requires Inv(c, s) && Enabled(c, s, Commit(w))
    ensures DeliveriesAccounted(Apply(c, s, Commit(w))) && FailuresCounted(Apply(c, s, Commit(w)))
  {
    var s' := Apply(c, s, Commit(w));
    var d := s.active[w];
    forall id | id in d.results ensures IsPending(s.rows, id) {
      assert id in d.claimed;
    }
    forall id ensures Accounted(s', id) {
      assert Accounted(s, id);
      CommitInFlight(c, s, w, id);
    }
  }

  lemma CommitKeepsDelays(c: Settings, s: World, w: Worker)
    requires Shape(c, s) && DelaysKept(s) && Enabled(c, s, Commit(w))
    ensures DelaysKept(Apply(c, s, Commit(w)))
  {
    var s' := Apply(c, s, Commit(w));
    forall v | v in s'.active ensures DelaysOk(s'.rows, s'.active[v].results) {
      assert DrainOk(s, s.active[v]) && DelaysOk(s.rows, s.active[v].results);
      forall id | id in s.active[v].results ensures id in s.rows && s'.rows[id] == s.rows[id] {
        assert id in s.active[v].claimed;
        assert id !in s.active[w].claimed;
      }
    }
  }

  lemma StepKeepsDelays(c: Settings, s: World, step: Step)
    requires Shape(c, s) && DelaysKept(s) && Enabled(c, s, step)
    ensures DelaysKept(Apply(c, s, step))
  {
    var s' := Apply(c, s, step);
    if step.Commit? {
      CommitKeepsDelays(c, s, step.w);
    } else {
      forall v | v in s'.active ensures DelaysOk(s'.rows, s'.active[v].results) {
        assert v in s.active ==> DelaysOk(s.rows, s.active[v].results);
      }
    }
  }

  lemma StepKeepsInv(c: Settings, s: World, step: Step)
    requires Inv(c, s) && Enabled(c, s, step)
    ensures Inv(c, Apply(c, s, step))
  {
    StepKeepsDelays(c, s, step);
    StepKeepsShape(c, s, step);
    StepKeepsTallies(c, s, step);
  }

  lemma StepKeepsTallies(c: Settings, s: World, step: Step)
    requires Inv(c, s) && Enabled(c, s, step)
    ensures DeliveriesAccounted(Apply(c, s, step)) && FailuresCounted(Apply(c, s, step))
  {
    match step
    case Deliver(w, outcome) => DeliverKeepsTallies(c, s, w, outcome);
    case Commit(w) => CommitKeepsTallies(c, s, w);
    case Crash(w) => CrashKeepsTallies(c, s, w);
    case Claim(w, now, ids) => ClaimKeepsTallies(c, s, w, now, ids);
    case Add(_, _) => QuietStepKeepsTallies(c, s, step);
    case Tick(_) => QuietStepKeepsTallies(c, s, step);
  }

  lemma DeliverKeepsTallies(c: Settings, s: World, w: Worker, outcome: Outcome)
    requires Inv(c, s) && Enabled(c, s, Deliver(w, outcome))
    ensures DeliveriesAccounted(Apply(c, s, Deliver(w, outcome))) && FailuresCounted(Apply(c, s, Deliver(w, outcome)))
  {
    forall id ensures Accounted(Apply(c, s, Deliver(w, outcome)), id) {
      assert Accounted(s, id);
      DeliverInFlight(c, s, w, outcome, id);
    }
  }

  lemma CrashKeepsTallies(c: Settings, s: World, w: Worker)
    requires Inv(c, s) && Enabled(c, s, Crash(w))
    ensures DeliveriesAccounted(Apply(c, s, Crash(w))) && FailuresCounted(Apply(c, s, Crash(w)))
  {
    forall id ensures Accounted(Apply(c, s, Crash(w)), id) {
      assert Accounted(s, id);
      CrashInFlight(c, s, w, id);
    }
  }

  lemma ClaimKeepsTallies(c: Settings, s: World, w: Worker, now: Time, ids: seq<Id>)
    requires Inv(c, s) && Enabled(c, s, Claim(w, now, ids))
    ensures DeliveriesAccounted(Apply(c, s, Claim(w, now, ids))) && FailuresCounted(Apply(c, s, Claim(w, now, ids)))
  {
    var s' := Apply(c, s, Claim(w, now, ids));
    assert s'.active - {w} == s.active - {w};
    forall id ensures Accounted(s', id) {
      assert Accounted(s, id);
      OthersSend(s, s', w, id);
    }
  }

  lemma QuietStepKeepsTallies(c: Settings, s: World, step: Step)
    requires Inv(c, s) && Enabled(c, s, step) && (step.Add? || step.Tick?)
    ensures DeliveriesAccounted(Apply(c, s, step)) && FailuresCounted(Apply(c, s, step))
  {
    var s' := Apply(c, s, step);
    forall id ensures Accounted(s', id) {
      assert Accounted(s, id);
      assert InFlight(s', id) == InFlight(s, id);
    }
  }

  /** Whatever the workers do and wherever they crash, the invariant holds throughout. */
  lemma {:induction false} RunKeepsInv(c: Settings, s: World, steps: seq<Step>)
    requires Inv(c, s) && Valid(c, s, steps)
    ensures Inv(c, Run(c, s, steps))
    decreases |steps|
  {
    if steps != [] {
      StepKeepsInv(c, s, steps[0]);
      RunKeepsInv(c, Apply(c, s, steps[0]), steps[1..]);
    }
  }

  /** The relay's promise in every reachable state, in the terms an operator would use:
      no event is held twice; `attempts` is the number of committed failures and reaches
      the maximum exactly on the dead; a published event was delivered; and an event is
      delivered at most once more than its drains rolled back. */
  lemma RelaySafety(c: Settings, steps: seq<Step>, id: Id)
    requires Valid(c, EMPTY, steps)
    ensures var s := Run(c, EMPTY, steps);
            && (forall v, w :: Holds(s, v, id) && Holds(s, w, id) ==> v == w)
            && s.delivered[id] <= 1 + s.lost[id]
            && (id in s.rows ==>
                  && s.rows[id].attempts == s.failures[id] <= c.maxAttempts
                  && (s.rows[id].status == Dead <==> s.failures[id] == c.maxAttempts)
                  && (s.rows[id].status == Published ==> s.delivered[id] >= 1))
  {
    assert Inv(c, EMPTY) by {
      forall x ensures Accounted(EMPTY, x) {
        assert !InFlight(EMPTY, x);
      }
    }
    RunKeepsInv(c, EMPTY, steps);
    var s := Run(c, EMPTY, steps);
    assert Accounted(s, id);
    assert InFlight(s, id) ==> IsPending(s.rows, id) by {
      forall w | w in s.active && id in SentIds(s.active[w].results) ensures IsPending(s.rows, id) {
        assert id in s.active[w].claimed;
      }
    }
    assert id in s.rows ==> RowOk(c, s.rows[id]);
  }

  lemma StepKeepsSettled(c: Settings, s: World, step: Step, id: Id)
    requires Shape(c, s) && Enabled(c, s, step)
    requires id in s.rows && s.rows[id].status != Pending
    ensures id in Apply(c, s, step).rows && Apply(c, s, step).rows[id] == s.rows[id]
  {
    if step.Commit? {
      var d := s.active[step.w];
      assert id in d.results ==> id in d.claimed;
    }
  }

  /** Published and dead are final: no run changes any column of such a row again. */
  lemma {:induction false} SettledIsFinal(c: Settings, s: World, steps: seq<Step>, id: Id)
    requires Inv(c, s) && Valid(c, s, steps)
    requires id in s.rows && s.rows[id].status != Pending
    ensures var s' := Run(c, s, steps); id in s'.rows && s'.rows[id] == s.rows[id]
    decreases |steps|
  {
    if steps != [] {
      var s1 := Apply(c, s, steps[0]);
      StepKeepsInv(c, s, steps[0]);
      StepKeepsSettled(c, s, steps[0], id);
      SettledIsFinal(c, s1, steps[1..], id);
    }
  }

  // ------------------------------------------------------- drains as steps

  /** The steps of an open drain from its `k`-th delivery on. */
  function RestOfDrain(w: Worker, ids: seq<Id>, k: nat, results: map<Id, Outcome>): seq<Step>
    requires k <= |ids| && forall id :: id in ids ==> id in results
    decreases |ids| - k
  {
    if k == |ids| then [Commit(w)] else [Deliver(w, results[ids[k]])] + RestOfDrain(w, ids, k + 1, results)
  }

  ghost predicate DeliversTo(c: Settings, s: World, w: Worker, steps: seq<Step>, rows: Table) {
    Valid(c, s, steps) && Run(c, s, steps).rows == rows && Run(c, s, steps).active == s.active - {w}
  }

  /** `results` says how every delivery of the open drain goes, or went. */
  ghost predicate Foretold(c: Settings, s: World, w: Worker, results: map<Id, Outcome>) {
    && w in s.active && DrainOk(s, s.active[w])
    && results.Keys == IdsOf(s.active[w].claimed)
    && (forall id :: id in s.active[w].results ==> s.active[w].results[id] == results[id])
    && DelaysOk(s.rows, results)
  }

  lemma DeliverOne(c: Settings, s: World, w: Worker, results: map<Id, Outcome>)
    requires Foretold(c, s, w, results) && s.active[w].done < |s.active[w].claimed|
    ensures var d := s.active[w];
            var step := Deliver(w, results[d.claimed[d.done]]);
            && Enabled(c, s, step)
            && var s1 := Apply(c, s, step);
            && s1.rows == s.rows && Foretold(c, s1, w, results) && s1.active - {w} == s.active - {w}
            && s1.active[w].now == d.now && s1.active[w].claimed == d.claimed && s1.active[w].done == d.done + 1
  {
    var d := s.active[w];
    var id := d.claimed[d.done];
    assert IsPending(s.rows, id);
    var s1 := Apply(c, s, Deliver(w, results[id]));
    OneMoreDone(s, s1, d, s1.active[w]);
  }

  lemma {:induction false} RestOfDrainRuns(c: Settings, s: World, w: Worker, results: map<Id, Outcome>)
    requires Foretold(c, s, w, results)
    ensures var d := s.active[w];
            DeliversTo(c, s, w, RestOfDrain(w, d.claimed, d.done, results), Settle(c, s.rows, d.now, results))
    decreases |s.active[w].claimed| - s.active[w].done
  {
    var d := s.active[w];
    if d.done == |d.claimed| {
      CommitAll(c, s, w, results);
    } else {
      var step := Deliver(w, results[d.claimed[d.done]]);
      DeliverOne(c, s, w, results);
      RestOfDrainRuns(c, Apply(c, s, step), w, results);
      DeliversOneMore(c, s, w, step, RestOfDrain(w, d.claimed, d.done + 1, results), Settle(c, s.rows, d.now, results));
    }
  }

  lemma DeliversOneMore(c: Settings, s: World, w: Worker, step: Step, rest: seq<Step>, rows: Table)
    requires Enabled(c, s, step) && Apply(c, s, step).active - {w} == s.active - {w}
    requires DeliversTo(c, Apply(c, s, step), w, rest, rows)
    ensures DeliversTo(c, s, w, [step] + rest, rows)
  {
    RunOneMore(c, s, step, rest);
  }

  lemma CommitAll(c: Settings, s: World, w: Worker, results: map<Id, Outcome>)
    requires Foretold(c, s, w, results) && s.active[w].done == |s.active[w].claimed|
    ensures DeliversTo(c, s, w, [Commit(w)], Settle(c, s.rows, s.active[w].now, results))
  {
    var d := s.active[w];
    assert d.claimed[..d.done] == d.claimed;
    assert d.results == results;
    RunOneMore(c, s, Commit(w), []);
    assert [Commit(w)] + [] == [Commit(w)];
  }

  lemma OneMoreDone(s: World, s1: World, d: Drain, d1: Drain)
    requires DrainOk(s, d) && d.done < |d.claimed| && s1.rows == s.rows && s1.clock == s.clock
    requires d1.now == d.now && d1.claimed == d.claimed && d1.done == d.done + 1
    requires d1.results.Keys == d.results.Keys + {d.claimed[d.done]}
    ensures DrainOk(s1, d1)
  {
    assert d1.claimed[..d1.done] == d.claimed[..d.done] + [d.claimed[d.done]];
  }

  lemma RunOneMore(c: Settings, s: World, step: Step, rest: seq<Step>)
    requires Enabled(c, s, step) && Valid(c, Apply(c, s, step), rest)
    ensures Valid(c, s, [step] + rest) && Run(c, s, [step] + rest) == Run(c, Apply(c, s, step), rest)
  {
    assert ([step] + rest)[1..] == rest;
  }

  function DrainSteps(w: Worker, now: Time, ids: seq<Id>, results: map<Id, Outcome>): seq<Step>
    requires forall id :: id in ids ==> id in results
  {
    [Claim(w, now, ids)] + RestOfDrain(w, ids, 0, results)
  }

  /** The whole-drain method agrees with the steps: claiming `ids`, delivering each and
      committing is a run, and it leaves the table `Settle` describes. */
  lemma DrainIsARun(c: Settings, s: World, w: Worker, now: Time, ids: seq<Id>, results: map<Id, Outcome>)
    requires Shape(c, s) && Enabled(c, s, Claim(w, now, ids))
    requires results.Keys == IdsOf(ids)
    requires DelaysOk(s.rows, results)
    ensures DeliversTo(c, s, w, DrainSteps(w, now, ids, results), Settle(c, s.rows, now, results))
  {
    ClaimKeepsShape(c, s, w, now, ids);
    var s1 := Apply(c, s, Claim(w, now, ids));
    assert s1.active[w] == Drain(now, ids, 0, map[]);
    assert DrainOk(s1, s1.active[w]);
    RestOfDrainRuns(c, s1, w, results);
    DeliversOneMore(c, s, w, Claim(w, now, ids), RestOfDrain(w, ids, 0, results), Settle(c, s.rows, now, results));
  }

  // ---------------------------------------------------------------- draining

  lemma SubsetSize<T>(a: set<T>, b: set<T>)
    requires a <= b
    ensures |a| <= |b|
    ensures |b - a| == |b| - |a|
  {
    assert b == a + (b - a);
  }

  /** The deliveries the pending events may still attempt. Its size is the sum of
      `maxAttempts - attempts` over the pending rows. */
  ghost function TriesLeft(c: Settings, t: Table): set<(Id, nat)> {
    set id, k: nat | id in t && k < c.maxAttempts && IsPending(t, id) && t[id].attempts <= k :: (id, k)
  }

  /** The tries that a drain holding `ids` is about to use up. */
  ghost function TriesHeld(t: Table, ids: seq<Id>): set<(Id, nat)>
    requires forall id :: id in ids ==> id in t
  {
    set id | id in ids :: (id, t[id].attempts)
  }

  lemma {:induction false} TriesHeldSize(t: Table, ids: seq<Id>)
    requires forall id :: id in ids ==> id in t
    requires Distinct(ids)
    ensures |TriesHeld(t, ids)| == |ids|
    decreases |ids|
  {
    if ids != [] {
      var n := |ids| - 1;
      TriesHeldSize(t, ids[..n]);
      assert forall id :: id in ids <==> id in ids[..n] || id == ids[n];
      assert TriesHeld(t, ids) == TriesHeld(t, ids[..n]) + {(ids[n], t[ids[n]].attempts)};
    }
  }

  /** A committed drain uses up at least one try for each event it held. */
  lemma CommitUsesTries(c: Settings, s: World, w: Worker)
    requires Inv(c, s) && Enabled(c, s, Commit(w))
    ensures |TriesLeft(c, Apply(c, s, Commit(w)).rows)| + |s.active[w].claimed| <= |TriesLeft(c, s.rows)|
  {
    var d := s.active[w];
    var s' := Apply(c, s, Commit(w));
    assert d.claimed[..d.done] == d.claimed;
    var held := TriesHeld(s.rows, d.claimed);
    TriesHeldSize(s.rows, d.claimed);
    assert held <= TriesLeft(c, s.rows);
    assert TriesLeft(c, s'.rows) <= TriesLeft(c, s.rows) - held;
    SubsetSize(held, TriesLeft(c, s.rows));
    SubsetSize(TriesLeft(c, s'.rows), TriesLeft(c, s.rows) - held);
  }

  function Commits(steps: seq<Step>): nat {
    if steps == [] then 0 else (if steps[0].Commit? then 1 else 0) + Commits(steps[1..])
  }

  ghost predicate NoneAdded(steps: seq<Step>) {
    forall i :: 0 <= i < |steps| ==> !steps[i].Add?
  }

  /** With no new events the committed drains, none of which is empty, are bounded by the
      tries left at the start; and no tries left means nothing is pending. */
  lemma {:induction false} DrainsAreBounded(c: Settings, s: World, steps: seq<Step>)
    requires Inv(c, s) && Valid(c, s, steps) && NoneAdded(steps)
    ensures |TriesLeft(c, Run(c, s, steps).rows)| + Commits(steps) <= |TriesLeft(c, s.rows)|
    decreases |steps|
  {
    if steps != [] {
      var s1 := Apply(c, s, steps[0]);
      StepKeepsInv(c, s, steps[0]);
      if steps[0].Commit? {
        CommitUsesTries(c, s, steps[0].w);
      }
      DrainsAreBounded(c, s1, steps[1..]);
    }
  }

  lemma NoTriesLeftMeansDrained(c: Settings, s: World)
    requires Inv(c, s)
    ensures TriesLeft(c, s.rows) == {} <==> forall id :: id in s.rows ==> s.rows[id].status in {Published, Dead}
  {
    forall id | IsPending(s.rows, id) ensures (id, s.rows[id].attempts) in TriesLeft(c, s.rows) {}
  }

  ghost predicate AllSettled(s: World) {
    forall id :: id in s.rows ==> s.rows[id].status in {Published, Dead}
  }

  lemma {:induction false} FirstExists(t: Table, ids: set<Id>) returns (first: Id)
    requires ids != {} && ids <= t.Keys
    ensures first in ids && forall id :: id in ids && id != first ==> Ahead(t, first, id)
  {
    var id :| id in ids;
    first := id;
    if ids != {id} {
      var other := FirstExists(t, ids - {id});
      first := if Ahead(t, other, id) then other else id;
      forall x | x in ids && x != first ensures Ahead(t, first, x) {
        assert x == id || x in ids - {id};
      }
    }
  }

  lemma {:induction false} ClaimExists(t: Table, locked: set<Id>, now: Time, limit: nat) returns (ids: seq<Id>)
    ensures IsClaim(t, locked, now, limit, ids)
    decreases limit
  {
    if limit == 0 || Due(t, locked, now) == {} {
      ids := [];
    } else {
      var first := FirstExists(t, Due(t, locked, now));
      var rest := ClaimExists(t, locked + {first}, now, limit - 1);
      assert Due(t, locked + {first}, now) == Due(t, locked, now) - {first};
      ids := [first] + rest;
      forall id | id in Due(t, locked, now) && id !in ids
        ensures |ids| == limit && forall i :: 0 <= i < |ids| ==> Ahead(t, ids[i], id)
      {
        assert id in Due(t, locked + {first}, now) && id !in rest;
      }
    }
  }

  /** After enough time, `w` can claim a batch. */
  ghost predicate CanClaim(c: Settings, s: World, w: Worker, to: Time, ids: seq<Id>) {
    Enabled(c, s, Tick(to)) && Enabled(c, Apply(c, s, Tick(to)), Claim(w, to, ids))
  }

  /** While anything is pending and no drain is open, some batch can be claimed. */
  lemma PendingCanBeClaimed(c: Settings, s: World, w: Worker, e: Id) returns (to: Time, ids: seq<Id>)
    requires s.active == map[] && IsPending(s.rows, e)
    ensures CanClaim(c, s, w, to, ids)
  {
    to := if s.clock < s.rows[e].nextAttempt then s.rows[e].nextAttempt else s.clock;
    ids := ClaimExists(s.rows, {}, to, c.limit);
    var s1 := Apply(c, s, Tick(to));
    assert Locked(s1) == {};
    assert e in Due(s.rows, {}, to);
  }

  lemma ClaimTakesPending(c: Settings, s: World, w: Worker, to: Time, ids: seq<Id>)
    requires CanClaim(c, s, w, to, ids)
    ensures ids != [] && IsPending(s.rows, ids[0])
  {
    assert ids[0] in Due(s.rows, Locked(Apply(c, s, Tick(to))), to);
  }

  /** A relay with no open drain has nothing left to do, ever, exactly when every event is
      published or dead. */
  lemma StuckExactlyWhenSettled(c: Settings, s: World)
    requires Inv(c, s) && s.active == map[]
    ensures (forall w, to, ids :: !CanClaim(c, s, w, to, ids)) <==> AllSettled(s)
  {
    if !AllSettled(s) {
      var e :| e in s.rows && s.rows[e].status !in {Published, Dead};
      var to, ids := PendingCanBeClaimed(c, s, 0, e);
    } else {
      forall w, to, ids ensures !CanClaim(c, s, w, to, ids) {
        if CanClaim(c, s, w, to, ids) {
          ClaimTakesPending(c, s, w, to, ids);
        }
      }
    }
  }

  /** Draining ends, and it ends with every event published or dead: so does any run without
      new events that commits as many drains as there were tries left, whatever fails or
      crashes in it. */
  lemma EnoughDrainsSettleAll(c: Settings, s: World, steps: seq<Step>)
    requires Inv(c, s) && Valid(c, s, steps) && NoneAdded(steps)
    requires Commits(steps) >= |TriesLeft(c, s.rows)|
    ensures AllSettled(Run(c, s, steps))
  {
    DrainsAreBounded(c, s, steps);
    RunKeepsInv(c, s, steps);
    NoTriesLeftMeansDrained(c, Run(c, s, steps));
  }

  lemma {:induction false} CommitsAppend(a: seq<Step>, b: seq<Step>)
    ensures Commits(a + b) == Commits(a) + Commits(b)
  {
    if a == [] {
      assert a + b == b;
    } else {
      assert (a + b)[1..] == a[1..] + b;
      CommitsAppend(a[1..], b);
    }
  }

  lemma {:induction false} ValidAppend(c: Settings, s: World, a: seq<Step>, b: seq<Step>)
    requires Valid(c, s, a) && Valid(c, Run(c, s, a), b)
    ensures Valid(c, s, a + b) && Run(c, s, a + b) == Run(c, Run(c, s, a), b)
    decreases |a|
  {
    if a == [] {
      assert a + b == b;
    } else {
      ValidAppend(c, Apply(c, s, a[0]), a[1..], b);
      assert (a + b)[1..] == a[1..] + b;
    }
  }

  /** What a committed drain of the relay leaves behind, row by row. In particular a failed
      event is not due again before the delay drawn for it, and that is at most its ceiling. */
  lemma CommitMeans(c: Settings, s: World, w: Worker)
    requires Inv(c, s) && Enabled(c, s, Commit(w))
    ensures var d, rows' := s.active[w], Apply(c, s, Commit(w)).rows;
            && d.results.Keys == IdsOf(d.claimed) <= s.rows.Keys && rows'.Keys == s.rows.Keys
            && (forall id :: id in s.rows && id !in d.results ==> rows'[id] == s.rows[id])
            && (forall id :: id in d.results && d.results[id].Sent? ==> IsDelivered(s.rows[id], rows'[id], d.now))
            && (forall id :: id in d.results && d.results[id].Failed? ==>
                  && IsPutOff(c, s.rows[id], rows'[id], d.now, d.results[id].delay, d.results[id].error)
                  && rows'[id].nextAttempt <= d.now + BackoffCeiling(s.rows[id].attempts))
  {
    var d := s.active[w];
    assert d.claimed[..d.done] == d.claimed;
    forall id | id in d.results ensures id in s.rows {
      assert id in d.claimed;
    }
    SettleMeans(c, s.rows, d.now, d.results);
  }

  /** One more tick and drain, in which every delivery fails: the slowest way to the end. */
  lemma OneMoreDrain(c: Settings, s: World, w: Worker, e: Id) returns (steps: seq<Step>)
    requires Inv(c, s) && s.active == map[] && IsPending(s.rows, e)
    ensures Valid(c, s, steps) && NoneAdded(steps) && Commits(steps) >= 1
    ensures Run(c, s, steps).active == map[]
  {
    var to, ids := PendingCanBeClaimed(c, s, w, e);
    var s1 := Apply(c, s, Tick(to));
    StepKeepsInv(c, s, Tick(to));
    var results := map id | id in IdsOf(ids) :: Failed(0, "");
    forall id | id in ids ensures id in s1.rows {
      var i :| 0 <= i < |ids| && ids[i] == id;
      assert ids[i] in Due(s1.rows, Locked(s1), to);
    }
    DrainIsARun(c, s1, w, to, ids, results);
    var drain := DrainSteps(w, to, ids, results);
    RunOneMore(c, s, Tick(to), drain);
    steps := [Tick(to)] + drain;
    StepsOfDrain(w, to, ids, results);
    forall i | 0 <= i < |steps| ensures !steps[i].Add? {
      assert i > 0 ==> DrainStep(w, to, ids, drain[i - 1]);
    }
    CommitsAppend([Tick(to)], drain);
  }

  /** A step of a drain of `ids` by `w`. */
  ghost predicate DrainStep(w: Worker, now: Time, ids: seq<Id>, step: Step) {
    match step
    case Claim(v, at, claimed) => v == w && at == now && claimed == ids
    case Deliver(v, _) => v == w
    case Commit(v) => v == w
    case _ => false
  }

  lemma {:induction false} RestOfDrainSteps(w: Worker, now: Time, ids: seq<Id>, k: nat, results: map<Id, Outcome>)
    requires k <= |ids| && forall id :: id in ids ==> id in results
    ensures var steps := RestOfDrain(w, ids, k, results);
            Commits(steps) == 1 && forall i :: 0 <= i < |steps| ==> DrainStep(w, now, ids, steps[i])
    decreases |ids| - k
  {
    if k < |ids| {
      RestOfDrainSteps(w, now, ids, k + 1, results);
      CommitsAppend([Deliver(w, results[ids[k]])], RestOfDrain(w, ids, k + 1, results));
    } else {
      assert [Commit(w)][1..] == [];
    }
  }

  lemma StepsOfDrain(w: Worker, now: Time, ids: seq<Id>, results: map<Id, Outcome>)
    requires forall id :: id in ids ==> id in results
    ensures var steps := DrainSteps(w, now, ids, results);
            Commits(steps) == 1 && forall i :: 0 <= i < |steps| ==> DrainStep(w, now, ids, steps[i])
  {
    RestOfDrainSteps(w, now, ids, 0, results);
    CommitsAppend([Claim(w, now, ids)], RestOfDrain(w, ids, 0, results));
  }

  /** From any state without open drains the relay can go on until all is settled. */
  lemma {:induction false} DrainsToTheEnd(c: Settings, s: World, w: Worker) returns (steps: seq<Step>)
    requires Inv(c, s) && s.active == map[]
    ensures Valid(c, s, steps) && NoneAdded(steps) && AllSettled(Run(c, s, steps))
    decreases |TriesLeft(c, s.rows)|
  {
    if AllSettled(s) {
      steps := [];
    } else {
      var e :| e in s.rows && s.rows[e].status !in {Published, Dead};
      var drain := OneMoreDrain(c, s, w, e);
      DrainsAreBounded(c, s, drain);
      RunKeepsInv(c, s, drain);
      var rest := DrainsToTheEnd(c, Run(c, s, drain), w);
      ValidAppend(c, s, drain, rest);
      steps := drain + rest;
    }
  }

  // --------------------------------------------------------- bounded waiting

  ghost function PendingAhead(t: Table, e: Id): set<Id>
    requires e in t
  {
    set id | id in t && IsPending(t, id) && Ahead(t, id, e)
  }

  /** Overdue at `since`, or just due then but with the lowest id of all that is pending. */
  ghost predicate Ranks(t: Table, e: Id, since: Time)
    requires e in t
  {
    t[e].nextAttempt < since || (t[e].nextAttempt == since && forall id :: IsPending(t, id) ==> e <= id)
  }

  /** New events have higher ids: ids sort in the order in which a process makes them. */
  predicate StagedAfter(steps: seq<Step>, e: Id) {
    forall i :: 0 <= i < |steps| && steps[i].Add? ==> e < steps[i].id
  }

  /** A pending event that ranks at `since`, and a lone worker that does not hold it. */
  ghost predicate Overdue(c: Settings, s: World, w: Worker, e: Id, since: Time) {
    && Inv(c, s)
    && IsPending(s.rows, e)
    && Ranks(s.rows, e, since) && since <= s.clock
    && s.active.Keys <= {w}
    && (w in s.active ==> e !in s.active[w].claimed)
  }

  /** Moreover the drain, if open, began after `since` and holds a full batch ahead of `e`. */
  ghost predicate Waiting(c: Settings, s: World, w: Worker, e: Id, since: Time) {
    && Overdue(c, s, w, e, since)
    && (w in s.active ==>
          var d := s.active[w];
          && since <= d.now
          && |d.claimed| == c.limit
          && forall id :: id in d.claimed ==> id in PendingAhead(s.rows, e))
  }

  /** New events are not scheduled in the past, and only `w` drains, reading the clock no
      earlier than `since`. */
  ghost predicate LoneStep(s: World, w: Worker, since: Time, step: Step) {
    match step
    case Add(_, nextAttempt) => s.clock <= nextAttempt
    case Tick(_) => true
    case Claim(v, now, _) => v == w && since <= now
    case _ => step.w == w
  }

  ghost predicate LoneRun(c: Settings, s: World, w: Worker, since: Time, steps: seq<Step>)
    requires Valid(c, s, steps)
    decreases |steps|
  {
    steps == [] || (LoneStep(s, w, since, steps[0]) && LoneRun(c, Apply(c, s, steps[0]), w, since, steps[1..]))
  }

  predicate Claims(steps: seq<Step>, e: Id) {
    exists i :: 0 <= i < |steps| && steps[i].Claim? && e in steps[i].ids
  }

  lemma AddKeepsOverdue(c: Settings, s: World, w: Worker, e: Id, since: Time, id: Id, nextAttempt: Time)
    requires Overdue(c, s, w, e, since) && Enabled(c, s, Add(id, nextAttempt)) && s.clock <= nextAttempt
    requires s.rows[e].nextAttempt < since || e < id
    ensures var s' := Apply(c, s, Add(id, nextAttempt));
            Overdue(c, s', w, e, since) && PendingAhead(s'.rows, e) == PendingAhead(s.rows, e)
  {
    StepKeepsInv(c, s, Add(id, nextAttempt));
    var s' := Apply(c, s, Add(id, nextAttempt));
    forall x | IsPending(s'.rows, x) && x != id ensures IsPending(s.rows, x) {}
    assert Ranks(s'.rows, e, since);
  }

  lemma CommitKeepsOverdue(c: Settings, s: World, w: Worker, e: Id, since: Time)
    requires Overdue(c, s, w, e, since) && Enabled(c, s, Commit(w))
    ensures Waiting(c, Apply(c, s, Commit(w)), w, e, since)
  {
    StepKeepsInv(c, s, Commit(w));
    var d, s' := s.active[w], Apply(c, s, Commit(w));
    assert e !in d.results;
    forall id | IsPending(s'.rows, id) ensures IsPending(s.rows, id) {
      assert id in d.results ==> id in d.claimed;
    }
  }

  /** A failure is rescheduled no earlier than the drain that saw it, so an event that was
      overdue then, or due with a lower id, stays ahead of it. */
  lemma SettlingShortensQueue(c: Settings, t: Table, now: Time, results: map<Id, Outcome>, e: Id)
    requires e in t && e !in results
    requires t[e].nextAttempt < now || (t[e].nextAttempt == now && forall id :: id in results ==> e < id)
    requires results.Keys <= PendingAhead(t, e)
    ensures |PendingAhead(Settle(c, t, now, results), e)| + |results.Keys| <= |PendingAhead(t, e)|
  {
    var t' := Settle(c, t, now, results);
    assert t'[e] == t[e];
    forall id | id in results ensures id !in PendingAhead(t', e) {
      assert t'[id] == Settled(c, t[id], now, results[id]);
    }
    assert PendingAhead(t', e) <= PendingAhead(t, e) - results.Keys;
    SubsetSize(results.Keys, PendingAhead(t, e));
    SubsetSize(PendingAhead(t', e), PendingAhead(t, e) - results.Keys);
  }

  lemma CommitShortensQueue(c: Settings, s: World, w: Worker, e: Id, since: Time)
    requires Waiting(c, s, w, e, since) && Enabled(c, s, Commit(w))
    ensures e in Apply(c, s, Commit(w)).rows
    ensures |PendingAhead(Apply(c, s, Commit(w)).rows, e)| + c.limit <= |PendingAhead(s.rows, e)|
  {
    var d := s.active[w];
    assert d.claimed[..d.done] == d.claimed;
    assert d.results.Keys == IdsOf(d.claimed);
    IdsOfSize(d.claimed);
    SettlingShortensQueue(c, s.rows, d.now, d.results, e);
  }

  /** Whatever an open drain holds, settling it puts no event ahead of `e`. */
  lemma CommitKeepsQueue(c: Settings, s: World, w: Worker, e: Id, since: Time)
    requires Overdue(c, s, w, e, since) && Enabled(c, s, Commit(w))
    ensures e in Apply(c, s, Commit(w)).rows
    ensures |PendingAhead(Apply(c, s, Commit(w)).rows, e)| <= |PendingAhead(s.rows, e)|
  {
    var d, s' := s.active[w], Apply(c, s, Commit(w));
    assert e !in d.results && s'.rows[e] == s.rows[e];
    forall id | id in PendingAhead(s'.rows, e) ensures id in PendingAhead(s.rows, e) {
      if id in d.results {
        assert id in d.claimed;
        assert s'.rows[id] == Settled(c, s.rows[id], d.now, d.results[id]);
      }
    }
    SubsetSize(PendingAhead(s'.rows, e), PendingAhead(s.rows, e));
  }

  lemma {:induction false} IdsOfSize(ids: seq<Id>)
    requires Distinct(ids)
    ensures |IdsOf(ids)| == |ids|
  {
    if ids != [] {
      var n := |ids| - 1;
      IdsOfSize(ids[..n]);
      assert ids == ids[..n] + [ids[n]];
      assert IdsOf(ids) == IdsOf(ids[..n]) + {ids[n]};
    }
  }

  lemma ClaimTakesThoseAhead(c: Settings, s: World, w: Worker, e: Id, since: Time, now: Time, ids: seq<Id>)
    requires Overdue(c, s, w, e, since) && Enabled(c, s, Claim(w, now, ids)) && since <= now && e !in ids
    ensures Waiting(c, Apply(c, s, Claim(w, now, ids)), w, e, since)
  {
    StepKeepsInv(c, s, Claim(w, now, ids));
    assert Locked(s) == {};
    assert e in Due(s.rows, Locked(s), now);
    forall id | id in ids ensures id in PendingAhead(s.rows, e) {
      var i :| 0 <= i < |ids| && ids[i] == id;
      assert ids[i] in Due(s.rows, Locked(s), now);
    }
  }

  lemma LoneStepKeepsWaiting(c: Settings, s: World, w: Worker, e: Id, since: Time, step: Step)
    requires Waiting(c, s, w, e, since) && Enabled(c, s, step) && LoneStep(s, w, since, step)
    requires step.Claim? ==> e !in step.ids
    requires s.rows[e].nextAttempt < since || (step.Add? ==> e < step.id)
    ensures var s' := Apply(c, s, step);
            && e in s'.rows && s'.rows[e].nextAttempt == s.rows[e].nextAttempt
            && Waiting(c, s', w, e, since)
            && |PendingAhead(s'.rows, e)| + (if step.Commit? then c.limit else 0) <= |PendingAhead(s.rows, e)|
  {
    var s' := Apply(c, s, step);
    match step
    case Claim(_, now, ids) => ClaimTakesThoseAhead(c, s, w, e, since, now, ids);
    case Commit(_) =>
      CommitKeepsOverdue(c, s, w, e, since);
      CommitShortensQueue(c, s, w, e, since);
    case Add(id, nextAttempt) => AddKeepsOverdue(c, s, w, e, since, id, nextAttempt);
    case Tick(_) => StepKeepsInv(c, s, step);
    case Deliver(_, _) => StepKeepsInv(c, s, step);
    case Crash(_) => StepKeepsInv(c, s, step);
  }

  /** The step that ends the drain open at the start leaves the worker waiting. */
  lemma LoneStepKeepsOverdue(c: Settings, s: World, w: Worker, e: Id, since: Time, step: Step)
    requires Overdue(c, s, w, e, since) && w in s.active && Enabled(c, s, step) && LoneStep(s, w, since, step)
    requires s.rows[e].nextAttempt < since || (step.Add? ==> e < step.id)
    ensures var s' := Apply(c, s, step);
            && e in s'.rows && s'.rows[e].nextAttempt == s.rows[e].nextAttempt
            && Overdue(c, s', w, e, since)
            && (step.Commit? || step.Crash? ==> Waiting(c, s', w, e, since))
            && (!step.Commit? && !step.Crash? ==> w in s'.active)
            && |PendingAhead(s'.rows, e)| <= |PendingAhead(s.rows, e)|
  {
    var s' := Apply(c, s, step);
    StepKeepsInv(c, s, step);
    match step
    case Commit(_) =>
      CommitKeepsOverdue(c, s, w, e, since);
      CommitKeepsQueue(c, s, w, e, since);
    case Add(id, nextAttempt) => AddKeepsOverdue(c, s, w, e, since, id, nextAttempt);
    case _ =>
  }

  lemma {:induction false} QueueShrinks(c: Settings, s: World, w: Worker, e: Id, since: Time, steps: seq<Step>)
    requires Waiting(c, s, w, e, since)
    requires Valid(c, s, steps) && LoneRun(c, s, w, since, steps)
    requires s.rows[e].nextAttempt < since || StagedAfter(steps, e)
    requires !Claims(steps, e)
    ensures Commits(steps) * c.limit <= |PendingAhead(s.rows, e)|
    decreases |steps|
  {
    if steps != [] {
      NotClaimedLater(steps, e);
      assert StagedAfter(steps, e) ==> (steps[0].Add? ==> e < steps[0].id) && StagedAfter(steps[1..], e);
      LoneStepKeepsWaiting(c, s, w, e, since, steps[0]);
      QueueShrinks(c, Apply(c, s, steps[0]), w, e, since, steps[1..]);
      assert (Commits(steps[1..]) + 1) * c.limit == Commits(steps[1..]) * c.limit + c.limit;
    }
  }

  lemma {:induction false} OpenDrainCostsOne(c: Settings, s: World, w: Worker, e: Id, since: Time, steps: seq<Step>)
    requires Overdue(c, s, w, e, since) && w in s.active
    requires Valid(c, s, steps) && LoneRun(c, s, w, since, steps)
    requires s.rows[e].nextAttempt < since || StagedAfter(steps, e)
    requires !Claims(steps, e)
    ensures Commits(steps) * c.limit <= |PendingAhead(s.rows, e)| + c.limit
    decreases |steps|
  {
    if steps != [] {
      NotClaimedLater(steps, e);
      assert StagedAfter(steps, e) ==> (steps[0].Add? ==> e < steps[0].id) && StagedAfter(steps[1..], e);
      LoneStepKeepsOverdue(c, s, w, e, since, steps[0]);
      var s1 := Apply(c, s, steps[0]);
      if steps[0].Commit? || steps[0].Crash? {
        QueueShrinks(c, s1, w, e, since, steps[1..]);
        assert (Commits(steps[1..]) + 1) * c.limit == Commits(steps[1..]) * c.limit + c.limit;
      } else {
        OpenDrainCostsOne(c, s1, w, e, since, steps[1..]);
      }
    }
  }

  lemma NotClaimedLater(steps: seq<Step>, e: Id)
    requires steps != [] && !Claims(steps, e)
    ensures !Claims(steps[1..], e) && (steps[0].Claim? ==> e !in steps[0].ids)
  {
    assert forall i :: 0 <= i < |steps[1..]| ==> steps[1..][i] == steps[i + 1];
  }

  /** Bounded waiting. An overdue event, or one just due with the lowest id, now and among
      those staged later, that has `r` pending events ahead of it is claimed before
      `r / limit + 1` drains begun since have committed, whatever crashes in between; a drain
      that was already open may commit before those. */
  lemma OverdueEventIsClaimed(c: Settings, s: World, w: Worker, e: Id, since: Time, steps: seq<Step>)
    requires Overdue(c, s, w, e, since)
    requires Valid(c, s, steps) && LoneRun(c, s, w, since, steps)
    requires s.rows[e].nextAttempt < since || StagedAfter(steps, e)
    requires Commits(steps) > |PendingAhead(s.rows, e)| / c.limit + (if w in s.active then 1 else 0)
    ensures Claims(steps, e)
  {
    var r := |PendingAhead(s.rows, e)|;
    if !Claims(steps, e) {
      if w in s.active {
        OpenDrainCostsOne(c, s, w, e, since, steps);
        MoreThanQuotient(Commits(steps) - 1, r, c.limit);
      } else {
        QueueShrinks(c, s, w, e, since, steps);
        MoreThanQuotient(Commits(steps), r, c.limit);
      }
    }
  }

  lemma MoreThanQuotient(n: nat, r: nat, limit: nat)
    requires limit >= 1 && n > r / limit
    ensures n * limit > r
    ensures (n + 1) * limit > r + limit
  {
    ProductOrder(r / limit + 1, n, limit);
  }

  lemma ProductOrder(a: nat, b: nat, size: nat)
    requires a <= b
    ensures a * size <= b * size
  {
  }

  // ------------------------------------------------------ due is not enough

  const NEW := Event(Pending, 0, 0, None, None)

  function FirstIds(n: nat): seq<Id> {
    seq(n, i => i)
  }

  function FirstRows(n: nat): (t: Table)
    ensures forall id: Id :: (id in t <==> id < n) && (id in t ==> t[id] == NEW)
  {
    if n == 0 then map[] else FirstRows(n - 1)[n - 1 := NEW]
  }

  function AllFail(ids: seq<Id>): map<Id, Outcome> {
    map id | id in ids :: Failed(0, "")
  }

  function FreshWorld(rows: Table): World {
    World(rows, map[], 0, multiset{}, multiset{}, multiset{})
  }

  lemma NewEventsInv(c: Settings, rows: Table)
    requires forall id :: id in rows ==> rows[id] == NEW
    ensures Inv(c, FreshWorld(rows))
  {
    forall x ensures Accounted(FreshWorld(rows), x) {
      assert !InFlight(FreshWorld(rows), x);
    }
  }

  /** Exactly the events up to number `limit` are there, and all are due at time zero. */
  ghost predicate AllDue(t: Table, limit: nat) {
    forall id: Id :: (id in t <==> id <= limit) && (id in t ==> t[id].status == Pending && t[id].nextAttempt == 0)
  }

  lemma BatchIsClaim(t: Table, limit: nat)
    requires AllDue(t, limit)
    ensures IsClaim(t, {}, 0, limit, FirstIds(limit))
    ensures PendingAhead(t, limit) == IdsOf(FirstIds(limit))
  {
    var ids := FirstIds(limit);
    forall id: Id | id < limit ensures id in ids {
      assert ids[id] == id;
    }
  }

  lemma BatchFails(c: Settings, t: Table)
    requires AllDue(t, c.limit) && forall id :: id in t ==> t[id].attempts + 1 < c.maxAttempts
    ensures AllDue(Settle(c, t, 0, AllFail(FirstIds(c.limit))), c.limit)
  {
  }

  lemma {:induction false} DrainStepsAreLone(
    c: Settings, s: World, w: Worker, now: Time, ids: seq<Id>, steps: seq<Step>)
    requires Valid(c, s, steps) && forall i :: 0 <= i < |steps| ==> DrainStep(w, now, ids, steps[i])
    ensures LoneRun(c, s, w, now, steps) && Run(c, s, steps).clock == s.clock
    ensures forall e :: e !in ids ==> !Claims(steps, e)
    decreases |steps|
  {
    forall i | 0 <= i < |steps| && steps[i].Claim? ensures steps[i].ids == ids {
      assert DrainStep(w, now, ids, steps[i]);
    }
    if steps != [] {
      assert DrainStep(w, now, ids, steps[0]);
      DrainStepsAreLone(c, Apply(c, s, steps[0]), w, now, ids, steps[1..]);
    }
  }

  /** A drain by worker 0 of the first `limit` events, all failing with no delay. */
  lemma FailingDrain(c: Settings, s: World) returns (steps: seq<Step>)
    requires Inv(c, s) && s.active == map[] && s.clock == 0 && AllDue(s.rows, c.limit)
    ensures Valid(c, s, steps) && LoneRun(c, s, 0, 0, steps) && Commits(steps) >= 1 && !Claims(steps, c.limit)
    ensures var s' := Run(c, s, steps);
            s'.active == map[] && s'.clock == 0 && s'.rows == Settle(c, s.rows, 0, AllFail(FirstIds(c.limit)))
  {
    var ids := FirstIds(c.limit);
    BatchIsClaim(s.rows, c.limit);
    assert Locked(s) == {};
    assert ids[0] == 0;
    DrainIsARun(c, s, 0, 0, ids, AllFail(ids));
    steps := DrainSteps(0, 0, ids, AllFail(ids));
    StepsOfDrain(0, 0, ids, AllFail(ids));
    DrainStepsAreLone(c, s, 0, 0, ids, steps);
  }

  lemma {:induction false} LoneAppend(c: Settings, s: World, w: Worker, since: Time, a: seq<Step>, b: seq<Step>)
    requires Valid(c, s, a) && LoneRun(c, s, w, since, a)
    requires Valid(c, Run(c, s, a), b) && LoneRun(c, Run(c, s, a), w, since, b)
    ensures Valid(c, s, a + b) && LoneRun(c, s, w, since, a + b)
    ensures Run(c, s, a + b) == Run(c, Run(c, s, a), b)
    decreases |a|
  {
    ValidAppend(c, s, a, b);
    if a == [] {
      assert a + b == b;
    } else {
      LoneAppend(c, Apply(c, s, a[0]), w, since, a[1..], b);
      assert (a + b)[1..] == a[1..] + b;
    }
  }

  /** A run in which a lone worker commits more drains than the waiting bound allows without
      claiming an event that was due at the start. */
  ghost predicate PassedOver(c: Settings, s: World, e: Id, steps: seq<Step>) {
    && Inv(c, s) && s.active == map[] && IsPending(s.rows, e) && s.rows[e].nextAttempt == s.clock
    && Valid(c, s, steps) && LoneRun(c, s, 0, s.clock, steps)
    && Commits(steps) > |PendingAhead(s.rows, e)| / c.limit
    && !Claims(steps, e)
  }

  lemma ThenFailingDrain(c: Settings, s: World, before: seq<Step>) returns (steps: seq<Step>)
    requires Inv(c, s) && Valid(c, s, before) && LoneRun(c, s, 0, 0, before) && !Claims(before, c.limit)
    requires var s1 := Run(c, s, before); s1.active == map[] && s1.clock == 0 && AllDue(s1.rows, c.limit)
    ensures Valid(c, s, steps) && LoneRun(c, s, 0, 0, steps) && !Claims(steps, c.limit)
    ensures Commits(steps) > Commits(before)
  {
    RunKeepsInv(c, s, before);
    var drain := FailingDrain(c, Run(c, s, before));
    steps := before + drain;
    LoneAppend(c, s, 0, 0, before, drain);
    CommitsAppend(before, drain);
  }

  lemma TwoFailingDrains(c: Settings, s: World) returns (steps: seq<Step>)
    requires Inv(c, s) && s.active == map[] && s.clock == 0 && AllDue(s.rows, c.limit)
    requires forall id :: id in s.rows ==> s.rows[id].attempts + 1 < c.maxAttempts
    ensures Valid(c, s, steps) && LoneRun(c, s, 0, 0, steps) && Commits(steps) >= 2 && !Claims(steps, c.limit)
  {
    var one := FailingDrain(c, s);
    BatchFails(c, s.rows);
    steps := ThenFailingDrain(c, s, one);
  }

  lemma BatchAhead(c: Settings, t: Table)
    requires AllDue(t, c.limit)
    ensures IsPending(t, c.limit) && |PendingAhead(t, c.limit)| / c.limit == 1
  {
    BatchIsClaim(t, c.limit);
    IdsOfSize(FirstIds(c.limit));
  }

  /** Overdue cannot be weakened to due when lower ids are pending. Under any settings that
      retry at all, an event due at this very instant can be passed by a whole batch of them
      that fails with zero delays at the same clock reading and is claimed again. */
  lemma DueNowCanBePassed(c: Settings) returns (s: World, e: Id, steps: seq<Step>)
    requires c.maxAttempts >= 2
    ensures PassedOver(c, s, e, steps)
  {
    e, s := c.limit, FreshWorld(FirstRows(c.limit + 1));
    NewEventsInv(c, s.rows);
    steps := TwoFailingDrains(c, s);
    BatchAhead(c, s.rows);
  }

  /** Staging `n` events, numbered from `first` on, at time zero. */
  function Adds(first: nat, n: nat): seq<Step>
    decreases n
  {
    if n == 0 then [] else [Add(first, 0)] + Adds(first + 1, n - 1)
  }

  lemma {:induction false} AddsClaimNothing(first: nat, n: nat, e: Id)
    ensures !Claims(Adds(first, n), e)
    decreases n
  {
    if n > 0 {
      AddsClaimNothing(first + 1, n - 1, e);
      assert !Claims([Add(first, 0)], e);
      ClaimsAppend([Add(first, 0)], Adds(first + 1, n - 1), e);
    }
  }

  ghost predicate RunsTo(c: Settings, s: World, steps: seq<Step>, s': World) {
    Valid(c, s, steps) && LoneRun(c, s, 0, 0, steps) && Run(c, s, steps) == s'
  }

  lemma AddOneMore(c: Settings, rows: Table, id: Id, rest: seq<Step>, s': World)
    requires id !in rows && RunsTo(c, FreshWorld(rows[id := NEW]), rest, s')
    ensures RunsTo(c, FreshWorld(rows), [Add(id, 0)] + rest, s')
  {
    assert Apply(c, FreshWorld(rows), Add(id, 0)) == FreshWorld(rows[id := NEW]);
    LoneOneMore(c, FreshWorld(rows), 0, 0, Add(id, 0), rest);
  }

  ghost predicate WithAdded(t: Table, t': Table, first: nat, n: nat) {
    forall id: Id :: (id in t' <==> id in t || first <= id < first + n) && (id in t' ==> t'[id] == NEW)
  }

  lemma {:induction false} AddsRun(c: Settings, rows: Table, first: nat, n: nat) returns (t: Table)
    requires forall id :: id in rows ==> (id < first || first + n <= id) && rows[id] == NEW
    ensures RunsTo(c, FreshWorld(rows), Adds(first, n), FreshWorld(t)) && WithAdded(rows, t, first, n)
    decreases n
  {
    if n == 0 {
      t := rows;
    } else {
      t := AddsRun(c, rows[first := NEW], first + 1, n - 1);
      AddOneMore(c, rows, first, Adds(first + 1, n - 1), FreshWorld(t));
    }
  }

  lemma LoneOneMore(c: Settings, s: World, w: Worker, since: Time, step: Step, rest: seq<Step>)
    requires Enabled(c, s, step) && LoneStep(s, w, since, step)
    requires Valid(c, Apply(c, s, step), rest) && LoneRun(c, Apply(c, s, step), w, since, rest)
    ensures Valid(c, s, [step] + rest) && LoneRun(c, s, w, since, [step] + rest)
    ensures Run(c, s, [step] + rest) == Run(c, Apply(c, s, step), rest)
  {
    assert ([step] + rest)[1..] == rest;
  }

  lemma ClaimsAppend(a: seq<Step>, b: seq<Step>, e: Id)
    requires !Claims(a, e) && !Claims(b, e)
    ensures !Claims(a + b, e)
  {
  }

  lemma NewcomersDrained(c: Settings, s: World) returns (steps: seq<Step>)
    requires s == FreshWorld(map[c.limit := NEW])
    ensures Valid(c, s, steps) && LoneRun(c, s, 0, 0, steps) && Commits(steps) > 0 && !Claims(steps, c.limit)
  {
    NewEventsInv(c, s.rows);
    var rows := AddsRun(c, s.rows, 0, c.limit);
    AddsClaimNothing(0, c.limit, c.limit);
    steps := ThenFailingDrain(c, s, Adds(0, c.limit));
  }

  /** Under any settings at all it can be passed by events staged at that instant with lower
      ids, which takes another process. */
  lemma DueNowCanBePassedByNewcomers(c: Settings) returns (s: World, e: Id, steps: seq<Step>)
    ensures PassedOver(c, s, e, steps)
  {
    e := c.limit;
    s := FreshWorld(map[e := NEW]);
    NewEventsInv(c, s.rows);
    steps := NewcomersDrained(c, s);
    assert PendingAhead(s.rows, e) == {};
  }
}
