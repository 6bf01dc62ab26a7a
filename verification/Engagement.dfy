/** The engagement log, its recent-views projection, and the merge of an anonymous actor
    into an account.

    Actor and event ids are fixed-length and hold no colon. `writtenBy` is the user an
    event was inserted with; it is not a column, and no query reads it. */
module Engagement {
  import opened Wrappers

  type Time = int
  type UserId = nat
  type BlogId = nat

  type Uuid = s: string | |s| == 36 && ':' !in s witness "00000000-0000-0000-0000-000000000000"

  datatype Kind = Impression | Click | Dwell | Complete | Save | Share | Comment | SearchImpression

  predicate IsView(kind: Kind) {
    kind in {Click, Dwell, Complete}
  }

  datatype Event = Event(
    id: Uuid,
    at: Time,
    actor: Uuid,
    writtenBy: Option<UserId>,
    user: Option<UserId>,
    blog: Option<BlogId>,
    kind: Kind,
    dedupeKey: string)

  datatype View = View(user: Option<UserId>, first: Time, last: Time, count: nat)

  type Views = map<(Uuid, BlogId), View>

  /** A staged `AnonymousActorMerged`. */
  datatype Merge = Merge(actor: Uuid, user: UserId, events: nat)

  datatype Tables = Tables(
    claims: set<string>,
    events: seq<Event>,
    views: Views,
    actors: map<Uuid, Option<UserId>>,
    merges: seq<Merge>)

  datatype Command = Command(actor: Uuid, user: Option<UserId>, blog: Option<BlogId>, kind: Kind, clientKey: string)

  // ------------------------------------------------------------ dedupe keys

  function DedupeKey(actor: Uuid, clientKey: string, eventId: Uuid): string {
    if clientKey != "" then actor + ":" + clientKey else eventId
  }

  /** Keys coincide only for the same actor and client key, or for the same defaulted id:
      no client can suppress another's event or a keyless one. */
  lemma KeysCoincideOnlyForSameClient(a: Uuid, k: string, i: Uuid, b: Uuid, l: string, j: Uuid)
    ensures DedupeKey(a, k, i) == DedupeKey(b, l, j) <==> (k == l && if k == "" then i == j else a == b)
  {
    var x, y := DedupeKey(a, k, i), DedupeKey(b, l, j);
    assert k != "" ==> x[36] == ':' && x[..36] == a && x[37..] == k;
    assert l != "" ==> y[36] == ':' && y[..36] == b && y[37..] == l;
  }

  // ------------------------------------------------------------- statements

  function NewEvent(c: Command, id: Uuid, now: Time): Event {
    Event(id, now, c.actor, c.user, c.user, c.blog, c.kind, DedupeKey(c.actor, c.clientKey, id))
  }

  function RecordView(views: Views, actor: Uuid, user: Option<UserId>, blog: BlogId, now: Time): Views {
    var key := (actor, blog);
    if key in views
    then
      var v := views[key];
      views[key := v.(last := now, count := v.count + 1, user := if user.Some? then user else v.user)]
    else views[key := View(user, now, now, 1)]
  }

  datatype Answer = Recorded | Duplicate | Refused

  predicate Projected(c: Command) {
    c.blog.Some? && IsView(c.kind)
  }

  /** What recording commits, and its answer. The log takes an event on any article, known or
      not; the projection refers to the articles, so a view of an unknown one fails after
      the key was claimed and the event appended, and both are undone. */
  function Record(t: Tables, c: Command, id: Uuid, now: Time, blogKnown: bool): (Tables, Answer) {
    var key := DedupeKey(c.actor, c.clientKey, id);
    if key in t.claims then (t, Duplicate)
    else if Projected(c) && !blogKnown then (t, Refused)
    else
      (t.(claims := t.claims + {key},
          events := t.events + [NewEvent(c, id, now)],
          views := if Projected(c) then RecordView(t.views, c.actor, c.user, c.blog.value, now) else t.views),
       Recorded)
  }

  function AttributeEvent(e: Event, actor: Uuid, user: UserId): Event {
    if e.actor == actor && e.user.None? then e.(user := Some(user)) else e
  }

  function AttributeEvents(events: seq<Event>, actor: Uuid, user: UserId): seq<Event> {
    seq(|events|, i requires 0 <= i < |events| => AttributeEvent(events[i], actor, user))
  }

  function AttributeViews(views: Views, actor: Uuid, user: UserId): Views {
    map key | key in views ::
      if key.0 == actor && views[key].user.None? then views[key].(user := Some(user)) else views[key]
  }

  function Unattributed(events: seq<Event>, actor: Uuid): set<int> {
    set i | 0 <= i < |events| && events[i].actor == actor && events[i].user.None?
  }

  lemma OneMoreRow(events: seq<Event>, i: nat, actor: Uuid, user: UserId)
    requires i < |events|
    ensures AttributeEvents(events[..i + 1], actor, user)
         == AttributeEvents(events[..i], actor, user) + [AttributeEvent(events[i], actor, user)]
    ensures |Unattributed(events[..i + 1], actor)|
         == |Unattributed(events[..i], actor)| + if events[i].actor == actor && events[i].user.None? then 1 else 0
  {
    var before := Unattributed(events[..i], actor);
    assert events[..i + 1] == events[..i] + [events[i]];
    assert Unattributed(events[..i + 1], actor)
        == before + (if events[i].actor == actor && events[i].user.None? then {i as int} else {});
  }

  /** The merge inside a sign-in; nothing happens for an unknown or already merged actor. */
  function MergeActor(t: Tables, actor: Uuid, user: UserId): Tables {
    if actor !in t.actors || t.actors[actor].Some? then t
    else
      var merged := |Unattributed(t.events, actor)|;
      t.(events := AttributeEvents(t.events, actor, user),
         views := AttributeViews(t.views, actor, user),
         actors := t.actors[actor := Some(user)],
         merges := if merged > 0 then t.merges + [Merge(actor, user, merged)] else t.merges)
  }

  /** What recording commits, in the terms of a caller: the event as it was sent, owned by who
      sent it, and for a view of an article one more view, by the sender if there is one and
      else by whoever owned the row before. */
  lemma RecordMeans(t: Tables, c: Command, id: Uuid, now: Time, blogKnown: bool)
    ensures var (t', answer) := Record(t, c, id, now, blogKnown);
            var key := if c.clientKey != "" then c.actor + ":" + c.clientKey else id;
            var viewed := c.blog.Some? && c.kind in {Click, Dwell, Complete};
            && (answer == Duplicate <==> key in t.claims)
            && (answer == Refused <==> key !in t.claims && viewed && !blogKnown)
            && (answer != Recorded ==> t' == t)
            && (answer == Recorded ==>
                  && t'.claims == t.claims + {key} && t'.actors == t.actors && t'.merges == t.merges
                  && t'.events == t.events + [Event(id, now, c.actor, c.user, c.user, c.blog, c.kind, key)]
                  && (!viewed ==> t'.views == t.views)
                  && (viewed ==>
                        var row := (c.actor, c.blog.value);
                        && t'.views.Keys == t.views.Keys + {row}
                        && (forall other :: other in t.views && other != row ==> t'.views[other] == t.views[other])
                        && t'.views[row] ==
                           if row !in t.views then View(c.user, now, now, 1)
                           else View(if c.user.Some? then c.user else t.views[row].user,
                                     t.views[row].first, now, t.views[row].count + 1)))
  {
  }

  /** What the merge of a met, unmerged actor commits: the actor has the account, every event
      and view of it without an owner belongs to the account, every other row is as before,
      and the number of events that had none is staged, if there were any. */
  lemma MergeMeans(t: Tables, actor: Uuid, user: UserId)
    ensures var t' := MergeActor(t, actor, user);
            var n := |set i | 0 <= i < |t.events| && t.events[i].actor == actor && t.events[i].user.None?|;
            && (actor !in t.actors || t.actors[actor].Some? ==> t' == t)
            && (actor in t.actors && t.actors[actor].None? ==>
                  && t'.claims == t.claims && t'.actors == t.actors[actor := Some(user)]
                  && |t'.events| == |t.events|
                  && (forall i :: 0 <= i < |t.events| ==>
                        t'.events[i] == if t.events[i].actor == actor && t.events[i].user.None?
                                        then t.events[i].(user := Some(user)) else t.events[i])
                  && t'.views.Keys == t.views.Keys
                  && (forall row :: row in t.views ==>
                        t'.views[row] == if row.0 == actor && t.views[row].user.None?
                                         then t.views[row].(user := Some(user)) else t.views[row])
                  && t'.merges == if n > 0 then t.merges + [Merge(actor, user, n)] else t.merges)
  {
    assert Unattributed(t.events, actor)
        == set i | 0 <= i < |t.events| && t.events[i].actor == actor && t.events[i].user.None?;
  }

  class EngagementLog {
    var claims: set<string>
    var events: seq<Event>
    var views: Views
    var actors: map<Uuid, Option<UserId>>
    var merges: seq<Merge>

    function Contents(): Tables
      reads this
    {
      Tables(claims, events, views, actors, merges)
    }

    constructor ()
      ensures Contents() == EMPTY
    {
      claims, events, views, actors, merges := {}, [], map[], map[], [];
    }

    /** Claims the key first; only the winner goes on to insert. */
    method Append(e: Event) returns (appended: bool)
      modifies this`claims, this`events
      ensures appended <==> e.dedupeKey !in old(claims)
      ensures claims == old(claims) + {e.dedupeKey}
      ensures events == if appended then old(events) + [e] else old(events)
    {
      if e.dedupeKey in claims {
        assert claims == claims + {e.dedupeKey};
        return false;
      }
      claims := claims + {e.dedupeKey};
      events := events + [e];
      appended := true;
    }

    method RecordEvent(c: Command, id: Uuid, now: Time, blogKnown: bool) returns (answer: Answer)
      modifies this
      ensures (Contents(), answer) == Record(old(Contents()), c, id, now, blogKnown)
      ensures answer != Recorded ==> Contents() == old(Contents())
      ensures answer == Recorded ==>
                events == old(events) + [Event(id, now, c.actor, c.user, c.user, c.blog, c.kind,
                                               if c.clientKey != "" then c.actor + ":" + c.clientKey else id)]
      ensures answer == Recorded && c.blog.Some? && c.kind in {Click, Dwell, Complete} ==>
                var row := (c.actor, c.blog.value);
                && row in views && views[row].last == now
                && views[row].count == 1 + (if row in old(views) then old(views)[row].count else 0)
                && (c.user.Some? ==> views[row].user == c.user)
    {
      RecordMeans(Contents(), c, id, now, blogKnown);
      var claimsBefore, eventsBefore := claims, events;
      var appended := Append(NewEvent(c, id, now));
      if !appended {
        assert claims == claimsBefore;
        return Duplicate;
      }
      if Projected(c) {
        if !blogKnown {
          claims, events := claimsBefore, eventsBefore;
          return Refused;
        }
        views := RecordView(views, c.actor, c.user, c.blog.value, now);
      }
      answer := Recorded;
    }

    /** The UPDATE over the log, row by row. */
    method AttributeToUser(actor: Uuid, user: UserId) returns (affected: nat)
      modifies this`events
      ensures events == AttributeEvents(old(events), actor, user)
      ensures |events| == |old(events)|
      ensures forall i :: 0 <= i < |events| ==>
                events[i] == if old(events)[i].actor == actor && old(events)[i].user.None?
                             then old(events)[i].(user := Some(user)) else old(events)[i]
      ensures affected == |Unattributed(old(events), actor)|
    {
      affected := 0;
      var updated := [];
      assert Unattributed(events[..0], actor) == {};
      for i := 0 to |events|
        invariant events == old(events)
        invariant updated == AttributeEvents(events[..i], actor, user)
        invariant affected == |Unattributed(events[..i], actor)|
      {
        OneMoreRow(events, i, actor, user);
        if events[i].actor == actor && events[i].user.None? {
          affected := affected + 1;
        }
        updated := updated + [AttributeEvent(events[i], actor, user)];
      }
      assert events[..|events|] == events;
      events := updated;
    }

    method MergeOnSignIn(actor: Uuid, user: UserId) returns (merged: nat)
      modifies this
      ensures Contents() == MergeActor(old(Contents()), actor, user)
      ensures merged ==
              if actor in old(actors) && old(actors)[actor].None? then |Unattributed(old(events), actor)| else 0
      ensures actor in old(actors) && old(actors)[actor].None? ==>
                && actors == old(actors)[actor := Some(user)]
                && (forall i :: 0 <= i < |events| && events[i].actor == actor ==> events[i].user.Some?)
                && (forall row :: row in views && row.0 == actor ==> views[row].user.Some?)
                && |events| == |old(events)| && views.Keys == old(views).Keys
                && (forall i :: 0 <= i < |events| ==>
                      events[i] == if old(events)[i].actor == actor && old(events)[i].user.None?
                                   then old(events)[i].(user := Some(user)) else old(events)[i])
                && (forall row :: row in views ==>
                      views[row] == if row.0 == actor && old(views)[row].user.None?
                                    then old(views)[row].(user := Some(user)) else old(views)[row])
                && merges == if merged > 0 then old(merges) + [Merge(actor, user, merged)] else old(merges)
    {
      if actor !in actors || actors[actor].Some? {
        return 0;
      }
      merged := AttributeToUser(actor, user);
      views := AttributeViews(views, actor, user);
      actors := actors[actor := Some(user)];
      if merged > 0 {
        merges := merges + [Merge(actor, user, merged)];
      }
    }
  }

  // ------------------------------------------------------------------- runs

  const EMPTY := Tables({}, [], map[], map[], [])

  /** `commits` tells whether the sign-in around the merge went through. */
  datatype Step =
    | Meet(actor: Uuid)
    | Write(c: Command, id: Uuid, now: Time, blogKnown: bool)
    | SignIn(actor: Uuid, user: UserId, commits: bool)
    | RefreshActor(actor: Uuid, user: UserId)

  predicate Enabled(t: Tables, step: Step) {
    match step
    case Meet(actor) => actor !in t.actors
    case Write(c, id, _, _) => forall i :: 0 <= i < |t.events| ==> t.events[i].id != id
    case SignIn(_, _, _) => true
    case RefreshActor(actor, _) => actor !in t.actors && forall i :: 0 <= i < |t.events| ==> t.events[i].actor != actor
  }

  function Apply(t: Tables, step: Step): Tables {
    match step
    case Meet(actor) => t.(actors := t.actors[actor := None])
    case Write(c, id, now, blogKnown) => Record(t, c, id, now, blogKnown).0
    case SignIn(actor, user, commits) => if commits then MergeActor(t, actor, user) else t
    case RefreshActor(actor, user) => t.(actors := t.actors[actor := Some(user)])
  }

  ghost predicate Valid(t: Tables, steps: seq<Step>)
    decreases |steps|
  {
    steps == [] || (Enabled(t, steps[0]) && Valid(Apply(t, steps[0]), steps[1..]))
  }

  function Run(t: Tables, steps: seq<Step>): Tables
    decreases |steps|
  {
    if steps == [] then t else Run(Apply(t, steps[0]), steps[1..])
  }

  /** After the sign-in of a met actor commits, the actor has an account, whoever's it was
      first, and if it was merged just now nothing of its history is without an owner. */
  lemma SignInClaimsHistory(t: Tables, actor: Uuid, user: UserId)
    requires actor in t.actors
    ensures var t' := Apply(t, SignIn(actor, user, true));
            && actor in t'.actors && t'.actors[actor] == (if t.actors[actor].Some? then t.actors[actor] else Some(user))
            && (t.actors[actor].None? ==>
                  && (forall i :: 0 <= i < |t'.events| && t'.events[i].actor == actor ==> t'.events[i].user.Some?)
                  && (forall row :: row in t'.views && row.0 == actor ==> t'.views[row].user.Some?))
  {
    MergeMeans(t, actor, user);
  }

  // ----------------------------------------------------------- exactly once

  ghost predicate KeysAgree(t: Tables) {
    && (forall i :: 0 <= i < |t.events| ==> t.events[i].dedupeKey in t.claims)
    && (forall k :: k in t.claims ==> HasRow(t.events, k))
    && (forall i, j :: 0 <= i < j < |t.events| ==> t.events[i].dedupeKey != t.events[j].dedupeKey)
    && (forall i :: 0 <= i < |t.events| ==> KeyFits(t.events[i]))
  }

  ghost predicate HasRow(events: seq<Event>, key: string) {
    exists i :: 0 <= i < |events| && events[i].dedupeKey == key
  }

  /** The key was made from the event's own actor and id. */
  ghost predicate KeyFits(e: Event) {
    exists k :: e.dedupeKey == DedupeKey(e.actor, k, e.id)
  }

  lemma WriteKeepsKeys(t: Tables, c: Command, id: Uuid, now: Time, blogKnown: bool)
    requires KeysAgree(t)
    ensures KeysAgree(Record(t, c, id, now, blogKnown).0)
  {
    var (t', answer) := Record(t, c, id, now, blogKnown);
    if answer == Recorded {
      var n := |t.events|;
      assert t'.events[n] == NewEvent(c, id, now) && KeyFits(t'.events[n]);
      forall i | 0 <= i < n ensures t'.events[i] == t.events[i] {}
      forall k | k in t'.claims ensures HasRow(t'.events, k) {
        if k in t.claims {
          var i :| 0 <= i < n && t.events[i].dedupeKey == k;
          assert t'.events[i].dedupeKey == k;
        } else {
          assert t'.events[n].dedupeKey == k;
        }
      }
    }
  }

  /** Nothing about keys depends on who owns an event. */
  lemma MergeKeepsKeys(t: Tables, actor: Uuid, user: UserId)
    requires KeysAgree(t)
    ensures KeysAgree(MergeActor(t, actor, user))
  {
    var t' := MergeActor(t, actor, user);
    forall i | 0 <= i < |t.events| ensures t'.events[i] == t.events[i].(user := t'.events[i].user) {}
    forall i | 0 <= i < |t.events| ensures KeyFits(t'.events[i]) {
      var k :| t.events[i].dedupeKey == DedupeKey(t.events[i].actor, k, t.events[i].id);
      assert t'.events[i].dedupeKey == DedupeKey(t'.events[i].actor, k, t'.events[i].id);
    }
    forall k | k in t'.claims ensures HasRow(t'.events, k) {
      var i :| 0 <= i < |t.events| && t.events[i].dedupeKey == k;
      assert t'.events[i].dedupeKey == k;
    }
  }

  lemma StepKeepsKeys(t: Tables, step: Step)
    requires KeysAgree(t)
    ensures KeysAgree(Apply(t, step))
  {
    match step
    case Write(c, id, now, blogKnown) => WriteKeepsKeys(t, c, id, now, blogKnown);
    case SignIn(actor, user, _) => MergeKeepsKeys(t, actor, user);
    case Meet(_) =>
    case RefreshActor(_, _) =>
  }

  lemma {:induction false} RunKeepsKeys(t: Tables, steps: seq<Step>)
    requires KeysAgree(t) && Valid(t, steps)
    ensures KeysAgree(Run(t, steps))
    decreases |steps|
  {
    if steps != [] {
      StepKeepsKeys(t, steps[0]);
      RunKeepsKeys(Apply(t, steps[0]), steps[1..]);
    }
  }

  predicate AnsweredTrue(t: Tables, step: Step, key: string) {
    && step.Write? && DedupeKey(step.c.actor, step.c.clientKey, step.id) == key
    && Record(t, step.c, step.id, step.now, step.blogKnown).1 == Recorded
  }

  /** How often an event with this key was reported as appended. */
  function TimesRecorded(t: Tables, steps: seq<Step>, key: string): nat
    decreases |steps|
  {
    if steps == [] then 0
    else (if AnsweredTrue(t, steps[0], key) then 1 else 0) + TimesRecorded(Apply(t, steps[0]), steps[1..], key)
  }

  /** A key is reported as appended once if it ends up claimed and never otherwise, however
      often it is retried. */
  lemma {:induction false} RecordedOncePerKey(t: Tables, steps: seq<Step>, key: string)
    ensures (if key in t.claims then 1 else 0) + TimesRecorded(t, steps, key)
         == if key in Run(t, steps).claims then 1 else 0
    decreases |steps|
  {
    if steps != [] {
      RecordedOncePerKey(Apply(t, steps[0]), steps[1..], key);
    }
  }

  /** In every reachable state the claimed keys and the event rows are in bijection. */
  lemma KeysAndRowsInBijection(steps: seq<Step>)
    requires Valid(EMPTY, steps)
    ensures var t := Run(EMPTY, steps);
            && t.claims == (set i | 0 <= i < |t.events| :: t.events[i].dedupeKey)
            && |t.claims| == |t.events|
            && (forall i, j :: 0 <= i < j < |t.events| ==> t.events[i].dedupeKey != t.events[j].dedupeKey)
  {
    RunKeepsKeys(EMPTY, steps);
    var t := Run(EMPTY, steps);
    CountKeys(t.events);
    assert t.claims == (set i | 0 <= i < |t.events| :: t.events[i].dedupeKey);
  }

  lemma {:induction false} CountKeys(events: seq<Event>)
    requires forall i, j :: 0 <= i < j < |events| ==> events[i].dedupeKey != events[j].dedupeKey
    ensures |set i | 0 <= i < |events| :: events[i].dedupeKey| == |events|
    decreases |events|
  {
    if events != [] {
      var n := |events| - 1;
      var init := events[..n];
      CountKeys(init);
      assert (set i | 0 <= i < |events| :: events[i].dedupeKey)
          == (set i | 0 <= i < |init| :: init[i].dedupeKey) + {events[n].dedupeKey};
    }
  }

  /** A write without a client key is never taken for a duplicate. */
  lemma KeylessIsNeverDuplicate(t: Tables, c: Command, id: Uuid, now: Time, blogKnown: bool)
    requires KeysAgree(t) && Enabled(t, Write(c, id, now, blogKnown)) && c.clientKey == ""
    ensures Record(t, c, id, now, blogKnown).1 != Duplicate
  {
    forall i | 0 <= i < |t.events| ensures t.events[i].dedupeKey != id {
      var e := t.events[i];
      var k :| e.dedupeKey == DedupeKey(e.actor, k, e.id);
      KeysCoincideOnlyForSameClient(e.actor, k, e.id, c.actor, "", id);
    }
  }

  // ------------------------------------------------------------- projection

  /** The view events of an actor on an article. */
  function Viewing(events: seq<Event>, actor: Uuid, blog: BlogId): set<int> {
    set i | 0 <= i < |events| && events[i].actor == actor && events[i].blog == Some(blog) && IsView(events[i].kind)
  }

  predicate IsFirst(s: set<int>, i: int) {
    i in s && forall j :: j in s ==> i <= j
  }

  predicate IsLast(s: set<int>, i: int) {
    i in s && forall j :: j in s ==> j <= i
  }

  /** The row counts the view events, of which there are some, and carries the times of the
      first and the last; there is no row when there are none. */
  ghost predicate Projects(t: Tables, actor: Uuid, blog: BlogId) {
    var views := Viewing(t.events, actor, blog);
    if (actor, blog) !in t.views then views == {}
    else
      var v := t.views[(actor, blog)];
      && v.count == |views| > 0
      && (forall f :: IsFirst(views, f) ==> v.first == t.events[f].at)
      && (forall l :: IsLast(views, l) ==> v.last == t.events[l].at)
  }

  predicate ViewedBy(c: Command, actor: Uuid, blog: BlogId) {
    c.actor == actor && c.blog == Some(blog) && IsView(c.kind)
  }

  lemma AppendedViewing(events: seq<Event>, e: Event, actor: Uuid, blog: BlogId)
    ensures Viewing(events + [e], actor, blog)
         == Viewing(events, actor, blog)
            + if e.actor == actor && e.blog == Some(blog) && IsView(e.kind) then {|events|} else {}
  {
  }

  lemma ViewIsProjected(t: Tables, c: Command, id: Uuid, now: Time, actor: Uuid, blog: BlogId)
    requires Projects(t, actor, blog) && ViewedBy(c, actor, blog)
    requires Record(t, c, id, now, true).1 == Recorded
    ensures Projects(Record(t, c, id, now, true).0, actor, blog)
  {
    var t', n := Record(t, c, id, now, true).0, |t.events|;
    var views, views' := Viewing(t.events, actor, blog), Viewing(t'.events, actor, blog);
    AppendedViewing(t.events, NewEvent(c, id, now), actor, blog);
    assert views' == views + {n} && n !in views;
    forall l | IsLast(views', l) ensures l == n {
      assert n in views';
    }
    forall f | IsFirst(views', f) ensures if views == {} then f == n else IsFirst(views, f) {
      if i :| i in views {
        assert i in views' && f <= i < n;
      }
    }
  }

  lemma OtherWriteIsIgnored(t: Tables, c: Command, id: Uuid, now: Time, actor: Uuid, blog: BlogId)
    requires Projects(t, actor, blog) && !ViewedBy(c, actor, blog)
    requires Record(t, c, id, now, true).1 == Recorded
    ensures Projects(Record(t, c, id, now, true).0, actor, blog)
  {
    var t' := Record(t, c, id, now, true).0;
    AppendedViewing(t.events, NewEvent(c, id, now), actor, blog);
    assert Viewing(t'.events, actor, blog) == Viewing(t.events, actor, blog);
    assert t'.events == t.events + [NewEvent(c, id, now)];
    if (actor, blog) in t.views {
      assert t'.views[(actor, blog)] == t.views[(actor, blog)];
    }
  }

  lemma WriteKeepsProjection(t: Tables, c: Command, id: Uuid, now: Time, blogKnown: bool, actor: Uuid, blog: BlogId)
    requires Projects(t, actor, blog)
    ensures Projects(Record(t, c, id, now, blogKnown).0, actor, blog)
  {
    if Record(t, c, id, now, blogKnown).1 == Recorded {
      if ViewedBy(c, actor, blog) {
        ViewIsProjected(t, c, id, now, actor, blog);
      } else {
        OtherWriteIsIgnored(t, c, id, now, actor, blog);
      }
    }
  }

  lemma MergeKeepsProjection(t: Tables, who: Uuid, user: UserId, actor: Uuid, blog: BlogId)
    requires Projects(t, actor, blog)
    ensures Projects(MergeActor(t, who, user), actor, blog)
  {
    assert Viewing(MergeActor(t, who, user).events, actor, blog) == Viewing(t.events, actor, blog);
  }

  lemma StepKeepsProjection(t: Tables, step: Step, actor: Uuid, blog: BlogId)
    requires Projects(t, actor, blog)
    ensures Projects(Apply(t, step), actor, blog)
  {
    match step
    case Write(c, id, now, blogKnown) => WriteKeepsProjection(t, c, id, now, blogKnown, actor, blog);
    case SignIn(who, user, _) => MergeKeepsProjection(t, who, user, actor, blog);
    case Meet(_) =>
    case RefreshActor(_, _) =>
  }

  /** The projection agrees with the log in every reachable state, through duplicates,
      refusals, rollbacks and merges. */
  lemma {:induction false} ViewsMatchLog(t: Tables, steps: seq<Step>, actor: Uuid, blog: BlogId)
    requires Projects(t, actor, blog)
    ensures Projects(Run(t, steps), actor, blog)
    decreases |steps|
  {
    if steps != [] {
      StepKeepsProjection(t, steps[0], actor, blog);
      ViewsMatchLog(Apply(t, steps[0]), steps[1..], actor, blog);
    }
  }

  lemma ViewsMatchLogFromEmpty(steps: seq<Step>, actor: Uuid, blog: BlogId)
    ensures Projects(Run(EMPTY, steps), actor, blog)
  {
    ViewsMatchLog(EMPTY, steps, actor, blog);
  }

  /** A view row has an owner exactly when one of the views it counts has, and then it is
      the owner of one of them. */
  ghost predicate OwnedAsLogged(t: Tables, actor: Uuid, blog: BlogId) {
    (actor, blog) in t.views ==>
      var owner := t.views[(actor, blog)].user;
      if owner.None? then forall i :: i in Viewing(t.events, actor, blog) ==> t.events[i].user.None?
      else exists i :: i in Viewing(t.events, actor, blog) && t.events[i].user == owner
  }

  lemma ViewKeepsOwner(t: Tables, c: Command, id: Uuid, now: Time, actor: Uuid, blog: BlogId)
    requires Projects(t, actor, blog) && OwnedAsLogged(t, actor, blog) && ViewedBy(c, actor, blog)
    requires Record(t, c, id, now, true).1 == Recorded
    ensures OwnedAsLogged(Record(t, c, id, now, true).0, actor, blog)
  {
    var t', n := Record(t, c, id, now, true).0, |t.events|;
    var views := Viewing(t.events, actor, blog);
    AppendedViewing(t.events, NewEvent(c, id, now), actor, blog);
    assert Viewing(t'.events, actor, blog) == views + {n} && t'.events[n].user == c.user;
    if (actor, blog) in t.views && t.views[(actor, blog)].user.Some? {
      var i :| i in views && t.events[i].user == t.views[(actor, blog)].user;
      assert i in Viewing(t'.events, actor, blog) && t'.events[i] == t.events[i];
    }
  }

  lemma OtherWriteKeepsOwner(t: Tables, c: Command, id: Uuid, now: Time, actor: Uuid, blog: BlogId)
    requires OwnedAsLogged(t, actor, blog) && !ViewedBy(c, actor, blog)
    requires Record(t, c, id, now, true).1 == Recorded
    ensures OwnedAsLogged(Record(t, c, id, now, true).0, actor, blog)
  {
    var t' := Record(t, c, id, now, true).0;
    var views := Viewing(t.events, actor, blog);
    AppendedViewing(t.events, NewEvent(c, id, now), actor, blog);
    assert Viewing(t'.events, actor, blog) == views;
    assert forall i :: i in views ==> t'.events[i] == t.events[i];
    if (actor, blog) in t.views {
      assert t'.views[(actor, blog)] == t.views[(actor, blog)];
    }
  }

  lemma MergeKeepsOwner(t: Tables, who: Uuid, user: UserId, actor: Uuid, blog: BlogId)
    requires Projects(t, actor, blog) && OwnedAsLogged(t, actor, blog)
    ensures OwnedAsLogged(MergeActor(t, who, user), actor, blog)
  {
    var t' := MergeActor(t, who, user);
    var views := Viewing(t.events, actor, blog);
    assert Viewing(t'.events, actor, blog) == views;
    if (actor, blog) in t.views {
      var i :| i in views;
      if t.views[(actor, blog)].user.Some? {
        var i :| i in views && t.events[i].user == t.views[(actor, blog)].user;
        assert t'.events[i].user == t.events[i].user;
      }
    }
  }

  ghost predicate Owned(t: Tables, actor: Uuid, blog: BlogId) {
    (actor, blog) in t.views && t.views[(actor, blog)].user.Some?
  }

  lemma StepKeepsOwner(t: Tables, step: Step, actor: Uuid, blog: BlogId)
    requires Projects(t, actor, blog) && OwnedAsLogged(t, actor, blog)
    ensures OwnedAsLogged(Apply(t, step), actor, blog)
    ensures Owned(t, actor, blog) ==> Owned(Apply(t, step), actor, blog)
  {
    match step
    case Write(c, id, now, blogKnown) =>
      if Record(t, c, id, now, blogKnown).1 == Recorded {
        if ViewedBy(c, actor, blog) {
          ViewKeepsOwner(t, c, id, now, actor, blog);
        } else {
          OtherWriteKeepsOwner(t, c, id, now, actor, blog);
        }
      }
    case SignIn(who, user, _) => MergeKeepsOwner(t, who, user, actor, blog);
    case Meet(_) =>
    case RefreshActor(_, _) =>
  }

  /** The owners of the projection agree with those of the log in every reachable state;
      in particular an anonymous-looking write never takes an owner away. */
  lemma {:induction false} ViewOwnersMatchLog(t: Tables, steps: seq<Step>, actor: Uuid, blog: BlogId)
    requires Projects(t, actor, blog) && OwnedAsLogged(t, actor, blog)
    ensures OwnedAsLogged(Run(t, steps), actor, blog)
    ensures Owned(t, actor, blog) ==> Owned(Run(t, steps), actor, blog)
    decreases |steps|
  {
    if steps != [] {
      StepKeepsProjection(t, steps[0], actor, blog);
      StepKeepsOwner(t, steps[0], actor, blog);
      ViewOwnersMatchLog(Apply(t, steps[0]), steps[1..], actor, blog);
    }
  }

  // ------------------------------------------------------------------ merge

  /** An event belongs to whoever wrote it or, if written anonymously, to nobody or to the
      account its actor was merged into. */
  predicate AttributionOk(t: Tables, e: Event) {
    e.user == e.writtenBy || (e.writtenBy.None? && e.actor in t.actors && t.actors[e.actor] == e.user)
  }

  function MergedEvents(merges: seq<Merge>): nat {
    if merges == [] then 0 else MergedEvents(merges[..|merges| - 1]) + merges[|merges| - 1].events
  }

  /** The events written anonymously that some account now owns. */
  function ClaimedLater(events: seq<Event>): set<int> {
    set i | 0 <= i < |events| && events[i].writtenBy.None? && events[i].user.Some?
  }

  ghost predicate Conserved(t: Tables) {
    && (forall i :: 0 <= i < |t.events| ==> AttributionOk(t, t.events[i]))
    && MergedEvents(t.merges) == |ClaimedLater(t.events)|
  }

  lemma MergeClaims(events: seq<Event>, actor: Uuid, user: UserId)
    requires forall i :: 0 <= i < |events| && events[i].user.None? ==> events[i].writtenBy.None?
    ensures |ClaimedLater(AttributeEvents(events, actor, user))|
         == |ClaimedLater(events)| + |Unattributed(events, actor)|
  {
    var claimed, owned := Unattributed(events, actor), ClaimedLater(events);
    assert ClaimedLater(AttributeEvents(events, actor, user)) == owned + claimed && owned !! claimed;
  }

  lemma MergeConserves(t: Tables, actor: Uuid, user: UserId)
    requires Conserved(t)
    ensures Conserved(MergeActor(t, actor, user))
  {
    var t' := MergeActor(t, actor, user);
    forall i | 0 <= i < |t.events|
      ensures t.events[i].user.None? ==> t.events[i].writtenBy.None?
      ensures AttributionOk(t', t'.events[i])
    {
      assert AttributionOk(t, t.events[i]);
    }
    if actor in t.actors && t.actors[actor].None? {
      MergeClaims(t.events, actor, user);
      var merged := |Unattributed(t.events, actor)|;
      if merged > 0 {
        assert (t.merges + [Merge(actor, user, merged)])[..|t.merges|] == t.merges;
      }
    }
  }

  lemma StepConserves(t: Tables, step: Step)
    requires Conserved(t) && Enabled(t, step)
    ensures Conserved(Apply(t, step))
  {
    var t' := Apply(t, step);
    match step
    case Write(c, id, now, blogKnown) =>
      if Record(t, c, id, now, blogKnown).1 == Recorded {
        assert ClaimedLater(t'.events) == ClaimedLater(t.events);
        forall i | 0 <= i < |t.events| ensures AttributionOk(t', t'.events[i]) {
          assert AttributionOk(t, t.events[i]);
        }
      }
    case SignIn(actor, user, commits) => MergeConserves(t, actor, user);
    case Meet(actor) =>
      forall i | 0 <= i < |t.events| ensures AttributionOk(t', t'.events[i]) {
        assert AttributionOk(t, t.events[i]);
      }
    case RefreshActor(actor, _) =>
      forall i | 0 <= i < |t.events| ensures AttributionOk(t', t'.events[i]) {
        assert AttributionOk(t, t.events[i]);
      }
  }

  /** Merging conserves events: in every reachable state the staged counts add up to the
      anonymously written events that now have an owner, and that owner is the account
      their actor was merged into. */
  lemma {:induction false} MergeConservation(t: Tables, steps: seq<Step>)
    requires Conserved(t) && Valid(t, steps)
    ensures Conserved(Run(t, steps))
    decreases |steps|
  {
    if steps != [] {
      StepConserves(t, steps[0]);
      MergeConservation(Apply(t, steps[0]), steps[1..]);
    }
  }

  /** An event gets an owner at most once and an actor is merged at most once: neither ever
      changes after that, and no row is lost. */
  lemma {:induction false} OwnersAreFinal(t: Tables, steps: seq<Step>)
    requires Valid(t, steps)
    ensures var t' := Run(t, steps);
            && |t.events| <= |t'.events|
            && (forall i :: 0 <= i < |t.events| ==>
                  || t'.events[i] == t.events[i]
                  || (t.events[i].user.None? && t'.events[i] == t.events[i].(user := t'.events[i].user)))
            && (forall a :: a in t.actors && t.actors[a].Some? ==> a in t'.actors && t'.actors[a] == t.actors[a])
    decreases |steps|
  {
    if steps != [] {
      OwnersAreFinal(Apply(t, steps[0]), steps[1..]);
    }
  }
}
