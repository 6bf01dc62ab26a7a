/** The admin sign-in log and the lockout window that reads it.

    `Refused` and `Rejected` attempts are both stored as failures; the model keeps the
    difference because the guarantee is about passwords actually compared. */
module AdminLogin {
  import opened Wrappers

  type Time = int
  type Email = string

  datatype Kind = Refused | Rejected | Succeeded

  datatype Attempt = Attempt(email: Email, kind: Kind, at: Time)

  type Log = seq<Attempt>

  datatype Config = Config(maxFailures: nat, window: nat)

  type Settings = c: Config | c.maxFailures >= 1 && c.window >= 1 witness Config(5, 900)

  /** What checking the submitted password would find. `RightButInactive` raises after the
      attempt was recorded, so the record is rolled back. */
  datatype Password = Wrong | Right | RightButInactive

  datatype Answer = LockedOut | Invalid | SignedIn | UserInactive

  predicate IsFailure(log: Log, email: Email, i: int) {
    0 <= i < |log| && log[i].email == email && log[i].kind != Succeeded
  }

  predicate IsSuccess(log: Log, email: Email, i: int) {
    0 <= i < |log| && log[i].email == email && log[i].kind == Succeeded
  }

  /** The rows the query counts: failures since the cutoff and after the last success. */
  ghost predicate Counted(log: Log, email: Email, since: Time, i: int) {
    && IsFailure(log, email, i)
    && log[i].at >= since
    && forall j :: IsSuccess(log, email, j) ==> log[j].at < log[i].at
  }

  ghost function RecentFailures(log: Log, email: Email, since: Time): set<int> {
    set i | 0 <= i < |log| && Counted(log, email, since, i)
  }

  ghost predicate Locked(c: Settings, log: Log, email: Email, now: Time) {
    |RecentFailures(log, email, now - c.window)| >= c.maxFailures
  }

  ghost function AnswerTo(c: Settings, log: Log, email: Email, password: Password, now: Time): Answer {
    if Locked(c, log, email, now) then LockedOut
    else match password
      case Wrong => Invalid
      case Right => SignedIn
      case RightButInactive => UserInactive
  }

  /** What the attempt leaves in the log. */
  function Recorded(log: Log, email: Email, answer: Answer, now: Time): Log {
    match answer
    case LockedOut => log + [Attempt(email, Refused, now)]
    case Invalid => log + [Attempt(email, Rejected, now)]
    case SignedIn => log + [Attempt(email, Succeeded, now)]
    case UserInactive => log
  }

  class LoginAttempts {
    var log: Log

    constructor ()
      ensures log == []
    {
      log := [];
    }

    method CountRecentFailures(email: Email, since: Time) returns (n: nat)
      ensures n == |RecentFailures(log, email, since)|
    {
      var last: Option<Time> := None;
      for i := 0 to |log|
        invariant last.None? ==> forall j :: 0 <= j < i ==> !IsSuccess(log, email, j)
        invariant last.Some? ==> exists j :: 0 <= j < i && IsSuccess(log, email, j) && log[j].at == last.value
        invariant last.Some? ==> forall j :: 0 <= j < i && IsSuccess(log, email, j) ==> log[j].at <= last.value
      {
        if IsSuccess(log, email, i) && (last.None? || log[i].at > last.value) {
          last := Some(log[i].at);
        }
      }
      n := 0;
      ghost var counted := {};
      for i := 0 to |log|
        invariant counted == set j | 0 <= j < i && Counted(log, email, since, j)
        invariant n == |counted|
      {
        var hit := IsFailure(log, email, i) && log[i].at >= since && (last.None? || log[i].at > last.value);
        assert hit <==> Counted(log, email, since, i);
        if hit {
          n := n + 1;
          counted := counted + {i};
        }
      }
      assert counted == RecentFailures(log, email, since);
    }

    /** Both failure paths leave the transaction normally so that their record is kept. */
    method PasswordLogin(c: Settings, email: Email, password: Password, now: Time) returns (answer: Answer)
      modifies this
      ensures answer == AnswerTo(c, old(log), email, password, now)
      ensures log == Recorded(old(log), email, answer, now)
      ensures |RecentFailures(old(log), email, now - c.window)| >= c.maxFailures ==>
                answer == LockedOut && log == old(log) + [Attempt(email, Refused, now)]
      ensures |RecentFailures(old(log), email, now - c.window)| < c.maxFailures ==>
                && (password == Wrong ==> answer == Invalid && log == old(log) + [Attempt(email, Rejected, now)])
                && (password == Right ==> answer == SignedIn && log == old(log) + [Attempt(email, Succeeded, now)])
                && (password == RightButInactive ==> answer == UserInactive && log == old(log))
    {
      var snapshot := log;
      var failures := CountRecentFailures(email, now - c.window);
      if failures >= c.maxFailures {
        log := log + [Attempt(email, Refused, now)];
        return LockedOut;
      }
      var ok := password != Wrong;
      log := log + [Attempt(email, if ok then Succeeded else Rejected, now)];
      if !ok {
        return Invalid;
      }
      if password == RightButInactive {
        log := snapshot;
        return UserInactive;
      }
      answer := SignedIn;
    }
  }

  // ------------------------------------------------------------------- runs

  datatype Try = Try(email: Email, password: Password, at: Time)

  /** Times do not go back, from `clock` on. */
  predicate InOrder(clock: Time, tries: seq<Try>)
    decreases |tries|
  {
    tries == [] || (clock <= tries[0].at && InOrder(tries[0].at, tries[1..]))
  }

  ghost function Run(c: Settings, log: Log, tries: seq<Try>): Log
    decreases |tries|
  {
    if tries == [] then log
    else
      var t := tries[0];
      Run(c, Recorded(log, t.email, AnswerTo(c, log, t.email, t.password, t.at), t.at), tries[1..])
  }

  predicate InTime(log: Log, clock: Time) {
    && (forall i :: 0 <= i < |log| ==> log[i].at <= clock)
    && (forall i, j :: 0 <= i < j < |log| ==> log[i].at <= log[j].at)
  }

  /** A comparison was made only while the rows before it did not lock the address. */
  ghost predicate Evaluated(c: Settings, log: Log, i: nat) {
    i < |log| && log[i].kind == Rejected ==> !Locked(c, log[..i], log[i].email, log[i].at)
  }

  ghost predicate Inv(c: Settings, log: Log, clock: Time) {
    InTime(log, clock) && forall i :: Evaluated(c, log, i)
  }

  lemma TryKeepsInv(c: Settings, log: Log, clock: Time, t: Try)
    requires Inv(c, log, clock) && clock <= t.at
    ensures Inv(c, Recorded(log, t.email, AnswerTo(c, log, t.email, t.password, t.at), t.at), t.at)
  {
    var log' := Recorded(log, t.email, AnswerTo(c, log, t.email, t.password, t.at), t.at);
    forall i: nat ensures Evaluated(c, log', i) {
      assert Evaluated(c, log, i);
      if i <= |log| && i < |log'| {
        assert log'[..i] == log[..i];
        assert log[..|log|] == log;
      }
    }
  }

  lemma {:induction false} RunKeepsInv(c: Settings, log: Log, clock: Time, tries: seq<Try>) returns (end: Time)
    requires Inv(c, log, clock) && InOrder(clock, tries)
    ensures Inv(c, Run(c, log, tries), end) && clock <= end
    decreases |tries|
  {
    end := clock;
    if tries != [] {
      var t := tries[0];
      TryKeepsInv(c, log, clock, t);
      var log' := Recorded(log, t.email, AnswerTo(c, log, t.email, t.password, t.at), t.at);
      end := RunKeepsInv(c, log', t.at, tries[1..]);
    }
  }

  lemma SubsetSize<T>(a: set<T>, b: set<T>)
    requires a <= b
    ensures |a| <= |b|
  {
    assert b == a + (b - a);
  }

  lemma Largest(s: set<int>, bound: nat) returns (m: int)
    requires s != {} && forall i :: i in s ==> 0 <= i < bound
    ensures m in s && forall i :: i in s ==> i <= m
  {
    m := bound - 1;
    while m !in s
      invariant -1 <= m < bound && forall i :: i in s ==> i <= m
      decreases m
    {
      assert m >= 0;
      m := m - 1;
    }
  }

  /** The failed comparisons for an address in a closed interval. */
  ghost function ComparedIn(log: Log, email: Email, from: Time, to: Time): set<int> {
    set i | 0 <= i < |log| && log[i].email == email && log[i].kind == Rejected && from <= log[i].at <= to
  }

  ghost predicate NoSuccessIn(log: Log, email: Email, from: Time, to: Time) {
    forall j :: IsSuccess(log, email, j) ==> !(from <= log[j].at <= to)
  }

  lemma InvBoundsComparisons(c: Settings, log: Log, clock: Time, email: Email, from: Time)
    requires Inv(c, log, clock) && NoSuccessIn(log, email, from, from + c.window)
    ensures |ComparedIn(log, email, from, from + c.window)| <= c.maxFailures
  {
    var compared := ComparedIn(log, email, from, from + c.window);
    if compared != {} {
      var last := Largest(compared, |log|);
      var others := compared - {last};
      forall i | i in others ensures Counted(log[..last], email, log[last].at - c.window, i) {
        EarlierIsCounted(c, log, clock, email, from, i, last);
      }
      assert Evaluated(c, log, last);
      SubsetSize(others, RecentFailures(log[..last], email, log[last].at - c.window));
      assert compared == others + {last};
    }
  }

  /** The sliding window. Whatever is tried and whenever, any closed interval as long as
      the window that holds no recorded success for an address holds at most
      `maxFailures` failed password comparisons for it. */
  lemma WindowBoundsComparisons(c: Settings, clock: Time, tries: seq<Try>, email: Email, from: Time)
    requires InOrder(clock, tries)
    requires NoSuccessIn(Run(c, [], tries), email, from, from + c.window)
    ensures |ComparedIn(Run(c, [], tries), email, from, from + c.window)| <= c.maxFailures
  {
    var end := RunKeepsInv(c, [], clock, tries);
    InvBoundsComparisons(c, Run(c, [], tries), end, email, from);
  }

  lemma EarlierIsCounted(c: Settings, log: Log, clock: Time, email: Email, from: Time, i: int, last: int)
    requires InTime(log, clock)
    requires NoSuccessIn(log, email, from, from + c.window)
    requires 0 <= i < last < |log| && IsFailure(log, email, i)
    requires from <= log[i].at <= log[last].at <= from + c.window
    ensures Counted(log[..last], email, log[last].at - c.window, i)
  {
    forall j | IsSuccess(log[..last], email, j) ensures log[j].at < log[i].at {
      assert IsSuccess(log, email, j);
    }
  }

  /** What an attempt is answered and leaves behind: on an address that is not locked a wrong
      password is refused and recorded as a failure, the right one signs in and is recorded
      as a success, and for an inactive account nothing is recorded. */
  lemma AnswersMean(c: Settings, log: Log, email: Email, password: Password, now: Time)
    ensures var answer := AnswerTo(c, log, email, password, now);
            var log' := Recorded(log, email, answer, now);
            && (answer == LockedOut <==> |RecentFailures(log, email, now - c.window)| >= c.maxFailures)
            && (answer == LockedOut ==> log' == log + [Attempt(email, Refused, now)])
            && (answer != LockedOut ==>
                  && (password == Wrong <==> answer == Invalid)
                  && (password == Right <==> answer == SignedIn)
                  && (password == RightButInactive <==> answer == UserInactive)
                  && log' == if password == RightButInactive then log
                             else log + [Attempt(email, if password == Right then Succeeded else Rejected, now)])
  {
  }

  /** A failure counts exactly if it is recent enough and later than every success. */
  lemma CountedExactly(log: Log, email: Email, since: Time, i: int)
    ensures i in RecentFailures(log, email, since) <==>
              && 0 <= i < |log| && log[i].email == email && log[i].kind != Succeeded && since <= log[i].at
              && forall j :: 0 <= j < |log| && log[j].email == email && log[j].kind == Succeeded ==>
                   log[j].at < log[i].at
  {
    if i in RecentFailures(log, email, since) {
      forall j | 0 <= j < |log| && log[j].email == email && log[j].kind == Succeeded ensures log[j].at < log[i].at {
        assert IsSuccess(log, email, j);
      }
    }
  }

  /** A recorded success clears the slate: whatever failed at or before it, nothing of it is
      counted afterwards, so the next attempt at any later time is evaluated. */
  lemma SuccessClearsSlate(c: Settings, log: Log, clock: Time, email: Email, now: Time, later: Time, password: Password)
    requires InTime(log, clock) && clock <= now <= later
    requires AnswerTo(c, log, email, Right, now) != LockedOut
    ensures AnswerTo(c, log, email, Right, now) == SignedIn
    ensures var log' := Recorded(log, email, SignedIn, now);
            && (forall since :: RecentFailures(log', email, since) == {})
            && AnswerTo(c, log', email, password, later) != LockedOut
  {
    var log' := Recorded(log, email, SignedIn, now);
    assert IsSuccess(log', email, |log|);
    forall since ensures RecentFailures(log', email, since) == {} {
      forall i ensures !Counted(log', email, since, i) {
      }
    }
  }

  /** An attempt after more than a window of silence is always evaluated. */
  lemma SilenceReopens(c: Settings, log: Log, email: Email, password: Password, now: Time)
    requires forall i :: 0 <= i < |log| && log[i].email == email ==> log[i].at < now - c.window
    ensures AnswerTo(c, log, email, password, now) != LockedOut
  {
    assert RecentFailures(log, email, now - c.window) == {};
  }

  /** A refused attempt is itself a failure: it counts against every later attempt for a
      whole window, on top of what counted before. */
  lemma RefusalExtendsLock(c: Settings, log: Log, clock: Time, email: Email, password: Password, t: Time, later: Time)
    requires InTime(log, clock) && clock <= t <= later <= t + c.window
    requires Locked(c, log, email, t)
    ensures var log' := Recorded(log, email, AnswerTo(c, log, email, password, t), t);
            |RecentFailures(log', email, later - c.window)| == |RecentFailures(log, email, later - c.window)| + 1
  {
    var log' := log + [Attempt(email, Refused, t)];
    var since := later - c.window;
    LockedSinceSuccess(c, log, clock, email, t);
    forall j ensures IsSuccess(log', email, j) <==> IsSuccess(log, email, j) {}
    assert RecentFailures(log', email, since) == RecentFailures(log, email, since) + {|log|};
  }

  /** While an address is locked its last success is strictly in the past. */
  lemma LockedSinceSuccess(c: Settings, log: Log, clock: Time, email: Email, now: Time)
    requires InTime(log, clock) && clock <= now && Locked(c, log, email, now)
    ensures forall j :: IsSuccess(log, email, j) ==> log[j].at < now
  {
    var counted := RecentFailures(log, email, now - c.window);
    assert counted != {};
    var i :| i in counted;
  }

  /** The log after `n` refused tries. */
  function Hammered(log: Log, tries: seq<Try>, n: nat): Log
    requires n <= |tries|
  {
    log + seq(n, i requires 0 <= i < n => Attempt(tries[i].email, Refused, tries[i].at))
  }

  ghost predicate Hammering(c: Settings, log: Log, email: Email, tries: seq<Try>) {
    && (forall i :: 0 <= i < |tries| ==> tries[i].email == email)
    && (forall i, j :: 0 <= i <= j < |tries| ==> tries[i].at <= tries[j].at)
    && (forall i :: 0 <= i < |tries| && i < c.maxFailures ==> Locked(c, log, email, tries[i].at))
    && (forall i :: 0 <= i < |tries| - c.maxFailures ==> FastFrom(c, tries, i))
  }

  /** The `i`-th try and the `maxFailures` after it fall within one window. */
  predicate FastFrom(c: Settings, tries: seq<Try>, i: nat)
    requires i + c.maxFailures < |tries|
  {
    tries[i + c.maxFailures].at - tries[i].at <= c.window
  }

  function Range(from: int, n: nat): (r: set<int>)
    ensures |r| == n
    ensures forall i :: i in r <==> from <= i < from + n
  {
    if n == 0 then {} else Range(from, n - 1) + {from + (n - 1)}
  }

  lemma SuccessesAreOld(c: Settings, log: Log, clock: Time, email: Email, tries: seq<Try>, n: nat)
    requires InTime(log, clock) && Hammering(c, log, email, tries) && n < |tries| && clock <= tries[0].at
    ensures forall j :: IsSuccess(Hammered(log, tries, n), email, j) <==> IsSuccess(log, email, j)
    ensures forall j :: IsSuccess(log, email, j) ==> log[j].at < tries[0].at
  {
    LockedSinceSuccess(c, log, clock, email, tries[0].at);
  }

  lemma OldFailuresLock(c: Settings, log: Log, clock: Time, email: Email, tries: seq<Try>, n: nat)
    requires InTime(log, clock) && Hammering(c, log, email, tries) && n < |tries| && clock <= tries[0].at
    requires n < c.maxFailures
    ensures Locked(c, Hammered(log, tries, n), email, tries[n].at)
  {
    var since := tries[n].at - c.window;
    SuccessesAreOld(c, log, clock, email, tries, n);
    assert RecentFailures(log, email, since) <= RecentFailures(Hammered(log, tries, n), email, since);
    SubsetSize(RecentFailures(log, email, since), RecentFailures(Hammered(log, tries, n), email, since));
  }

  lemma NewRefusalCounts(c: Settings, log: Log, clock: Time, email: Email, tries: seq<Try>, n: nat, k: nat)
    requires InTime(log, clock) && Hammering(c, log, email, tries) && n < |tries| && clock <= tries[0].at
    requires c.maxFailures <= n && n - c.maxFailures <= k < n
    ensures Counted(Hammered(log, tries, n), email, tries[n].at - c.window, |log| + k)
  {
    SuccessesAreOld(c, log, clock, email, tries, n);
    var first := n - c.maxFailures;
    assert FastFrom(c, tries, first);
    assert Hammered(log, tries, n)[|log| + k] == Attempt(email, Refused, tries[k].at);
  }

  /** The last `maxFailures` rows of the log, all refusals within the window. */
  lemma NewRefusalsCount(c: Settings, log: Log, clock: Time, email: Email, tries: seq<Try>, n: nat)
    returns (latest: set<int>)
    requires InTime(log, clock) && Hammering(c, log, email, tries) && n < |tries| && clock <= tries[0].at
    requires n >= c.maxFailures
    ensures |latest| == c.maxFailures
    ensures forall i :: i in latest ==> Counted(Hammered(log, tries, n), email, tries[n].at - c.window, i)
  {
    var first := n - c.maxFailures;
    latest := Range(|log| + first, c.maxFailures);
    forall i | i in latest ensures Counted(Hammered(log, tries, n), email, tries[n].at - c.window, i) {
      NewRefusalCounts(c, log, clock, email, tries, n, i - |log|);
    }
  }

  lemma NewRefusalsLock(c: Settings, log: Log, clock: Time, email: Email, tries: seq<Try>, n: nat)
    requires InTime(log, clock) && Hammering(c, log, email, tries) && n < |tries| && clock <= tries[0].at
    requires n >= c.maxFailures
    ensures Locked(c, Hammered(log, tries, n), email, tries[n].at)
  {
    var latest := NewRefusalsCount(c, log, clock, email, tries, n);
    CountedBelow(Hammered(log, tries, n), email, tries[n].at - c.window, latest);
  }

  lemma CountedBelow(log: Log, email: Email, since: Time, s: set<int>)
    requires forall i :: i in s ==> Counted(log, email, since, i)
    ensures |s| <= |RecentFailures(log, email, since)|
  {
    SubsetSize(s, RecentFailures(log, email, since));
  }

  lemma HammeredIsLocked(c: Settings, log: Log, clock: Time, email: Email, tries: seq<Try>, n: nat)
    requires InTime(log, clock) && Hammering(c, log, email, tries) && n < |tries| && clock <= tries[0].at
    ensures Locked(c, Hammered(log, tries, n), email, tries[n].at)
  {
    if n < c.maxFailures {
      OldFailuresLock(c, log, clock, email, tries, n);
    } else {
      NewRefusalsLock(c, log, clock, email, tries, n);
    }
  }

  lemma {:induction false} RunAppendsRefusals(c: Settings, log: Log, clock: Time, email: Email, tries: seq<Try>, n: nat)
    requires InTime(log, clock) && Hammering(c, log, email, tries) && n <= |tries|
    requires tries != [] ==> clock <= tries[0].at
    ensures Run(c, Hammered(log, tries, n), tries[n..]) == Hammered(log, tries, |tries|)
    decreases |tries| - n
  {
    if n < |tries| {
      HammeredIsLocked(c, log, clock, email, tries, n);
      assert tries[n..][0] == tries[n] && tries[n..][1..] == tries[n + 1..];
      assert Hammered(log, tries, n) + [Attempt(email, Refused, tries[n].at)] == Hammered(log, tries, n + 1);
      RunAppendsRefusals(c, log, clock, email, tries, n + 1);
    }
  }

  /** Refused attempts extend the lock without end: a locked address tried again and
      again, `maxFailures` times in every window, is refused every time, right password or
      not, and no attempt is ever compared. */
  lemma HammeringNeverReopens(c: Settings, log: Log, clock: Time, email: Email, tries: seq<Try>)
    requires InTime(log, clock) && Hammering(c, log, email, tries) && (tries != [] ==> clock <= tries[0].at)
    ensures Run(c, log, tries) == Hammered(log, tries, |tries|)
  {
    RunAppendsRefusals(c, log, clock, email, tries, 0);
    assert Hammered(log, tries, 0) == log && tries[0..] == tries;
  }
}
