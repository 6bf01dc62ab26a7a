/** One-time codes: the attempt counter that survives a refusal, and the resend cooldown.

    Addresses are taken as already normalised. Requests and guesses are atomic steps over
    the challenge table; the clock never goes back. */
module Otp {
  import opened Wrappers

  type Id = nat
  type Time = int
  type Email = string
  type Digest = nat

  datatype Purpose = Login | Signup

  datatype Challenge = Challenge(
    email: Email,
    purpose: Purpose,
    hash: Digest,
    createdAt: Time,
    expiresAt: Time,
    attempts: nat,
    maxAttempts: nat,
    consumedAt: Option<Time>)

  type Table = map<Id, Challenge>

  datatype Config = Config(ttl: nat, maxAttempts: nat, cooldown: nat)

  datatype Verdict = Missing | Matched | Mismatch | ExpiredCode | Exhausted

  datatype Answer = Accepted | UserRefused | Rejected(verdict: Verdict)

  predicate Live(t: Table, email: Email, purpose: Purpose, id: Id) {
    id in t && t[id].email == email && t[id].purpose == purpose && t[id].consumedAt.None?
  }

  /** What `ORDER BY created_at DESC LIMIT 1` may return. */
  ghost predicate IsLatestLive(t: Table, email: Email, purpose: Purpose, latest: Option<Id>) {
    match latest
    case None => forall id :: !Live(t, email, purpose, id)
    case Some(id) =>
      && Live(t, email, purpose, id)
      && forall x :: Live(t, email, purpose, x) ==> t[x].createdAt <= t[id].createdAt
  }

  /** The single UPDATE: the attempt is counted and, on a match, the code is burned. */
  function Attempted(c: Challenge, hash: Digest, now: Time): Challenge {
    c.(attempts := c.attempts + 1,
       consumedAt := if c.hash == hash && c.expiresAt > now && c.attempts < c.maxAttempts then Some(now) else None)
  }

  /** The verdict read off the updated row. */
  function Judge(after: Challenge, hash: Digest, now: Time): Verdict {
    if after.attempts > after.maxAttempts then Exhausted
    else if after.expiresAt <= now then ExpiredCode
    else if after.hash != hash then Mismatch
    else Matched
  }

  /** A match is reported exactly when the statement burned the row. */
  lemma MatchedMeansBurned(c: Challenge, hash: Digest, now: Time)
    ensures Judge(Attempted(c, hash, now), hash, now) == Matched <==> Attempted(c, hash, now).consumedAt == Some(now)
    ensures Judge(Attempted(c, hash, now), hash, now) != Matched <==> Attempted(c, hash, now).consumedAt == None
  {
  }

  function Throttled(c: Config, t: Table, latest: Option<Id>, now: Time): bool
    requires latest.Some? ==> latest.value in t
  {
    latest.Some? && now < t[latest.value].createdAt + c.cooldown
  }

  function NewChallenge(c: Config, email: Email, purpose: Purpose, hash: Digest, now: Time): Challenge {
    Challenge(email, purpose, hash, now, now + c.ttl, 0, c.maxAttempts, None)
  }

  datatype Entry = Entry(hash: Digest, at: Time)

  /** A challenge after guesses at its code, until one burns it. */
  function AfterGuesses(c: Challenge, guesses: seq<Entry>): Challenge {
    if guesses == [] then c
    else
      var before := AfterGuesses(c, guesses[..|guesses| - 1]);
      var last := guesses[|guesses| - 1];
      if before.consumedAt.Some? then before else Attempted(before, last.hash, last.at)
  }

  /** What an issued code is worth: it is accepted from anyone who enters it before the end
      of its lifetime, unless as many attempts as the limit allows were used up before. The
      verdict on the next guess follows from the lifetime, the number of guesses so far,
      and the code alone. */
  lemma {:induction false} VerdictExactly(
    cfg: Config, email: Email, purpose: Purpose, hash: Digest, issued: Time, guesses: seq<Entry>, next: Entry)
    requires forall i :: 0 <= i < |guesses| ==>
               guesses[i].hash != hash || issued + cfg.ttl <= guesses[i].at || cfg.maxAttempts <= i
    ensures var c := AfterGuesses(NewChallenge(cfg, email, purpose, hash, issued), guesses);
            && c == NewChallenge(cfg, email, purpose, hash, issued).(attempts := |guesses|)
            && Judge(Attempted(c, next.hash, next.at), next.hash, next.at) ==
               if cfg.maxAttempts <= |guesses| then Exhausted
               else if issued + cfg.ttl <= next.at then ExpiredCode
               else if next.hash != hash then Mismatch
               else Matched
    decreases |guesses|
  {
    if guesses != [] {
      var n := |guesses| - 1;
      VerdictExactly(cfg, email, purpose, hash, issued, guesses[..n], guesses[n]);
    }
  }

  /** What a guess commits, and its answer. A matching code for a user who may not sign in
      raises inside the transaction, so everything it did is undone. */
  function Guess(t: Table, latest: Option<Id>, hash: Digest, now: Time, userOk: bool): (Table, Answer)
    requires latest.Some? ==> latest.value in t
  {
    if latest.None? then (t, Rejected(Missing))
    else
      var after := Attempted(t[latest.value], hash, now);
      var verdict := Judge(after, hash, now);
      if verdict == Matched then (if userOk then (t[latest.value := after], Accepted) else (t, UserRefused))
      else (t[latest.value := after], Rejected(verdict))
  }

  /** What a guess is answered and commits, told from the newest live row: every wrong, late or
      surplus guess costs an attempt and leaves the code unburned; a right one in time and
      within the limit burns it, unless the account may not sign in, and then nothing at
      all is changed. */
  lemma GuessMeans(t: Table, latest: Option<Id>, hash: Digest, now: Time, userOk: bool)
    requires latest.Some? ==> latest.value in t && t[latest.value].consumedAt.None?
    ensures var (t', answer) := Guess(t, latest, hash, now, userOk);
            && (latest.None? ==> t' == t && answer == Rejected(Missing))
            && (latest.Some? ==>
                  var c := t[latest.value];
                  var right := c.attempts < c.maxAttempts && now < c.expiresAt && c.hash == hash;
                  && (right && userOk ==>
                        && answer == Accepted
                        && t' == t[latest.value := c.(attempts := c.attempts + 1, consumedAt := Some(now))])
                  && (right && !userOk ==> answer == UserRefused && t' == t)
                  && (!right ==>
                        && t' == t[latest.value := c.(attempts := c.attempts + 1)]
                        && answer == Rejected(if c.maxAttempts <= c.attempts then Exhausted
                                              else if c.expiresAt <= now then ExpiredCode else Mismatch)))
  {
  }

  class ChallengeTable {
    var rows: Table

    constructor ()
      ensures rows == map[]
    {
      rows := map[];
    }

    method LatestLive(email: Email, purpose: Purpose) returns (latest: Option<Id>)
      ensures IsLatestLive(rows, email, purpose, latest)
    {
      latest := None;
      var rest := set id | id in rows && Live(rows, email, purpose, id);
      ghost var all := rest;
      while rest != {}
        invariant rest <= all
        invariant latest.None? ==> rest == all
        invariant latest.Some? ==> latest.value in all
        invariant latest.Some? ==>
          forall id :: id in all && id !in rest ==> rows[id].createdAt <= rows[latest.value].createdAt
        decreases |rest|
      {
        var id :| id in rest;
        if latest.None? || rows[id].createdAt > rows[latest.value].createdAt {
          latest := Some(id);
        }
        rest := rest - {id};
      }
      assert forall id :: Live(rows, email, purpose, id) ==> id in all;
    }

    method ConsumeIfMatching(email: Email, purpose: Purpose, hash: Digest, now: Time)
      returns (latest: Option<Id>, verdict: Verdict)
      modifies this
      ensures IsLatestLive(old(rows), email, purpose, latest)
      ensures latest.None? ==> verdict == Missing && rows == old(rows)
      ensures latest.Some? ==> var after := Attempted(old(rows)[latest.value], hash, now);
                               rows == old(rows)[latest.value := after] && verdict == Judge(after, hash, now)
      ensures latest.Some? ==>
                var c := old(rows)[latest.value];
                && verdict == (if c.maxAttempts <= c.attempts then Exhausted
                               else if c.expiresAt <= now then ExpiredCode
                               else if c.hash != hash then Mismatch
                               else Matched)
                && rows == old(rows)[latest.value := c.(attempts := c.attempts + 1,
                                                        consumedAt := if verdict == Matched then Some(now) else None)]
    {
      latest := LatestLive(email, purpose);
      if latest.None? {
        return latest, Missing;
      }
      var after := Attempted(rows[latest.value], hash, now);
      rows := rows[latest.value := after];
      verdict := Judge(after, hash, now);
    }

    method RequestOtp(c: Config, email: Email, purpose: Purpose, id: Id, hash: Digest, now: Time)
      returns (issued: bool, ghost latest: Option<Id>)
      requires id !in rows
      modifies this
      ensures IsLatestLive(old(rows), email, purpose, latest)
      ensures issued <==> !Throttled(c, old(rows), latest, now)
      ensures rows == if issued then old(rows)[id := NewChallenge(c, email, purpose, hash, now)] else old(rows)
      ensures !issued <==> latest.Some? && now < old(rows)[latest.value].createdAt + c.cooldown
      ensures issued ==>
                rows == old(rows)[id := Challenge(email, purpose, hash, now, now + c.ttl, 0, c.maxAttempts, None)]
    {
      var existing := LatestLive(email, purpose);
      latest := existing;
      if existing.Some? && now < rows[existing.value].createdAt + c.cooldown {
        return false, latest;
      }
      rows := rows[id := NewChallenge(c, email, purpose, hash, now)];
      issued := true;
    }

    /** A wrong guess leaves the transaction normally so that its attempt is kept; a match
        that cannot be completed raises and restores the challenge. */
    method VerifyOtp(email: Email, hash: Digest, now: Time, userOk: bool)
      returns (answer: Answer, ghost latest: Option<Id>)
      modifies this
      ensures IsLatestLive(old(rows), email, Login, latest)
      ensures (rows, answer) == Guess(old(rows), latest, hash, now, userOk)
      ensures latest.None? ==> rows == old(rows) && answer == Rejected(Missing)
      ensures latest.Some? ==>
                var c := old(rows)[latest.value];
                var right := c.attempts < c.maxAttempts && now < c.expiresAt && c.hash == hash;
                && (right && userOk ==>
                      && answer == Accepted
                      && rows == old(rows)[latest.value := c.(attempts := c.attempts + 1, consumedAt := Some(now))])
                && (right && !userOk ==> answer == UserRefused && rows == old(rows))
                && (!right ==> answer.Rejected? && rows == old(rows)[latest.value := c.(attempts := c.attempts + 1)])
    {
      var snapshot := rows;
      var target, verdict := ConsumeIfMatching(email, Login, hash, now);
      latest := target;
      if verdict != Matched {
        return Rejected(verdict), latest;
      }
      if !userOk {
        rows := snapshot;
        return UserRefused, latest;
      }
      answer := Accepted;
    }
  }

  // ------------------------------------------------------------------- runs

  datatype World = World(rows: Table, clock: Time)

  /** `latest` is the row the query happened to pick. */
  datatype Step =
    | Tick(to: Time)
    | Request(email: Email, purpose: Purpose, id: Id, hash: Digest, latest: Option<Id>)
    | Verify(email: Email, hash: Digest, userOk: bool, latest: Option<Id>)

  ghost predicate Enabled(s: World, step: Step) {
    match step
    case Tick(to) => s.clock <= to
    case Request(email, purpose, id, _, latest) => id !in s.rows && IsLatestLive(s.rows, email, purpose, latest)
    case Verify(email, _, _, latest) => IsLatestLive(s.rows, email, Login, latest)
  }

  ghost predicate Issues(c: Config, s: World, step: Step)
    requires Enabled(s, step)
  {
    step.Request? && !Throttled(c, s.rows, step.latest, s.clock)
  }

  ghost function AnswerTo(s: World, step: Step): Answer
    requires Enabled(s, step) && step.Verify?
  {
    Guess(s.rows, step.latest, step.hash, s.clock, step.userOk).1
  }

  ghost function Apply(c: Config, s: World, step: Step): World
    requires Enabled(s, step)
  {
    match step
    case Tick(to) => s.(clock := to)
    case Request(email, purpose, id, hash, latest) =>
      if Issues(c, s, step) then s.(rows := s.rows[id := NewChallenge(c, email, purpose, hash, s.clock)]) else s
    case Verify(_, hash, userOk, latest) => s.(rows := Guess(s.rows, latest, hash, s.clock, userOk).0)
  }

  ghost predicate Valid(c: Config, s: World, steps: seq<Step>)
    decreases |steps|
  {
    steps == [] || (Enabled(s, steps[0]) && Valid(c, Apply(c, s, steps[0]), steps[1..]))
  }

  ghost function Run(c: Config, s: World, steps: seq<Step>): World
    requires Valid(c, s, steps)
    decreases |steps|
  {
    if steps == [] then s else Run(c, Apply(c, s, steps[0]), steps[1..])
  }

  ghost predicate IsAnswer(s: World, step: Step, email: Email, answer: Answer)
    requires Enabled(s, step)
  {
    step.Verify? && step.email == email && AnswerTo(s, step) == answer
  }

  ghost predicate IsWrong(s: World, step: Step, email: Email)
    requires Enabled(s, step)
  {
    IsAnswer(s, step, email, Rejected(Mismatch)) || IsAnswer(s, step, email, Rejected(ExpiredCode))
  }

  /** Guesses at an address answered "mismatch" or "expired". */
  ghost function Wrong(c: Config, s: World, steps: seq<Step>, email: Email): nat
    requires Valid(c, s, steps)
    decreases |steps|
  {
    if steps == [] then 0
    else (if IsWrong(s, steps[0], email) then 1 else 0) + Wrong(c, Apply(c, s, steps[0]), steps[1..], email)
  }

  ghost function Issued(c: Config, s: World, steps: seq<Step>, email: Email): nat
    requires Valid(c, s, steps)
    decreases |steps|
  {
    if steps == [] then 0
    else
      (if IssuesFor(c, s, steps[0], email) then 1 else 0)
      + Issued(c, Apply(c, s, steps[0]), steps[1..], email)
  }

  ghost predicate NoneAccepted(c: Config, s: World, steps: seq<Step>, email: Email)
    requires Valid(c, s, steps)
    decreases |steps|
  {
    steps == []
    || (!IsAnswer(s, steps[0], email, Accepted) && NoneAccepted(c, Apply(c, s, steps[0]), steps[1..], email))
  }

  /** Live codes for one address and purpose are issued at different times, so there is
      one newest; all rows carry the configured limit. */
  ghost predicate Inv(c: Config, s: World) {
    && (forall id :: id in s.rows ==> s.rows[id].maxAttempts == c.maxAttempts && s.rows[id].createdAt <= s.clock)
    && (forall a, b :: a in s.rows && b in s.rows && SameSlot(s.rows, a, b) ==>
          s.rows[a].createdAt == s.rows[b].createdAt ==> a == b)
  }

  predicate SameSlot(t: Table, a: Id, b: Id)
    requires a in t && b in t
  {
    Live(t, t[a].email, t[a].purpose, b) && t[a].consumedAt.None?
  }

  lemma RequestKeepsInv(c: Config, s: World, step: Step)
    requires c.cooldown > 0 && Inv(c, s) && Enabled(s, step) && step.Request?
    ensures Inv(c, Apply(c, s, step))
  {
    if Issues(c, s, step) {
      forall a | Live(s.rows, step.email, step.purpose, a) ensures s.rows[a].createdAt < s.clock {
        assert step.latest.Some?;
      }
    }
  }

  lemma VerifyKeepsInv(c: Config, s: World, step: Step)
    requires Inv(c, s) && Enabled(s, step) && step.Verify?
    ensures Inv(c, Apply(c, s, step))
  {
    var t, t' := s.rows, Apply(c, s, step).rows;
    forall id | id in t'
      ensures id in t && t'[id] == t[id].(attempts := t'[id].attempts, consumedAt := t'[id].consumedAt)
    {
    }
    forall a, b | a in t' && b in t' && SameSlot(t', a, b) ensures SameSlot(t, a, b) {
    }
  }

  lemma StepKeepsInv(c: Config, s: World, step: Step)
    requires c.cooldown > 0 && Inv(c, s) && Enabled(s, step)
    ensures Inv(c, Apply(c, s, step)) && s.clock <= Apply(c, s, step).clock
  {
    if step.Request? {
      RequestKeepsInv(c, s, step);
    } else if step.Verify? {
      VerifyKeepsInv(c, s, step);
    }
  }

  lemma {:induction false} RunKeepsInv(c: Config, s: World, steps: seq<Step>)
    requires c.cooldown > 0 && Inv(c, s) && Valid(c, s, steps)
    ensures Inv(c, Run(c, s, steps)) && s.clock <= Run(c, s, steps).clock
    decreases |steps|
  {
    if steps != [] {
      StepKeepsInv(c, s, steps[0]);
      RunKeepsInv(c, Apply(c, s, steps[0]), steps[1..]);
    }
  }

  // ------------------------------------------------------------ guess bound

  lemma NewestIsOne(c: Config, s: World, email: Email, a: Option<Id>, b: Option<Id>)
    requires Inv(c, s) && IsLatestLive(s.rows, email, Login, a) && IsLatestLive(s.rows, email, Login, b)
    ensures a == b
  {
    if a.Some? && b.Some? {
      assert SameSlot(s.rows, a.value, b.value);
    }
  }

  function TriesLeft(t: Table, latest: Option<Id>): nat
    requires latest.Some? ==> latest.value in t
  {
    if latest.Some? && t[latest.value].attempts < t[latest.value].maxAttempts
    then t[latest.value].maxAttempts - t[latest.value].attempts
    else 0
  }

  ghost predicate IssuesFor(c: Config, s: World, step: Step, email: Email)
    requires Enabled(s, step)
  {
    Issues(c, s, step) && step.email == email && step.purpose == Login
  }

  /** How the newest live code moves in a step that accepts nothing: it becomes the one
      just issued, at least a cooldown younger, or it stays and a guess uses up a try. */
  ghost predicate NewestMoves(c: Config, s: World, step: Step, email: Email, latest: Option<Id>, latest': Option<Id>)
    requires Enabled(s, step) && IsLatestLive(s.rows, email, Login, latest)
  {
    var t' := Apply(c, s, step).rows;
    && IsLatestLive(t', email, Login, latest')
    && (if IssuesFor(c, s, step, email)
        then
          && !IsWrong(s, step, email)
          && latest'.Some? && t'[latest'.value].createdAt == s.clock
          && TriesLeft(t', latest') == c.maxAttempts
          && (latest.Some? ==> s.rows[latest.value].createdAt + c.cooldown <= s.clock)
        else
          && latest' == latest
          && (latest.Some? ==> t'[latest.value].createdAt == s.rows[latest.value].createdAt)
          && TriesLeft(t', latest) + (if IsWrong(s, step, email) then 1 else 0) <= TriesLeft(s.rows, latest))
  }

  lemma RequestMovesNewest(c: Config, s: World, step: Step, email: Email, latest: Option<Id>)
    returns (latest': Option<Id>)
    requires c.cooldown > 0 && Inv(c, s) && Enabled(s, step) && step.Request?
    requires IsLatestLive(s.rows, email, Login, latest)
    ensures NewestMoves(c, s, step, email, latest, latest')
  {
    latest' := latest;
    var t' := Apply(c, s, step).rows;
    if IssuesFor(c, s, step, email) {
      NewestIsOne(c, s, email, latest, step.latest);
      latest' := Some(step.id);
      forall x | Live(t', email, Login, x) ensures t'[x].createdAt <= s.clock {}
    } else {
      forall x ensures Live(t', email, Login, x) <==> Live(s.rows, email, Login, x) {}
    }
  }

  lemma VerifyMovesNewest(c: Config, s: World, step: Step, email: Email, latest: Option<Id>)
    requires Inv(c, s) && Enabled(s, step) && step.Verify? && !IsAnswer(s, step, email, Accepted)
    requires IsLatestLive(s.rows, email, Login, latest)
    ensures NewestMoves(c, s, step, email, latest, latest)
  {
    var t' := Apply(c, s, step).rows;
    if step.latest.Some? {
      MatchedMeansBurned(s.rows[step.latest.value], step.hash, s.clock);
    }
    forall x ensures Live(t', email, Login, x) <==> Live(s.rows, email, Login, x) {}
    if step.email == email {
      NewestIsOne(c, s, email, latest, step.latest);
    }
  }

  lemma StepMovesNewest(c: Config, s: World, step: Step, email: Email, latest: Option<Id>) returns (latest': Option<Id>)
    requires c.cooldown > 0 && Inv(c, s) && Enabled(s, step) && !IsAnswer(s, step, email, Accepted)
    requires IsLatestLive(s.rows, email, Login, latest)
    ensures NewestMoves(c, s, step, email, latest, latest')
  {
    latest' := latest;
    match step
    case Tick(_) =>
    case Request(_, _, _, _, _) => latest' := RequestMovesNewest(c, s, step, email, latest);
    case Verify(_, _, _, _) => VerifyMovesNewest(c, s, step, email, latest);
  }

  lemma {:induction false} WrongGuessesUseTries(c: Config, s: World, steps: seq<Step>, email: Email, latest: Option<Id>)
    requires c.cooldown > 0 && Inv(c, s) && Valid(c, s, steps) && NoneAccepted(c, s, steps, email)
    requires IsLatestLive(s.rows, email, Login, latest)
    ensures Wrong(c, s, steps, email) <= TriesLeft(s.rows, latest) + c.maxAttempts * Issued(c, s, steps, email)
    decreases |steps|
  {
    if steps != [] {
      var s' := Apply(c, s, steps[0]);
      StepKeepsInv(c, s, steps[0]);
      var latest' := StepMovesNewest(c, s, steps[0], email, latest);
      WrongGuessesUseTries(c, s', steps[1..], email, latest');
      AddOne(c.maxAttempts, Issued(c, s', steps[1..], email));
    }
  }

  lemma AddOne(k: nat, n: nat)
    ensures k * (n + 1) == k * n + k && (n + 1) * k == n * k + k
  {
  }

  /** `n` codes, the first no earlier than `now` and a cooldown after `created`, each a
      cooldown after the one before, the last no later than `end`. */
  ghost predicate Spaced(c: Config, n: nat, now: Time, created: Option<Time>, end: Time) {
    && now <= end
    && (n > 0 ==> now + (n - 1) * c.cooldown <= end)
    && (n > 0 && created.Some? ==> created.value + n * c.cooldown <= end)
  }

  lemma OneMoreSpaced(c: Config, n: nat, now: Time, created: Option<Time>, end: Time)
    requires Spaced(c, n, now, Some(now), end)
    requires created.Some? ==> created.value + c.cooldown <= now
    ensures Spaced(c, n + 1, now, created, end)
  {
    AddOne(c.cooldown, n);
    if n == 0 {
      assert n * c.cooldown == 0;
    }
  }

  ghost function CreatedAt(t: Table, latest: Option<Id>): Option<Time>
    requires latest.Some? ==> latest.value in t
  {
    if latest.Some? then Some(t[latest.value].createdAt) else None
  }

  lemma {:induction false} IssuesAreSpaced(c: Config, s: World, steps: seq<Step>, email: Email, latest: Option<Id>)
    requires c.cooldown > 0 && Inv(c, s) && Valid(c, s, steps) && NoneAccepted(c, s, steps, email)
    requires IsLatestLive(s.rows, email, Login, latest)
    ensures Spaced(c, Issued(c, s, steps, email), s.clock, CreatedAt(s.rows, latest), Run(c, s, steps).clock)
    decreases |steps|
  {
    if steps != [] {
      var s', end := Apply(c, s, steps[0]), Run(c, s, steps).clock;
      StepKeepsInv(c, s, steps[0]);
      var latest' := StepMovesNewest(c, s, steps[0], email, latest);
      IssuesAreSpaced(c, s', steps[1..], email, latest');
      if IssuesFor(c, s, steps[0], email) {
        OneMoreSpaced(c, Issued(c, s', steps[1..], email), s.clock, CreatedAt(s.rows, latest), end);
      }
    }
  }

  /** The guess bound. Over any stretch of a run in which no code for the address is
      accepted, with a positive cooldown, at most `maxAttempts * (T / cooldown + 2)`
      guesses are answered "mismatch" or "expired", T being the time the stretch takes. */
  lemma GuessesAreBounded(c: Config, start: World, before: seq<Step>, steps: seq<Step>, email: Email)
    requires c.cooldown > 0 && start.rows == map[] && Valid(c, start, before)
    requires Valid(c, Run(c, start, before), steps) && NoneAccepted(c, Run(c, start, before), steps, email)
    ensures var s := Run(c, start, before);
            var T := Run(c, s, steps).clock - s.clock;
            Wrong(c, s, steps, email) <= c.maxAttempts * (T / c.cooldown + 2)
  {
    RunKeepsInv(c, start, before);
    var s := Run(c, start, before);
    var T := Run(c, s, steps).clock - s.clock;
    RunKeepsInv(c, s, steps);
    var latest := PickLatest(s.rows, email);
    WrongGuessesUseTries(c, s, steps, email, latest);
    IssuesAreSpaced(c, s, steps, email, latest);
    var n := Issued(c, s, steps, email);
    IssuesFit(n, c.cooldown, T);
    TimesMonotone(c.maxAttempts, n + 1, T / c.cooldown + 2);
    AddOne(c.maxAttempts, n);
    assert TriesLeft(s.rows, latest) <= c.maxAttempts;
  }

  lemma PickLatest(t: Table, email: Email) returns (latest: Option<Id>)
    ensures IsLatestLive(t, email, Login, latest)
  {
    latest := None;
    var rest := set id | id in t && Live(t, email, Login, id);
    var all := rest;
    while rest != {}
      invariant rest <= all && (latest.None? ==> rest == all) && (latest.Some? ==> latest.value in all)
      invariant latest.Some? ==> forall id :: id in all && id !in rest ==> t[id].createdAt <= t[latest.value].createdAt
      decreases |rest|
    {
      var id :| id in rest;
      if latest.None? || t[id].createdAt > t[latest.value].createdAt {
        latest := Some(id);
      }
      rest := rest - {id};
    }
    assert forall id :: Live(t, email, Login, id) ==> id in all;
  }

  lemma TimesMonotone(k: nat, a: nat, b: nat)
    requires a <= b
    ensures k * a <= k * b
  {
  }

  lemma IssuesFit(n: nat, cooldown: nat, T: nat)
    requires cooldown > 0 && (n > 0 ==> (n - 1) * cooldown <= T)
    ensures n <= T / cooldown + 1
  {
    if n > T / cooldown + 1 {
      TimesMonotone(cooldown, T / cooldown + 1, n - 1);
      assert false;
    }
  }

  // -------------------------------------------------------- accepted once

  ghost predicate Accepts(s: World, step: Step, id: Id)
    requires Enabled(s, step)
  {
    step.Verify? && step.latest == Some(id) && AnswerTo(s, step) == Accepted
  }

  ghost function Acceptances(c: Config, s: World, steps: seq<Step>, id: Id): nat
    requires Valid(c, s, steps)
    decreases |steps|
  {
    if steps == [] then 0
    else (if Accepts(s, steps[0], id) then 1 else 0) + Acceptances(c, Apply(c, s, steps[0]), steps[1..], id)
  }

  predicate Burned(t: Table, id: Id) {
    id in t && t[id].consumedAt.Some?
  }

  lemma StepKeepsBurned(c: Config, s: World, step: Step, id: Id)
    requires Enabled(s, step)
    ensures Burned(s.rows, id) ==> Burned(Apply(c, s, step).rows, id) && !Accepts(s, step, id)
    ensures Accepts(s, step, id) ==> Burned(Apply(c, s, step).rows, id)
  {
    if step.Verify? && step.latest.Some? {
      MatchedMeansBurned(s.rows[step.latest.value], step.hash, s.clock);
    }
  }

  /** Requests are served exactly when the newest live code of the slot is as old as the
      cooldown, or there is none; and then the new code lives for its whole lifetime. */
  lemma RequestMeans(c: Config, s: World, step: Step)
    requires step.Request? && Enabled(s, step)
    ensures var s' := Apply(c, s, step);
            var served := forall x :: Live(s.rows, step.email, step.purpose, x) ==>
                            s.rows[x].createdAt + c.cooldown <= s.clock;
            && s'.clock == s.clock
            && (served ==>
                  s'.rows == s.rows[step.id := Challenge(step.email, step.purpose, step.hash, s.clock,
                                                         s.clock + c.ttl, 0, c.maxAttempts, None)])
            && (!served ==> s' == s)
  {
  }

  /** A code is accepted at most once, and a burned one never again. */
  lemma {:induction false} AcceptedAtMostOnce(c: Config, s: World, steps: seq<Step>, id: Id)
    requires Valid(c, s, steps)
    ensures Acceptances(c, s, steps, id) <= if Burned(s.rows, id) then 0 else 1
    decreases |steps|
  {
    if steps != [] {
      StepKeepsBurned(c, s, steps[0], id);
      AcceptedAtMostOnce(c, Apply(c, s, steps[0]), steps[1..], id);
    }
  }
}
