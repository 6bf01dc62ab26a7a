/** Refresh rotation with family reuse detection.

    Every transaction is one atomic step. Answering a reused token takes two: the first
    finds the token spent and commits nothing, the second revokes the family, and any
    other call may run in between. A secret is represented by its digest, so digests of
    newly minted secrets are new. */
module RefreshTokens {
  import opened Wrappers

  type Id = nat
  type UserId = nat
  type Digest = nat
  type Call = nat
  type Time = int

  datatype Reason = ReuseDetected | UserRevoked | PasswordChanged

  datatype Revocation = Revocation(at: Time, reason: Reason)

  datatype Token = Token(
    user: UserId,
    family: Id,
    hash: Digest,
    expiresAt: Time,
    consumedAt: Option<Time>,
    replacedBy: Option<Id>,
    revoked: Option<Revocation>)

  type Table = map<Id, Token>

  datatype Outcome =
    | Unknown
    | Revoked
    | Expired
    | UserRefused
    | Rotated(successor: Id)
    | Spent(family: Id)

  // ------------------------------------------------------------- statements

  function NewToken(user: UserId, family: Id, hash: Digest, expiresAt: Time): Token {
    Token(user, family, hash, expiresAt, None, None, None)
  }

  function Revoke(tok: Token, now: Time, reason: Reason): Token {
    if tok.revoked.None? then tok.(revoked := Some(Revocation(now, reason))) else tok
  }

  function RevokeFamily(t: Table, family: Id, now: Time, reason: Reason): Table {
    map id | id in t :: if t[id].family == family then Revoke(t[id], now, reason) else t[id]
  }

  function RevokeUser(t: Table, user: UserId, now: Time, reason: Reason): Table {
    map id | id in t :: if t[id].user == user then Revoke(t[id], now, reason) else t[id]
  }

  ghost predicate HashesUnique(t: Table) {
    forall a, b :: a in t && b in t && t[a].hash == t[b].hash ==> a == b
  }

  predicate HashIsNew(t: Table, hash: Digest) {
    forall id :: id in t ==> t[id].hash != hash
  }

  ghost function Lookup(t: Table, hash: Digest): (found: Option<Id>)
    ensures found.Some? ==> found.value in t && t[found.value].hash == hash
    ensures found.None? ==> HashIsNew(t, hash)
  {
    if HashIsNew(t, hash) then None else var id :| id in t && t[id].hash == hash; Some(id)
  }

  function Rotate(t: Table, id: Id, now: Time, newId: Id, newHash: Digest, expiresAt: Time): Table
    requires id in t
  {
    t[id := t[id].(consumedAt := Some(now), replacedBy := Some(newId))]
     [newId := NewToken(t[id].user, t[id].family, newHash, expiresAt)]
  }

  /** What the first transaction of a refresh commits, and its answer. */
  ghost function Refresh(
    t: Table, hash: Digest, now: Time, newId: Id, newHash: Digest, expiresAt: Time, userOk: bool)
    : (Table, Outcome)
  {
    match Lookup(t, hash)
    case None => (t, Unknown)
    case Some(id) =>
      var tok := t[id];
      if tok.revoked.Some? then (t, Revoked)
      else if tok.expiresAt <= now then (t, Expired)
      else if tok.consumedAt.Some? then (t, Spent(tok.family))
      else if !userOk then (t, UserRefused)
      else (Rotate(t, id, now, newId, newHash, expiresAt), Rotated(newId))
  }

  ghost function SignOut(t: Table, hash: Option<Digest>, user: UserId, all: bool, now: Time): Table {
    if all || hash.None? then RevokeUser(t, user, now, UserRevoked)
    else
      var found := Lookup(t, hash.value);
      if found.None? || t[found.value].user != user then t
      else RevokeFamily(t, t[found.value].family, now, UserRevoked)
  }

  /** Signing out reaches all rows of the user, if asked to or if no token is presented, and
      else those of the presented token's family, if that token is the user's. */
  ghost predicate InScope(t: Table, hash: Option<Digest>, user: UserId, all: bool, id: Id)
    requires id in t
  {
    if all || hash.None? then t[id].user == user
    else exists x :: x in t && t[x].hash == hash.value && t[x].user == user && t[id].family == t[x].family
  }

  /** The rows that were live before and are revoked now. */
  function NewlyRevoked(t: Table, t': Table): set<Id> {
    set id | id in t && id in t' && t[id].revoked.None? && t'[id].revoked.Some?
  }

  /** Every answer to a refresh, and what it commits, told from the row that has the digest:
      a revoked one comes before an expired one and that before a spent one, which names the
      family to revoke; only a live, unspent token of an active user is traded in, for one
      new row of the same user and family. */
  lemma RefreshAnswers(
    t: Table, hash: Digest, now: Time, newId: Id, newHash: Digest, expiresAt: Time, userOk: bool, id: Id)
    requires HashesUnique(t) && newId !in t
    ensures var (t', answer) := Refresh(t, hash, now, newId, newHash, expiresAt, userOk);
            && ((forall x :: x in t ==> t[x].hash != hash) <==> answer == Unknown)
            && (!answer.Rotated? ==> t' == t)
            && (id in t && t[id].hash == hash ==>
                  && answer == (if t[id].revoked.Some? then Revoked
                                else if t[id].expiresAt <= now then Expired
                                else if t[id].consumedAt.Some? then Spent(t[id].family)
                                else if userOk then Rotated(newId)
                                else UserRefused)
                  && (answer.Rotated? ==>
                        t' == t[id := t[id].(consumedAt := Some(now), replacedBy := Some(newId))]
                               [newId := Token(t[id].user, t[id].family, newHash, expiresAt, None, None, None)]))
  {
  }

  /** Revoking touches the live rows of the family, or of the user, and nothing else. */
  lemma RevokingMeans(t: Table, family: Id, user: UserId, now: Time, reason: Reason)
    ensures var byFamily, byUser := RevokeFamily(t, family, now, reason), RevokeUser(t, user, now, reason);
            && byFamily.Keys == byUser.Keys == t.Keys
            && forall id :: id in t ==>
                 var revoked := t[id].(revoked := Some(Revocation(now, reason)));
                 && byFamily[id] == (if t[id].family == family && t[id].revoked.None? then revoked else t[id])
                 && byUser[id] == (if t[id].user == user && t[id].revoked.None? then revoked else t[id])
  {
  }

  // -------------------------------------------------------- the token table

  class Registry {
    var tokens: Table
    var passwords: map<UserId, Digest>

    constructor ()
      ensures tokens == map[] && passwords == map[]
    {
      tokens, passwords := map[], map[];
    }

    method Create(id: Id, user: UserId, family: Id, hash: Digest, expiresAt: Time)
      requires id !in tokens
      modifies this`tokens
      ensures tokens == old(tokens)[id := Token(user, family, hash, expiresAt, None, None, None)]
    {
      tokens := tokens[id := NewToken(user, family, hash, expiresAt)];
    }

    method FindByHash(hash: Digest) returns (found: Option<Id>)
      requires HashesUnique(tokens)
      ensures found == Lookup(tokens, hash)
      ensures forall id :: id in tokens ==> (tokens[id].hash == hash <==> found == Some(id))
    {
      var rest := tokens.Keys;
      while rest != {}
        invariant rest <= tokens.Keys
        invariant forall id :: id in tokens && id !in rest ==> tokens[id].hash != hash
        decreases |rest|
      {
        var id :| id in rest;
        if tokens[id].hash == hash {
          return Some(id);
        }
        rest := rest - {id};
      }
      return None;
    }

    /** The predicate on `consumed_at` picks the winner of a race. */
    method Consume(id: Id, replacedBy: Id, now: Time) returns (won: bool)
      modifies this`tokens
      ensures won == (id in old(tokens) && old(tokens)[id].consumedAt.None? && old(tokens)[id].revoked.None?)
      ensures won ==>
                tokens == old(tokens)[id := old(tokens)[id].(consumedAt := Some(now), replacedBy := Some(replacedBy))]
      ensures !won ==> tokens == old(tokens)
    {
      won := id in tokens && tokens[id].consumedAt.None? && tokens[id].revoked.None?;
      if won {
        tokens := tokens[id := tokens[id].(consumedAt := Some(now), replacedBy := Some(replacedBy))];
      }
    }

    /** The first transaction. A refusal of the user comes after the token was consumed,
        so the rollback has something to undo. */
    method RefreshFirst(hash: Digest, now: Time, newId: Id, newHash: Digest, expiresAt: Time, userOk: bool)
      returns (outcome: Outcome)
      requires HashesUnique(tokens) && newId !in tokens
      modifies this`tokens
      ensures (tokens, outcome) == Refresh(old(tokens), hash, now, newId, newHash, expiresAt, userOk)
      ensures outcome == Unknown <==> forall id :: id in old(tokens) ==> old(tokens)[id].hash != hash
      ensures forall id :: id in old(tokens) && old(tokens)[id].hash == hash ==>
                var tok := old(tokens)[id];
                && (outcome == Revoked <==> tok.revoked.Some?)
                && (outcome == Expired <==> tok.revoked.None? && tok.expiresAt <= now)
                && (outcome == Spent(tok.family) <==>
                      tok.revoked.None? && tok.expiresAt > now && tok.consumedAt.Some?)
                && (outcome == Rotated(newId) <==>
                      tok.revoked.None? && tok.expiresAt > now && tok.consumedAt.None? && userOk)
                && (outcome.Rotated? ==>
                      tokens == old(tokens)[id := tok.(consumedAt := Some(now), replacedBy := Some(newId))]
                                [newId := Token(tok.user, tok.family, newHash, expiresAt, None, None, None)])
      ensures !outcome.Rotated? ==> tokens == old(tokens)
    {
      var found := FindByHash(hash);
      if found.None? {
        return Unknown;
      }
      var tok := tokens[found.value];
      if tok.revoked.Some? {
        return Revoked;
      }
      if tok.expiresAt <= now {
        return Expired;
      }
      var snapshot := tokens;
      var won := Consume(found.value, newId, now);
      if !won {
        return Spent(tok.family);
      }
      if !userOk {
        tokens := snapshot;
        return UserRefused;
      }
      Create(newId, tok.user, tok.family, newHash, expiresAt);
      return Rotated(newId);
    }

    /** The second transaction, run only after `Spent`. */
    method RefreshSecond(family: Id, now: Time) returns (revoked: nat)
      modifies this`tokens
      ensures tokens == RevokeFamily(old(tokens), family, now, ReuseDetected)
      ensures tokens.Keys == old(tokens).Keys && forall id :: id in tokens ==>
                var tok := old(tokens)[id];
                tokens[id] == if tok.family == family && tok.revoked.None?
                              then tok.(revoked := Some(Revocation(now, ReuseDetected))) else tok
      ensures revoked == |NewlyRevoked(old(tokens), tokens)|
    {
      var before := tokens;
      var live := set id | id in tokens && tokens[id].family == family && tokens[id].revoked.None?;
      tokens := RevokeFamily(tokens, family, now, ReuseDetected);
      assert live == NewlyRevoked(before, tokens);
      revoked := |live|;
    }

    method RevokeSession(hash: Option<Digest>, user: UserId, all: bool, now: Time) returns (revoked: nat)
      requires HashesUnique(tokens)
      modifies this`tokens
      ensures tokens == SignOut(old(tokens), hash, user, all, now)
      ensures tokens.Keys == old(tokens).Keys && forall id :: id in tokens ==>
                var tok := old(tokens)[id];
                tokens[id] == if InScope(old(tokens), hash, user, all, id) && tok.revoked.None?
                              then tok.(revoked := Some(Revocation(now, UserRevoked))) else tok
      ensures revoked == |NewlyRevoked(old(tokens), tokens)|
    {
      var before := tokens;
      if all || hash.None? {
        var live := set id | id in tokens && tokens[id].user == user && tokens[id].revoked.None?;
        tokens := RevokeUser(tokens, user, now, UserRevoked);
        assert live == NewlyRevoked(before, tokens);
        return |live|;
      }
      var found := FindByHash(hash.value);
      if found.None? || tokens[found.value].user != user {
        assert NewlyRevoked(before, tokens) == {};
        return 0;
      }
      var family := tokens[found.value].family;
      var live := set id | id in tokens && tokens[id].family == family && tokens[id].revoked.None?;
      tokens := RevokeFamily(tokens, family, now, UserRevoked);
      assert live == NewlyRevoked(before, tokens);
      return |live|;
    }

    method SetAdminPassword(user: UserId, isAdmin: bool, hash: Digest, now: Time) returns (accepted: bool)
      modifies this
      ensures accepted == isAdmin
      ensures passwords == if isAdmin then old(passwords)[user := hash] else old(passwords)
      ensures tokens == if isAdmin then RevokeUser(old(tokens), user, now, PasswordChanged) else old(tokens)
      ensures tokens.Keys == old(tokens).Keys && forall id :: id in tokens ==>
                var tok := old(tokens)[id];
                tokens[id] == if isAdmin && tok.user == user && tok.revoked.None?
                              then tok.(revoked := Some(Revocation(now, PasswordChanged))) else tok
    {
      accepted := isAdmin;
      if isAdmin {
        passwords := passwords[user := hash];
        tokens := RevokeUser(tokens, user, now, PasswordChanged);
      }
    }
  }

  // ------------------------------------------------------------------- runs

  /** `pending` holds the calls that found a token spent and have yet to revoke. */
  datatype World = World(tokens: Table, pending: map<Call, Id>)

  datatype Step =
    | SignIn(user: UserId, id: Id, hash: Digest, expiresAt: Time)
    | First(call: Call, hash: Digest, now: Time, newId: Id, newHash: Digest, expiresAt: Time, userOk: bool)
    | Second(call: Call, now: Time)
    | Die(call: Call)
    | Leave(presented: Option<Digest>, user: UserId, all: bool, now: Time)
    | ChangePassword(user: UserId, now: Time)

  const EMPTY := World(map[], map[])

  predicate Enabled(s: World, step: Step) {
    match step
    case SignIn(_, id, hash, _) => id !in s.tokens && HashIsNew(s.tokens, hash)
    case First(call, _, _, newId, newHash, _, _) =>
      call !in s.pending && newId !in s.tokens && HashIsNew(s.tokens, newHash)
    case Second(call, _) => call in s.pending
    case Die(call) => call in s.pending
    case Leave(_, _, _, _) => true
    case ChangePassword(_, _) => true
  }

  ghost function FirstResult(s: World, step: Step): (Table, Outcome)
    requires step.First?
  {
    Refresh(s.tokens, step.hash, step.now, step.newId, step.newHash, step.expiresAt, step.userOk)
  }

  ghost function Apply(s: World, step: Step): World
    requires Enabled(s, step)
  {
    match step
    case SignIn(user, id, hash, expiresAt) => s.(tokens := s.tokens[id := NewToken(user, id, hash, expiresAt)])
    case First(call, _, _, _, _, _, _) =>
      var (t, outcome) := FirstResult(s, step);
      World(t, if outcome.Spent? then s.pending[call := outcome.family] else s.pending)
    case Second(call, now) => World(RevokeFamily(s.tokens, s.pending[call], now, ReuseDetected), s.pending - {call})
    case Die(call) => s.(pending := s.pending - {call})
    case Leave(hash, user, all, now) => s.(tokens := SignOut(s.tokens, hash, user, all, now))
    case ChangePassword(user, now) => s.(tokens := RevokeUser(s.tokens, user, now, PasswordChanged))
  }

  ghost predicate Valid(s: World, steps: seq<Step>)
    decreases |steps|
  {
    steps == [] || (Enabled(s, steps[0]) && Valid(Apply(s, steps[0]), steps[1..]))
  }

  ghost function Run(s: World, steps: seq<Step>): World
    requires Valid(s, steps)
    decreases |steps|
  {
    if steps == [] then s else Run(Apply(s, steps[0]), steps[1..])
  }

  /** Presenting a spent token of a live family leaves the call pending under that family,
      and when the call goes on the whole family is revoked for reuse. */
  lemma ReuseIsDetected(s: World, step: Step, id: Id, later: Time)
    requires HashesUnique(s.tokens) && step.First? && Enabled(s, step)
    requires id in s.tokens && s.tokens[id].hash == step.hash
    requires s.tokens[id].revoked.None? && step.now < s.tokens[id].expiresAt && s.tokens[id].consumedAt.Some?
    ensures var family, s1 := s.tokens[id].family, Apply(s, step);
            && s1 == World(s.tokens, s.pending[step.call := family])
            && Enabled(s1, Second(step.call, later))
            && var t := Apply(s1, Second(step.call, later)).tokens;
               forall x :: x in s.tokens && s.tokens[x].family == family ==>
                 && x in t && t[x].revoked.Some?
                 && (s.tokens[x].revoked.None? ==> t[x].revoked == Some(Revocation(later, ReuseDetected)))
  {
    RefreshAnswers(s.tokens, step.hash, step.now, step.newId, step.newHash, step.expiresAt, step.userOk, id);
  }

  /** A live, unspent token is traded in, and its family grows by exactly the new row. */
  lemma RotationSucceeds(s: World, step: Step, id: Id)
    requires HashesUnique(s.tokens) && step.First? && Enabled(s, step) && step.userOk
    requires id in s.tokens && s.tokens[id].hash == step.hash
    requires s.tokens[id].revoked.None? && step.now < s.tokens[id].expiresAt && s.tokens[id].consumedAt.None?
    ensures var s1 := Apply(s, step);
            && s1.pending == s.pending && s1.tokens.Keys == s.tokens.Keys + {step.newId}
            && s1.tokens[id].consumedAt == Some(step.now) && s1.tokens[id].replacedBy == Some(step.newId)
            && s1.tokens[step.newId].family == s.tokens[id].family && s1.tokens[step.newId].user == s.tokens[id].user
            && s1.tokens[step.newId].hash == step.newHash && s1.tokens[step.newId].consumedAt.None?
            && s1.tokens[step.newId].revoked.None?
  {
    RefreshAnswers(s.tokens, step.hash, step.now, step.newId, step.newHash, step.expiresAt, step.userOk, id);
  }

  // --------------------------------------------------------------- families

  /** `p` lists the rows of a family from the row named like the family, each replaced by
      the next, to the one row that has not been consumed. */
  ghost predicate IsPath(t: Table, family: Id, p: seq<Id>) {
    && p != [] && p[0] == family && family in t
    && (forall i :: 0 <= i < |p| ==> p[i] in t && t[p[i]].family == family && t[p[i]].user == t[family].user)
    && (forall i, j :: 0 <= i < j < |p| ==> p[i] != p[j])
    && (forall i :: 0 <= i < |p| - 1 ==> t[p[i]].consumedAt.Some? && t[p[i]].replacedBy == Some(p[i + 1]))
    && t[p[|p| - 1]].consumedAt.None? && t[p[|p| - 1]].replacedBy.None?
    && (forall id :: id in t && t[id].family == family ==> id in p)
  }

  ghost predicate FamilyRevoked(t: Table, family: Id) {
    forall id :: id in t && t[id].family == family ==> t[id].revoked.Some?
  }

  ghost predicate FamilyLive(t: Table, family: Id) {
    forall id :: id in t && t[id].family == family ==> t[id].revoked.None?
  }

  ghost predicate Healthy(t: Table, family: Id) {
    (exists p :: IsPath(t, family, p)) && (FamilyRevoked(t, family) || FamilyLive(t, family))
  }

  ghost predicate AllHealthy(t: Table) {
    forall id :: id in t ==> Healthy(t, t[id].family)
  }

  ghost predicate Inv(s: World) {
    && HashesUnique(s.tokens)
    && AllHealthy(s.tokens)
    && PendingNamed(s)
  }

  predicate IsFamily(t: Table, family: Id) {
    family in t && t[family].family == family
  }

  lemma FamilyHasOneUser(t: Table, a: Id, b: Id)
    requires a in t && b in t && t[a].family == t[b].family && Healthy(t, t[a].family)
    ensures t[a].user == t[b].user && IsFamily(t, t[a].family)
  {
    var p :| IsPath(t, t[a].family, p);
    assert a in p && b in p;
  }

  /** Revoking changes nothing a path depends on. */
  lemma RevokingKeepsHealthy(t: Table, t': Table, family: Id)
    requires Healthy(t, family) && t'.Keys == t.Keys
    requires forall id :: id in t ==> t'[id] == t[id].(revoked := t'[id].revoked)
    requires FamilyRevoked(t', family) || FamilyLive(t', family)
    ensures Healthy(t', family)
  {
    var p :| IsPath(t, family, p);
    assert IsPath(t', family, p);
  }

  lemma RevokeFamilyKeepsHealthy(t: Table, closed: Id, now: Time, reason: Reason, family: Id)
    requires Healthy(t, family)
    ensures Healthy(RevokeFamily(t, closed, now, reason), family)
  {
    var t' := RevokeFamily(t, closed, now, reason);
    assert FamilyRevoked(t', family) || FamilyLive(t', family) by {
      if closed != family {
        assert forall id :: id in t && t[id].family == family ==> t'[id] == t[id];
      }
    }
    RevokingKeepsHealthy(t, t', family);
  }

  lemma RevokeUserKeepsHealthy(t: Table, user: UserId, now: Time, reason: Reason, family: Id)
    requires Healthy(t, family)
    ensures Healthy(RevokeUser(t, user, now, reason), family)
  {
    var t' := RevokeUser(t, user, now, reason);
    var p :| IsPath(t, family, p);
    forall id | id in t && t[id].family == family ensures t[id].user == t[family].user {
      assert id in p;
    }
    RevokingKeepsHealthy(t, t', family);
  }

  /** Every family is named after one of its rows. */
  ghost predicate FamiliesNamed(t: Table) {
    forall id :: id in t ==> IsFamily(t, t[id].family)
  }

  lemma HealthyFamiliesAreNamed(t: Table)
    requires AllHealthy(t)
    ensures FamiliesNamed(t)
  {
    forall id | id in t ensures IsFamily(t, t[id].family) {
      FamilyHasOneUser(t, id, id);
    }
  }

  /** A new family is a path of one row. */
  lemma NewFamilyIsHealthy(t: Table, user: UserId, id: Id, hash: Digest, expiresAt: Time)
    requires id !in t && FamiliesNamed(t)
    ensures Healthy(t[id := NewToken(user, id, hash, expiresAt)], id)
  {
    assert IsPath(t[id := NewToken(user, id, hash, expiresAt)], id, [id]);
  }

  lemma SignInKeepsHealthy(t: Table, user: UserId, id: Id, hash: Digest, expiresAt: Time, family: Id)
    requires id !in t && Healthy(t, family)
    ensures Healthy(t[id := NewToken(user, id, hash, expiresAt)], family)
  {
    var t' := t[id := NewToken(user, id, hash, expiresAt)];
    var p :| IsPath(t, family, p);
    assert forall x :: x in t' && t'[x].family == family ==> x in t;
    assert IsPath(t', family, p);
  }

  /** A rotation extends its own family's path by one row and leaves the others alone. */
  lemma RotationKeepsHealthy(t: Table, id: Id, now: Time, newId: Id, newHash: Digest, expiresAt: Time, family: Id)
    requires id in t && newId !in t && t[id].consumedAt.None? && t[id].revoked.None? && Healthy(t, family)
    ensures Healthy(Rotate(t, id, now, newId, newHash, expiresAt), family)
  {
    var t' := Rotate(t, id, now, newId, newHash, expiresAt);
    var p :| IsPath(t, family, p);
    if t[id].family == family {
      assert id in p && p[|p| - 1] == id;
      RotationExtendsPath(t, id, now, newId, newHash, expiresAt, p);
    } else {
      assert id !in p;
      assert IsPath(t', family, p);
    }
  }

  lemma RotationExtendsPath(t: Table, id: Id, now: Time, newId: Id, newHash: Digest, expiresAt: Time, p: seq<Id>)
    requires id in t && newId !in t && IsPath(t, t[id].family, p) && p[|p| - 1] == id
    ensures IsPath(Rotate(t, id, now, newId, newHash, expiresAt), t[id].family, p + [newId])
  {
    var t' := Rotate(t, id, now, newId, newHash, expiresAt);
    var p' := p + [newId];
    forall x | x in t' && t'[x].family == t[id].family ensures x in p' {
      assert x == newId || x in p;
    }
    forall i | 0 <= i < |p'| - 1 ensures t'[p'[i]].consumedAt.Some? && t'[p'[i]].replacedBy == Some(p'[i + 1]) {
      assert i < |p| - 1 ==> t'[p[i]] == t[p[i]];
    }
  }

  /** What every step leaves alone: rows stay, with their user, family and digest, and
      stay consumed or revoked. The step's own new row is the only addition. */
  ghost predicate Evolves(t: Table, t': Table) {
    forall id :: id in t ==>
      && id in t'
      && t'[id].user == t[id].user && t'[id].family == t[id].family && t'[id].hash == t[id].hash
      && (t[id].consumedAt.Some? ==> t'[id].consumedAt == t[id].consumedAt)
      && (t[id].revoked.Some? ==> t'[id] == t[id])
  }

  lemma FirstRotates(s: World, step: Step) returns (id: Id)
    requires step.First? && Enabled(s, step) && FirstResult(s, step).1.Rotated?
    ensures id in s.tokens && s.tokens[id].hash == step.hash
    ensures s.tokens[id].consumedAt.None? && s.tokens[id].revoked.None?
    ensures Apply(s, step) == s.(tokens := Rotate(s.tokens, id, step.now, step.newId, step.newHash, step.expiresAt))
  {
    id := Lookup(s.tokens, step.hash).value;
  }

  lemma StepEvolves(s: World, step: Step)
    requires Enabled(s, step)
    ensures Evolves(s.tokens, Apply(s, step).tokens)
  {
    if step.First? && FirstResult(s, step).1.Rotated? {
      var id := FirstRotates(s, step);
    }
  }

  lemma FirstKeepsHealthy(s: World, step: Step, family: Id)
    requires Enabled(s, step) && step.First? && Healthy(s.tokens, family)
    ensures Healthy(Apply(s, step).tokens, family)
  {
    if FirstResult(s, step).1.Rotated? {
      var id := FirstRotates(s, step);
      RotationKeepsHealthy(s.tokens, id, step.now, step.newId, step.newHash, step.expiresAt, family);
    }
  }

  lemma SignOutKeepsHealthy(t: Table, presented: Option<Digest>, user: UserId, all: bool, now: Time, family: Id)
    requires Healthy(t, family)
    ensures Healthy(SignOut(t, presented, user, all, now), family)
  {
    if all || presented.None? {
      RevokeUserKeepsHealthy(t, user, now, UserRevoked, family);
    } else if Lookup(t, presented.value).Some? {
      RevokeFamilyKeepsHealthy(t, t[Lookup(t, presented.value).value].family, now, UserRevoked, family);
    }
  }

  lemma StepKeepsHealthy(s: World, step: Step, family: Id)
    requires Enabled(s, step) && Healthy(s.tokens, family)
    ensures Healthy(Apply(s, step).tokens, family)
  {
    match step
    case SignIn(user, id, hash, expiresAt) => SignInKeepsHealthy(s.tokens, user, id, hash, expiresAt, family);
    case First(_, _, _, _, _, _, _) => FirstKeepsHealthy(s, step, family);
    case Second(call, now) => RevokeFamilyKeepsHealthy(s.tokens, s.pending[call], now, ReuseDetected, family);
    case Die(call) =>
    case Leave(presented, user, all, now) => SignOutKeepsHealthy(s.tokens, presented, user, all, now, family);
    case ChangePassword(user, now) => RevokeUserKeepsHealthy(s.tokens, user, now, PasswordChanged, family);
  }

  /** The only row a step can add is its own new one, in an existing family unless it is a
      sign-in. */
  lemma StepAddsOneRow(s: World, step: Step, x: Id)
    requires Enabled(s, step) && x in Apply(s, step).tokens && x !in s.tokens
    ensures var t' := Apply(s, step).tokens;
            if step.SignIn? then x == step.id && t'[x].family == x && t'[x].hash == step.hash
            else
              && step.First? && FirstResult(s, step).1.Rotated? && x == step.newId && t'[x].hash == step.newHash
              && exists id :: id in s.tokens && s.tokens[id].revoked.None? && s.tokens[id].family == t'[x].family
  {
    if step.First? && FirstResult(s, step).1.Rotated? {
      var id := FirstRotates(s, step);
    }
  }

  lemma StepKeepsInv(s: World, step: Step)
    requires Inv(s) && Enabled(s, step)
    ensures Inv(Apply(s, step))
  {
    var s' := Apply(s, step);
    HealthyFamiliesAreNamed(s.tokens);
    forall x | x in s'.tokens ensures Healthy(s'.tokens, s'.tokens[x].family) {
      if x in s.tokens {
        StepEvolves(s, step);
        StepKeepsHealthy(s, step, s.tokens[x].family);
      } else {
        StepAddsOneRow(s, step, x);
        if step.SignIn? {
          NewFamilyIsHealthy(s.tokens, step.user, step.id, step.hash, step.expiresAt);
        } else {
          var id :| id in s.tokens && s.tokens[id].family == s'.tokens[x].family;
          StepKeepsHealthy(s, step, s.tokens[id].family);
        }
      }
    }
    HashesStayUnique(s, step);
    PendingStayNamed(s, step);
  }

  lemma HashesStayUnique(s: World, step: Step)
    requires HashesUnique(s.tokens) && Enabled(s, step)
    ensures HashesUnique(Apply(s, step).tokens)
  {
    var t' := Apply(s, step).tokens;
    StepEvolves(s, step);
    forall a, b | a in t' && b in t' && t'[a].hash == t'[b].hash ensures a == b {
      if a !in s.tokens {
        StepAddsOneRow(s, step, a);
      }
      if b !in s.tokens {
        StepAddsOneRow(s, step, b);
      }
    }
  }

  ghost predicate PendingNamed(s: World) {
    forall call :: call in s.pending ==> IsFamily(s.tokens, s.pending[call])
  }

  lemma PendingStayNamed(s: World, step: Step)
    requires FamiliesNamed(s.tokens) && PendingNamed(s) && Enabled(s, step)
    ensures PendingNamed(Apply(s, step))
  {
    var s' := Apply(s, step);
    StepEvolves(s, step);
    forall call | call in s'.pending ensures IsFamily(s'.tokens, s'.pending[call]) {
      assert IsFamily(s.tokens, s'.pending[call]);
    }
  }

  lemma {:induction false} RunKeepsInv(s: World, steps: seq<Step>)
    requires Inv(s) && Valid(s, steps)
    ensures Inv(Run(s, steps))
    decreases |steps|
  {
    if steps != [] {
      StepKeepsInv(s, steps[0]);
      RunKeepsInv(Apply(s, steps[0]), steps[1..]);
    }
  }

  lemma OnPath(t: Table, family: Id, p: seq<Id>, x: Id)
    requires IsPath(t, family, p) && x in t && t[x].family == family
    ensures t[x].user == t[family].user && (t[x].consumedAt.None? <==> x == p[|p| - 1])
  {
    assert x in p;
  }

  /** In every reachable state the rows of a family form one simple path of one user, from
      the row named like the family to its only unconsumed row, and they are all revoked
      or all live. */
  lemma FamiliesArePaths(steps: seq<Step>, id: Id) returns (p: seq<Id>)
    requires Valid(EMPTY, steps) && id in Run(EMPTY, steps).tokens
    ensures var t := Run(EMPTY, steps).tokens;
            var family := t[id].family;
            && IsPath(t, family, p)
            && (FamilyRevoked(t, family) || FamilyLive(t, family))
            && (forall x :: x in t && t[x].family == family ==>
                  t[x].user == t[family].user && (t[x].consumedAt.None? <==> x == p[|p| - 1]))
  {
    RunKeepsInv(EMPTY, steps);
    var t := Run(EMPTY, steps).tokens;
    var family := t[id].family;
    assert Healthy(t, family);
    p :| IsPath(t, family, p);
    forall x | x in t && t[x].family == family
      ensures t[x].user == t[family].user && (t[x].consumedAt.None? <==> x == p[|p| - 1])
    {
      OnPath(t, family, p, x);
    }
  }

  // -------------------------------------------------------------- one each

  /** How often a presented digest bought a successor. */
  ghost function Rotations(s: World, steps: seq<Step>, hash: Digest): nat
    requires Valid(s, steps)
    decreases |steps|
  {
    if steps == [] then 0
    else
      (if steps[0].First? && steps[0].hash == hash && FirstResult(s, steps[0]).1.Rotated? then 1 else 0)
      + Rotations(Apply(s, steps[0]), steps[1..], hash)
  }

  ghost predicate Consumed(t: Table, hash: Digest) {
    exists id :: id in t && t[id].hash == hash && t[id].consumedAt.Some?
  }

  lemma StepKeepsConsumed(s: World, step: Step, hash: Digest)
    requires HashesUnique(s.tokens) && Enabled(s, step)
    ensures Consumed(s.tokens, hash) ==> Consumed(Apply(s, step).tokens, hash)
    ensures step.First? && step.hash == hash && FirstResult(s, step).1.Rotated? ==>
              !Consumed(s.tokens, hash) && Consumed(Apply(s, step).tokens, hash)
  {
    var t, t' := s.tokens, Apply(s, step).tokens;
    StepEvolves(s, step);
    if Consumed(t, hash) {
      var id :| id in t && t[id].hash == hash && t[id].consumedAt.Some?;
      assert t'[id].consumedAt.Some?;
    }
    if step.First? && FirstResult(s, step).1.Rotated? {
      var id := FirstRotates(s, step);
      assert t'[id].hash == step.hash && t'[id].consumedAt.Some?;
    }
  }

  /** A secret buys at most one successor in any run. */
  lemma {:induction false} OneSuccessorPerSecret(s: World, steps: seq<Step>, hash: Digest)
    requires HashesUnique(s.tokens) && Valid(s, steps)
    ensures Rotations(s, steps, hash) <= if Consumed(s.tokens, hash) then 0 else 1
    decreases |steps|
  {
    if steps != [] {
      HashesStayUnique(s, steps[0]);
      StepKeepsConsumed(s, steps[0], hash);
      OneSuccessorPerSecret(Apply(s, steps[0]), steps[1..], hash);
    }
  }

  // ----------------------------------------------------------- staying dead

  ghost function FamilyRows(t: Table, family: Id): Table {
    map id | id in t && t[id].family == family :: t[id]
  }

  /** The families a revoking step is about to close. */
  ghost predicate Closes(s: World, step: Step, family: Id)
    requires Enabled(s, step)
  {
    match step
    case Second(call, _) => family == s.pending[call]
    case Leave(hash, user, all, _) =>
      if all || hash.None? then HasFamily(s.tokens, user, family)
      else
        var found := Lookup(s.tokens, hash.value);
        found.Some? && s.tokens[found.value].user == user && s.tokens[found.value].family == family
    case ChangePassword(user, _) => HasFamily(s.tokens, user, family)
    case _ => false
  }

  ghost predicate HasFamily(t: Table, user: UserId, family: Id) {
    exists id :: id in t && t[id].user == user && t[id].family == family
  }

  lemma RevokeUserCloses(t: Table, user: UserId, now: Time, reason: Reason, family: Id)
    requires HasFamily(t, user, family) && Healthy(t, family)
    ensures FamilyRevoked(RevokeUser(t, user, now, reason), family) && IsFamily(t, family)
  {
    var p :| IsPath(t, family, p);
    var id :| id in t && t[id].user == user && t[id].family == family;
    assert id in p;
    forall x | x in t && t[x].family == family ensures t[x].user == user {
      assert x in p;
    }
    assert p[0] in t;
  }

  lemma ClosedIsHealthy(s: World, step: Step, family: Id)
    requires Inv(s) && Enabled(s, step) && Closes(s, step, family)
    ensures Healthy(s.tokens, family) && IsFamily(s.tokens, family)
  {
    HealthyFamiliesAreNamed(s.tokens);
    if step.Second? {
      assert Healthy(s.tokens, s.tokens[s.pending[step.call]].family);
    }
  }

  lemma ClosingRevokes(s: World, step: Step, family: Id)
    requires Healthy(s.tokens, family) && Enabled(s, step) && Closes(s, step, family)
    ensures FamilyRevoked(Apply(s, step).tokens, family)
    ensures FamilyRows(Apply(s, step).tokens, family).Keys == FamilyRows(s.tokens, family).Keys
  {
    match step
    case Second(call, now) =>
    case Leave(presented, user, all, now) =>
      if all || presented.None? {
        RevokeUserCloses(s.tokens, user, now, UserRevoked, family);
      }
    case ChangePassword(user, now) => RevokeUserCloses(s.tokens, user, now, PasswordChanged, family);
  }

  lemma StepKeepsClosed(s: World, step: Step, family: Id)
    requires Enabled(s, step) && IsFamily(s.tokens, family) && FamilyRevoked(s.tokens, family)
    ensures FamilyRows(Apply(s, step).tokens, family) == FamilyRows(s.tokens, family)
    ensures IsFamily(Apply(s, step).tokens, family) && FamilyRevoked(Apply(s, step).tokens, family)
  {
    var t, t' := s.tokens, Apply(s, step).tokens;
    StepEvolves(s, step);
    forall id | id in t' && t'[id].family == family ensures id in t && t[id].family == family && t'[id] == t[id] {
      if id !in t {
        StepAddsOneRow(s, step, id);
      }
    }
    forall id | id in t && t[id].family == family ensures id in t' && t'[id] == t[id] {}
  }

  lemma {:induction false} ClosedStaysClosed(s: World, steps: seq<Step>, family: Id)
    requires Valid(s, steps) && IsFamily(s.tokens, family) && FamilyRevoked(s.tokens, family)
    ensures FamilyRows(Run(s, steps).tokens, family) == FamilyRows(s.tokens, family)
    ensures FamilyRevoked(Run(s, steps).tokens, family)
    decreases |steps|
  {
    if steps != [] {
      StepKeepsClosed(s, steps[0], family);
      ClosedStaysClosed(Apply(s, steps[0]), steps[1..], family);
    }
  }

  /** Once a reuse report, a sign-out or a password change has committed, every row of the
      families it names is revoked, and no continuation adds a row to them or changes one.
      Refreshes that ran before the revocation, even after the reuse was detected, are
      among the rows it kills. */
  lemma RevokedFamiliesStayDead(before: seq<Step>, step: Step, after: seq<Step>, family: Id)
    requires Valid(EMPTY, before)
    requires Enabled(Run(EMPTY, before), step) && Closes(Run(EMPTY, before), step, family)
    requires Valid(Apply(Run(EMPTY, before), step), after)
    ensures var s := Run(EMPTY, before);
            var end := Run(Apply(s, step), after);
            && FamilyRevoked(end.tokens, family)
            && FamilyRows(end.tokens, family) == FamilyRows(Apply(s, step).tokens, family)
            && FamilyRows(end.tokens, family).Keys == FamilyRows(s.tokens, family).Keys
            && family in FamilyRows(end.tokens, family)
  {
    var s := Run(EMPTY, before);
    RunKeepsInv(EMPTY, before);
    ClosedIsHealthy(s, step, family);
    ClosingRevokes(s, step, family);
    StepEvolves(s, step);
    ClosedStaysClosed(Apply(s, step), after, family);
    assert family in FamilyRows(s.tokens, family);
  }
}
