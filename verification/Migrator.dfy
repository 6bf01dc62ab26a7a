/** Ordered, once-only migrations: discovery, the check of the recorded history, and any
    number of runners that start, wait for the lock, apply one file per transaction and
    may crash at any point.

    The schema is represented by the files executed on it, in order. SHA-256 is
    represented by an injective constructor. */
module Migrator {
  import opened Wrappers

  type Version = nat
  type Runner = nat

  datatype Digest = Sha256(text: string)

  datatype File = File(version: Version, name: string, sql: string)

  datatype Record = Record(name: string, checksum: Digest)

  type History = map<Version, Record>

  function Checksum(f: File): Digest {
    Sha256(f.sql)
  }

  predicate InOrder(files: seq<File>) {
    forall i, j :: 0 <= i < j < |files| ==> files[i].version < files[j].version
  }

  // -------------------------------------------------------------- discovery

  /** A directory entry: whether its suffix is `.sql`, and what its name parses to. */
  datatype Entry = Entry(isSql: bool, parsed: Option<(Version, string)>, sql: string)

  datatype DiscoverError = BadName | DuplicateVersion

  predicate Listed(entries: seq<Entry>, i: int) {
    0 <= i < |entries| && entries[i].isSql && entries[i].parsed.Some?
  }

  function FileOf(e: Entry): File
    requires e.parsed.Some?
  {
    File(e.parsed.value.0, e.parsed.value.1, e.sql)
  }

  predicate HasBadName(entries: seq<Entry>) {
    exists i :: 0 <= i < |entries| && entries[i].isSql && entries[i].parsed.None?
  }

  predicate HasDuplicate(entries: seq<Entry>) {
    exists i, j :: 0 <= i < j < |entries| && Listed(entries, i) && Listed(entries, j)
                   && FileOf(entries[i]).version == FileOf(entries[j]).version
  }

  /** `found` holds exactly the files listed so far, each under its version. */
  ghost predicate Holds(entries: seq<Entry>, found: map<Version, File>) {
    && (forall i :: Listed(entries, i) ==>
          FileOf(entries[i]).version in found && found[FileOf(entries[i]).version] == FileOf(entries[i]))
    && (forall v :: v in found ==>
          found[v].version == v && exists i :: Listed(entries, i) && FileOf(entries[i]) == found[v])
  }

  lemma HoldsOneMore(entries: seq<Entry>, n: nat, found: map<Version, File>)
    requires n < |entries| && Holds(entries[..n], found)
    ensures !entries[n].isSql ==> Holds(entries[..n + 1], found)
    ensures Listed(entries, n) && FileOf(entries[n]).version !in found ==>
              Holds(entries[..n + 1], found[FileOf(entries[n]).version := FileOf(entries[n])])
  {
    var before, upTo := entries[..n], entries[..n + 1];
    assert upTo == before + [entries[n]];
    var found' := if Listed(upTo, n) then found[FileOf(entries[n]).version := FileOf(entries[n])] else found;
    forall v | v in found' ensures exists i :: Listed(upTo, i) && FileOf(upTo[i]) == found'[v] {
      if v in found && found'[v] == found[v] {
        var i :| Listed(before, i) && FileOf(before[i]) == found[v];
        assert Listed(upTo, i) && upTo[i] == before[i];
      } else {
        assert Listed(upTo, n) && FileOf(upTo[n]) == found'[v];
      }
    }
    forall i | Listed(upTo, i) && i < n ensures Listed(before, i) && upTo[i] == before[i] {
    }
  }

  lemma FilesAreEntries(entries: seq<Entry>, f: File)
    ensures (exists i :: Listed(entries, i) && FileOf(entries[i]) == f) <==>
              exists i :: 0 <= i < |entries| && entries[i] == Entry(true, Some((f.version, f.name)), f.sql)
  {
    if i :| 0 <= i < |entries| && entries[i] == Entry(true, Some((f.version, f.name)), f.sql) {
      assert Listed(entries, i) && FileOf(entries[i]) == f;
    }
    if i :| Listed(entries, i) && FileOf(entries[i]) == f {
      assert entries[i] == Entry(true, Some((f.version, f.name)), f.sql);
    }
  }

  /** The first entry that is wrong is a SQL file with a bad name. */
  predicate BadNameFirst(entries: seq<Entry>, n: nat) {
    && n < |entries| && !HasBadName(entries[..n]) && !HasDuplicate(entries[..n])
    && entries[n].isSql && entries[n].parsed.None?
  }

  /** The first entry that is wrong repeats the version of one before it. */
  predicate DuplicateFirst(entries: seq<Entry>, n: nat) {
    && n < |entries| && !HasBadName(entries[..n]) && !HasDuplicate(entries[..n])
    && entries[n].isSql && entries[n].parsed.Some?
    && exists i :: 0 <= i < n && entries[i].isSql && entries[i].parsed.Some?
                   && entries[i].parsed.value.0 == entries[n].parsed.value.0
  }

  method Discover(entries: seq<Entry>) returns (r: Result<seq<File>, DiscoverError>)
    ensures r.Failure? <==> HasBadName(entries) || HasDuplicate(entries)
    ensures r == Failure(BadName) ==> exists n :: BadNameFirst(entries, n)
    ensures r == Failure(DuplicateVersion) ==> exists n :: DuplicateFirst(entries, n)
    ensures r.Success? ==> InOrder(r.value)
    ensures r.Success? ==> forall f :: f in r.value <==> exists i :: Listed(entries, i) && FileOf(entries[i]) == f
    ensures r.Success? ==> forall f :: f in r.value <==>
              exists i :: 0 <= i < |entries| && entries[i] == Entry(true, Some((f.version, f.name)), f.sql)
  {
    var found: map<Version, File> := map[];
    for n := 0 to |entries|
      invariant !HasBadName(entries[..n]) && !HasDuplicate(entries[..n])
      invariant Holds(entries[..n], found)
    {
      var e := entries[n];
      assert entries[..n + 1] == entries[..n] + [e];
      HoldsOneMore(entries, n, found);
      if e.isSql {
        if e.parsed.None? {
          assert BadNameFirst(entries, n);
          return Failure(BadName);
        }
        var f := FileOf(e);
        if f.version in found {
          var i :| Listed(entries[..n], i) && FileOf(entries[..n][i]) == found[f.version];
          assert Listed(entries, i) && Listed(entries, n);
          assert DuplicateFirst(entries, n);
          return Failure(DuplicateVersion);
        }
        found := found[f.version := f];
      }
    }
    assert entries[..|entries|] == entries;
    var files := Sorted(found);
    forall f ensures f in files <==>
                       exists i :: 0 <= i < |entries| && entries[i] == Entry(true, Some((f.version, f.name)), f.sql)
    {
      FilesAreEntries(entries, f);
      assert f in files <==> exists i :: Listed(entries, i) && FileOf(entries[i]) == f;
    }
    return Success(files);
  }

  /** `files` holds, in order, what was found below everything in `rest`. */
  ghost predicate SortedBelow(found: map<Version, File>, rest: set<Version>, files: seq<File>) {
    && InOrder(files)
    && (forall f :: f in files <==> f.version in found && f.version !in rest && found[f.version] == f)
    && (forall f, v :: f in files && v in rest ==> f.version < v)
  }

  lemma SortedOneMore(found: map<Version, File>, rest: set<Version>, files: seq<File>, least: Version)
    requires forall v :: v in found ==> found[v].version == v
    requires SortedBelow(found, rest, files) && rest <= found.Keys
    requires least in rest && forall v :: v in rest ==> least <= v
    ensures SortedBelow(found, rest - {least}, files + [found[least]])
  {
    var files' := files + [found[least]];
    forall f ensures f in files' <==> f.version in found && f.version !in rest - {least} && found[f.version] == f {
      assert f in files' <==> f in files || f == found[least];
    }
    forall i, j | 0 <= i < j < |files'| ensures files'[i].version < files'[j].version {
      assert files'[i] in files;
    }
  }

  method Sorted(found: map<Version, File>) returns (files: seq<File>)
    requires forall v :: v in found ==> found[v].version == v
    ensures InOrder(files)
    ensures forall f :: f in files <==> f.version in found && found[f.version] == f
  {
    files := [];
    var rest := found.Keys;
    while rest != {}
      invariant rest <= found.Keys && SortedBelow(found, rest, files)
      decreases |rest|
    {
      var least := Least(rest);
      SortedOneMore(found, rest, files, least);
      files := files + [found[least]];
      rest := rest - {least};
    }
  }

  method Least(s: set<Version>) returns (least: Version)
    requires s != {}
    ensures least in s && forall v :: v in s ==> least <= v
  {
    least :| least in s;
    var rest := s - {least};
    while rest != {}
      invariant rest <= s && least in s
      invariant forall v :: v in s && v !in rest ==> least <= v
      decreases |rest|
    {
      var v :| v in rest;
      if v < least {
        least := v;
      }
      rest := rest - {v};
    }
  }

  // ---------------------------------------------------------------- history

  predicate Matches(files: seq<File>, v: Version, r: Record) {
    exists i :: 0 <= i < |files| && files[i].version == v && Checksum(files[i]) == r.checksum
  }

  /** Every applied file is still there, unedited. */
  predicate HistoryOk(files: seq<File>, history: History) {
    forall v :: v in history ==> Matches(files, v, history[v])
  }

  function Pending(files: seq<File>, history: History): seq<File> {
    if files == [] then []
    else
      var init := Pending(files[..|files| - 1], history);
      var f := files[|files| - 1];
      if f.version in history then init else init + [f]
  }

  function RecordFile(history: History, f: File): History {
    history[f.version := Record(f.name, Checksum(f))]
  }

  function RecordAll(history: History, files: seq<File>): History {
    if files == [] then history
    else RecordFile(RecordAll(history, files[..|files| - 1]), files[|files| - 1])
  }

  predicate HasVersion(files: seq<File>, v: Version) {
    exists i :: 0 <= i < |files| && files[i].version == v
  }

  lemma HasVersionSplit(files: seq<File>, v: Version)
    requires files != []
    ensures HasVersion(files, v) <==> HasVersion(files[..|files| - 1], v) || files[|files| - 1].version == v
  {
    var n := |files| - 1;
    if i :| 0 <= i < n && files[..n][i].version == v {
      assert files[i].version == v;
    }
    if i :| 0 <= i < |files| && files[i].version == v && i < n {
      assert files[..n][i].version == v;
    }
  }

  /** Recording files adds their versions and leaves every other record alone. */
  lemma {:induction false} RecordingAdds(history: History, files: seq<File>, v: Version)
    ensures v in RecordAll(history, files) <==> v in history || HasVersion(files, v)
    ensures v in history && !HasVersion(files, v) ==> RecordAll(history, files)[v] == history[v]
    decreases |files|
  {
    if files != [] {
      HasVersionSplit(files, v);
      RecordingAdds(history, files[..|files| - 1], v);
    }
  }

  /** Each is recorded with its name and the digest of its text. */
  lemma {:induction false} RecordingKeepsText(history: History, files: seq<File>, i: nat)
    requires InOrder(files) && i < |files|
    ensures files[i].version in RecordAll(history, files)
    ensures RecordAll(history, files)[files[i].version] == Record(files[i].name, Sha256(files[i].sql))
    decreases |files|
  {
    var n := |files| - 1;
    if i < n {
      RecordingKeepsText(history, files[..n], i);
    }
  }

  class Database {
    var schema: seq<File>
    var history: History

    constructor ()
      ensures schema == [] && history == map[]
    {
      schema, history := [], map[];
    }

    /** One run that holds the lock throughout. `failing` is the number of pending files
        that apply before one fails and is rolled back. */
    method Upgrade(files: seq<File>, failing: nat) returns (applied: Option<seq<File>>)
      modifies this
      ensures !HistoryOk(files, old(history)) ==> applied == None && schema == old(schema) && history == old(history)
      ensures HistoryOk(files, old(history)) ==>
                var pending := Pending(files, old(history));
                var done := if failing < |pending| then pending[..failing] else pending;
                && schema == old(schema) + done
                && history == RecordAll(old(history), done)
                && applied == if failing < |pending| then None else Some(pending)
      ensures (exists v :: v in old(history) && forall i :: 0 <= i < |files| && files[i].version == v ==>
                             Sha256(files[i].sql) != old(history)[v].checksum) ==>
                applied == None && schema == old(schema) && history == old(history)
      ensures InOrder(files) && applied.Some? ==>
                && (forall f :: f in applied.value <==> f in files && f.version !in old(history))
                && InOrder(applied.value) && schema == old(schema) + applied.value
                && (forall v :: v in history <==> v in old(history) || HasVersion(applied.value, v))
                && (forall i :: 0 <= i < |applied.value| ==>
                      && applied.value[i].version in history
                      && history[applied.value[i].version]
                         == Record(applied.value[i].name, Sha256(applied.value[i].sql)))
    {
      if !HistoryOk(files, history) {
        return None;
      }
      var pending := PendingFiles(files);
      for n := 0 to |pending|
        invariant n <= failing
        invariant schema == old(schema) + pending[..n]
        invariant history == RecordAll(old(history), pending[..n])
      {
        assert pending[..n + 1] == pending[..n] + [pending[n]];
        var schemaBefore := schema;
        schema := schema + [pending[n]];
        if n == failing {
          schema := schemaBefore;
          return None;
        }
        history := RecordFile(history, pending[n]);
      }
      assert pending[..|pending|] == pending;
      if InOrder(files) {
        PendingMembers(files, old(history));
        forall v ensures v in history <==> v in old(history) || HasVersion(pending, v) {
          RecordingAdds(old(history), pending, v);
        }
        forall i | 0 <= i < |pending|
          ensures pending[i].version in history
          ensures history[pending[i].version] == Record(pending[i].name, Sha256(pending[i].sql))
        {
          RecordingKeepsText(old(history), pending, i);
        }
      }
      return Some(pending);
    }

    method PendingFiles(files: seq<File>) returns (pending: seq<File>)
      ensures pending == Pending(files, history)
    {
      pending := [];
      for n := 0 to |files|
        invariant pending == Pending(files[..n], history)
      {
        assert files[..n + 1][..n] == files[..n];
        if files[n].version !in history {
          pending := pending + [files[n]];
        }
      }
      assert files[..|files|] == files;
    }
  }

  // ------------------------------------------------------------------- runs

  /** `Found` has read the directory and waits for the lock; `Holding` has it. */
  datatype Phase = Found(files: seq<File>) | Holding(pending: seq<File>)

  datatype World = World(
    dir: seq<File>,
    schema: seq<File>,
    history: History,
    holder: Option<Runner>,
    runners: map<Runner, Phase>)

  datatype Step =
    | AddFile(file: File)
    | Discovered(r: Runner)
    | Lock(r: Runner)
    | ApplyNext(r: Runner, ok: bool)
    | Crash(r: Runner)

  predicate Enabled(s: World, step: Step) {
    match step
    case AddFile(f) => forall i :: 0 <= i < |s.dir| ==> s.dir[i].version < f.version
    case Discovered(r) => r !in s.runners
    case Lock(r) => r in s.runners && s.runners[r].Found? && s.holder.None?
    case ApplyNext(r, _) => s.holder == Some(r) && r in s.runners && s.runners[r].Holding? && s.runners[r].pending != []
    case Crash(r) => r in s.runners
  }

  function Leave(s: World, r: Runner): World {
    s.(runners := s.runners - {r}, holder := if s.holder == Some(r) then None else s.holder)
  }

  function Apply(s: World, step: Step): World
    requires Enabled(s, step)
  {
    match step
    case AddFile(f) => s.(dir := s.dir + [f])
    case Discovered(r) => s.(runners := s.runners[r := Found(s.dir)])
    case Lock(r) =>
      var files := s.runners[r].files;
      var pending := Pending(files, s.history);
      if !HistoryOk(files, s.history) || pending == [] then Leave(s, r)
      else s.(holder := Some(r), runners := s.runners[r := Holding(pending)])
    case ApplyNext(r, ok) =>
      var pending := s.runners[r].pending;
      if !ok then Leave(s, r)
      else
        var s' := s.(schema := s.schema + [pending[0]], history := RecordFile(s.history, pending[0]));
        if |pending| == 1 then Leave(s', r) else s'.(runners := s'.runners[r := Holding(pending[1..])])
    case Crash(r) => Leave(s, r)
  }

  ghost predicate Valid(s: World, steps: seq<Step>)
    decreases |steps|
  {
    steps == [] || (Enabled(s, steps[0]) && Valid(Apply(s, steps[0]), steps[1..]))
  }

  ghost function Run(s: World, steps: seq<Step>): World
    requires Valid(s, steps)
    decreases |steps|
  {
    if steps == [] then s else Run(Apply(s, steps[0]), steps[1..])
  }

  ghost predicate PhaseOk(s: World, r: Runner)
    requires r in s.runners
  {
    match s.runners[r]
    case Found(files) => s.holder != Some(r) && files <= s.dir
    case Holding(pending) => s.holder == Some(r) && s.schema + pending <= s.dir && pending != []
  }

  /** The files executed are the first ones of the directory, each once and in order, and
      exactly they are recorded. */
  ghost predicate Inv(s: World) {
    && InOrder(s.dir)
    && s.schema <= s.dir
    && s.history == RecordAll(map[], s.schema)
    && (forall r :: r in s.runners ==> PhaseOk(s, r))
    && (s.holder.Some? ==> s.holder.value in s.runners)
  }

  lemma {:induction false} RecordedVersions(files: seq<File>, v: Version)
    ensures v in RecordAll(map[], files) <==> exists i :: 0 <= i < |files| && files[i].version == v
    decreases |files|
  {
    if files != [] {
      var n := |files| - 1;
      RecordedVersions(files[..n], v);
      if v in RecordAll(map[], files[..n]) {
        var i :| 0 <= i < n && files[..n][i].version == v;
        assert files[i].version == v;
      }
    }
  }

  lemma {:induction false} RecordedChecksum(files: seq<File>, i: nat)
    requires InOrder(files) && i < |files|
    ensures files[i].version in RecordAll(map[], files)
    ensures RecordAll(map[], files)[files[i].version] == Record(files[i].name, Checksum(files[i]))
    decreases |files|
  {
    var n := |files| - 1;
    if i < n {
      RecordedChecksum(files[..n], i);
    }
  }

  /** With the first files applied, the pending ones of any listing are the rest of it. */
  lemma {:induction false} PendingIsTheRest(files: seq<File>, done: seq<File>)
    requires InOrder(files) && done <= files
    ensures Pending(files, RecordAll(map[], done)) == files[|done|..]
    decreases |files|
  {
    if done == files {
      PendingIsNothing(files, done, |files|);
      assert files[..|files|] == files;
    } else {
      var n := |files| - 1;
      NotYetRecorded(files, done, n);
      PendingIsTheRest(files[..n], done);
      assert files[|done|..] == files[..n][|done|..] + [files[n]];
    }
  }

  lemma NotYetRecorded(files: seq<File>, done: seq<File>, n: nat)
    requires InOrder(files) && done <= files && |done| <= n < |files|
    ensures files[n].version !in RecordAll(map[], done)
  {
    RecordedVersions(done, files[n].version);
    forall i | 0 <= i < |done| ensures done[i].version != files[n].version {
      assert done[i] == files[i];
    }
  }

  lemma {:induction false} PendingIsNothing(files: seq<File>, done: seq<File>, n: nat)
    requires files <= done && n <= |files|
    ensures Pending(files[..n], RecordAll(map[], done)) == []
  {
    if n > 0 {
      assert files[..n][..n - 1] == files[..n - 1];
      PendingIsNothing(files, done, n - 1);
      RecordedVersions(done, files[n - 1].version);
      assert done[n - 1].version == files[n - 1].version;
    }
  }

  /** A runner that read the directory before the recorded files were there is refused;
      one that read them all goes on. */
  lemma LockStarts(s: World, r: Runner)
    requires Inv(s) && Enabled(s, Lock(r))
    ensures var files := s.runners[r].files;
            && (HistoryOk(files, s.history) <==> s.schema <= files)
            && (s.schema <= files ==> Pending(files, s.history) == files[|s.schema|..])
  {
    var files := s.runners[r].files;
    assert PhaseOk(s, r) && files <= s.dir;
    if |s.schema| <= |files| {
      forall v | v in s.history ensures Matches(files, v, s.history[v]) {
        RecordedVersions(s.schema, v);
        var i :| 0 <= i < |s.schema| && s.schema[i].version == v;
        RecordedChecksum(s.schema, i);
        assert files[i] == s.schema[i];
      }
      PendingIsTheRest(files, s.schema);
    } else {
      var i := |files|;
      RecordedChecksum(s.schema, i);
      var v := s.schema[i].version;
      assert forall j :: 0 <= j < |files| ==> files[j] == s.dir[j] && s.dir[j].version < s.dir[i].version == v;
      assert !Matches(files, v, s.history[v]);
    }
  }

  lemma LockKeepsInv(s: World, r: Runner)
    requires Inv(s) && Enabled(s, Lock(r))
    ensures Inv(Apply(s, Lock(r)))
  {
    LockStarts(s, r);
    var s', files := Apply(s, Lock(r)), s.runners[r].files;
    assert PhaseOk(s, r);
    if HistoryOk(files, s.history) {
      assert s.schema + files[|s.schema|..] == files;
    }
    forall x | x in s'.runners ensures PhaseOk(s', x) {
      assert x in s.runners && PhaseOk(s, x);
    }
  }

  lemma ApplyKeepsInv(s: World, r: Runner, ok: bool)
    requires Inv(s) && Enabled(s, ApplyNext(r, ok))
    ensures Inv(Apply(s, ApplyNext(r, ok)))
  {
    var s', pending := Apply(s, ApplyNext(r, ok)), s.runners[r].pending;
    assert PhaseOk(s, r);
    if ok {
      assert s.schema + pending == (s.schema + [pending[0]]) + pending[1..];
      assert (s.schema + [pending[0]])[..|s.schema|] == s.schema;
    }
    forall x | x in s'.runners ensures PhaseOk(s', x) {
      assert x in s.runners && PhaseOk(s, x);
    }
  }

  lemma StepKeepsInv(s: World, step: Step)
    requires Inv(s) && Enabled(s, step)
    ensures Inv(Apply(s, step))
  {
    var s' := Apply(s, step);
    match step
    case AddFile(f) =>
      forall x | x in s'.runners ensures PhaseOk(s', x) {
        assert PhaseOk(s, x);
      }
    case Discovered(r) =>
      forall x | x in s'.runners ensures PhaseOk(s', x) {
        assert x != r ==> PhaseOk(s, x);
      }
    case Lock(r) => LockKeepsInv(s, r);
    case ApplyNext(r, ok) => ApplyKeepsInv(s, r, ok);
    case Crash(r) =>
      forall x | x in s'.runners ensures PhaseOk(s', x) {
        assert PhaseOk(s, x);
      }
  }

  lemma {:induction false} RunKeepsInv(s: World, steps: seq<Step>)
    requires Inv(s) && Valid(s, steps)
    ensures Inv(Run(s, steps))
    decreases |steps|
  {
    if steps != [] {
      StepKeepsInv(s, steps[0]);
      RunKeepsInv(Apply(s, steps[0]), steps[1..]);
    }
  }

  /** Whatever runners start, wait, fail and crash while the directory gains higher
      versions: the files executed are a prefix of the sorted directory, each executed
      once and in version order, and the recorded versions are exactly theirs. */
  lemma UpgradesApplyInOrder(dir: seq<File>, steps: seq<Step>)
    requires InOrder(dir) && Valid(World(dir, [], map[], None, map[]), steps)
    ensures var s := Run(World(dir, [], map[], None, map[]), steps);
            && InOrder(s.dir) && |s.schema| <= |s.dir| && s.schema == s.dir[..|s.schema|]
            && (forall v :: v in s.history <==> exists i :: 0 <= i < |s.schema| && s.dir[i].version == v)
            && (forall i :: 0 <= i < |s.schema| ==>
                  s.dir[i].version in s.history && s.history[s.dir[i].version].checksum == Checksum(s.dir[i]))
  {
    var start := World(dir, [], map[], None, map[]);
    RunKeepsInv(start, steps);
    var s := Run(start, steps);
    forall v ensures v in s.history <==> exists i :: 0 <= i < |s.schema| && s.dir[i].version == v {
      RecordedVersions(s.schema, v);
      if v in s.history {
        var i :| 0 <= i < |s.schema| && s.schema[i].version == v;
        assert s.dir[i].version == v;
      }
      forall i | 0 <= i < |s.schema| && s.dir[i].version == v ensures v in s.history {
        assert s.schema[i].version == v;
      }
    }
    forall i | 0 <= i < |s.schema|
      ensures s.dir[i].version in s.history && s.history[s.dir[i].version].checksum == Checksum(s.dir[i])
    {
      RecordedChecksum(s.schema, i);
    }
  }

  /** A runner is refused exactly when an applied file is missing from what it read or has
      another text now, and then it changes neither the schema nor the history. */
  lemma EditedHistoryIsRefused(s: World, r: Runner)
    requires Enabled(s, Lock(r))
    ensures var files := s.runners[r].files;
            var s' := Apply(s, Lock(r));
            && s'.schema == s.schema && s'.history == s.history
            && (!HistoryOk(files, s.history) <==>
                  exists v :: v in s.history && forall i :: 0 <= i < |files| && files[i].version == v ==>
                    Sha256(files[i].sql) != s.history[v].checksum)
            && (!HistoryOk(files, s.history) ==> s'.holder.None? && r !in s'.runners)
  {
    var files := s.runners[r].files;
    if !HistoryOk(files, s.history) {
      var v :| v in s.history && !Matches(files, v, s.history[v]);
    }
  }

  /** What a runner's turn does: a file that applies is executed last and recorded, one that
      fails leaves no trace, and the lock is given up with the last file or a failure. */
  lemma TurnMeans(s: World, r: Runner, ok: bool)
    requires Enabled(s, ApplyNext(r, ok))
    ensures var s' := Apply(s, ApplyNext(r, ok));
            var pending := s.runners[r].pending;
            var f := pending[0];
            && s'.dir == s.dir
            && (!ok ==> s'.schema == s.schema && s'.history == s.history && s'.holder.None? && r !in s'.runners)
            && (ok ==>
                  && s'.schema == s.schema + [f]
                  && s'.history == s.history[f.version := Record(f.name, Sha256(f.sql))]
                  && (|pending| == 1 ==> s'.holder.None? && r !in s'.runners)
                  && (|pending| > 1 ==>
                        && s'.holder == Some(r) && r in s'.runners
                        && s'.runners[r] == Holding(pending[1..])))
  {
  }

  // ------------------------------------------------------------ late files

  lemma {:induction false} PendingMembers(files: seq<File>, history: History)
    requires InOrder(files)
    ensures InOrder(Pending(files, history))
    ensures forall f :: f in Pending(files, history) <==> f in files && f.version !in history
    decreases |files|
  {
    if files != [] {
      var n := |files| - 1;
      PendingMembers(files[..n], history);
      var init := Pending(files[..n], history);
      forall f | f in init ensures f.version < files[n].version {
        assert f in files[..n];
      }
      assert forall f :: f in files <==> f in files[..n] || f == files[n];
    }
  }

  /** Gaps may be filled later, but then order is lost: a complete run keeps the executed
      files in version order exactly when every file it applies is newer than all that
      were recorded. */
  lemma OrderKeptExactlyWhenPendingIsNewer(schema: seq<File>, files: seq<File>)
    requires InOrder(schema) && InOrder(files)
    ensures var history := RecordAll(map[], schema);
            InOrder(schema + Pending(files, history)) <==>
            forall f, v :: f in files && f.version !in history && v in history ==> v < f.version
  {
    var history := RecordAll(map[], schema);
    var pending := Pending(files, history);
    var all := schema + pending;
    PendingMembers(files, history);
    if InOrder(all) {
      forall f, v | f in files && f.version !in history && v in history ensures v < f.version {
        RecordedVersions(schema, v);
        var i :| 0 <= i < |schema| && schema[i].version == v;
        assert f in pending;
        var j :| 0 <= j < |pending| && pending[j] == f;
        assert all[i] == schema[i] && all[|schema| + j] == f;
      }
    }
    if forall f, v :: f in files && f.version !in history && v in history ==> v < f.version {
      forall i, j | 0 <= i < |schema| && 0 <= j < |pending| ensures schema[i].version < pending[j].version {
        RecordedVersions(schema, schema[i].version);
        assert pending[j] in files;
      }
      forall i, j | 0 <= i < j < |all| ensures all[i].version < all[j].version {
        if i < |schema| <= j {
          assert schema[i].version < pending[j - |schema|].version;
        }
      }
    }
  }

  /** Version 2 added after 1 and 3 were applied is executed last. */
  lemma LateFileRunsLast(one: File, two: File, three: File)
    requires one.version == 1 && two.version == 2 && three.version == 3
    ensures var history := RecordAll(map[], [one, three]);
            && HistoryOk([one, two, three], history)
            && [one, three] + Pending([one, two, three], history) == [one, three, two]
  {
    var schema, files := [one, three], [one, two, three];
    var history := RecordAll(map[], schema);
    assert schema[..1] == [one] && [one][..0] == [];
    assert RecordAll(map[], [one]) == map[1 := Record(one.name, Checksum(one))];
    assert history == map[1 := Record(one.name, Checksum(one)), 3 := Record(three.name, Checksum(three))];
    assert Matches(files, 1, history[1]) by {
      assert files[0] == one;
    }
    assert Matches(files, 3, history[3]) by {
      assert files[2] == three;
    }
    assert files[..2] == [one, two] && [one, two][..1] == [one];
    assert Pending([one], history) == [];
    assert Pending([one, two], history) == [two];
  }
}
