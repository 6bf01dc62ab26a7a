/** The heading index of an article: the character span and the anchor of every heading in
    the token stream. Lines are given as the token stream numbers them. */
module Headings {
  import opened Wrappers
  import Slug

  const ANCHOR_LENGTH := 180

  /** What the walk reads off a token: whether it opens a heading and at which level, the
      line it starts on if known, and the content of the token after it. */
  datatype Token = Token(opensHeading: bool, level: nat, line: Option<nat>, content: string)

  datatype Heading = Heading(anchor: string, level: nat, title: string, charStart: nat, charEnd: nat)

  datatype Section = Section(anchor: string, ordinal: nat, level: nat, title: string, charStart: nat, charEnd: nat)

  /** A heading before it has an anchor and an end. */
  datatype Found = Found(level: nat, start: nat, title: string)

  // ----------------------------------------------------------------- offsets

  function Concat(lines: seq<string>): string {
    if lines == [] then "" else Concat(lines[..|lines| - 1]) + lines[|lines| - 1]
  }

  /** The offset at which line `k` starts; past the end, the length of the text. */
  function Offset(lines: seq<string>, k: nat): nat {
    |Concat(lines[..if k < |lines| then k else |lines|])|
  }

  lemma {:induction false} PrefixOfConcat(lines: seq<string>, k: nat)
    requires k <= |lines|
    ensures Concat(lines[..k]) <= Concat(lines)
    decreases |lines|
  {
    if k < |lines| {
      var n := |lines| - 1;
      PrefixOfConcat(lines[..n], k);
      assert lines[..n][..k] == lines[..k];
    } else {
      assert lines[..k] == lines;
    }
  }

  /** Offsets are the prefix sums of the line lengths: line `k` is the text between its
      offset and the next, and the last offset is the length of the text. */
  lemma OffsetsDelimitLines(lines: seq<string>, k: nat)
    ensures Offset(lines, |lines|) == |Concat(lines)|
    ensures Offset(lines, k) <= Offset(lines, k + 1) <= |Concat(lines)|
    ensures k < |lines| ==> Concat(lines)[Offset(lines, k)..Offset(lines, k + 1)] == lines[k]
  {
    assert lines[..|lines|] == lines;
    if k < |lines| {
      PrefixOfConcat(lines, k + 1);
      assert lines[..k + 1][..k] == lines[..k];
      var upto := Concat(lines[..k + 1]);
      assert upto == Concat(lines[..k]) + lines[k];
      assert Concat(lines)[Offset(lines, k)..Offset(lines, k + 1)] == upto[Offset(lines, k)..];
    }
  }

  lemma {:induction false} OffsetsGrow(lines: seq<string>, j: nat, k: nat)
    requires j <= k
    ensures Offset(lines, j) <= Offset(lines, k) <= |Concat(lines)|
    decreases k - j
  {
    OffsetsDelimitLines(lines, k);
    if j < k {
      OffsetsDelimitLines(lines, j);
      OffsetsGrow(lines, j + 1, k);
    }
  }

  // ---------------------------------------------------------------- headings

  predicate IsSpace(c: char) {
    c == ' ' || '\t' <= c <= '\r' || '\U{001c}' <= c <= '\U{001f}'
  }

  function TrimLeft(s: string): string {
    if s != "" && IsSpace(s[0]) then TrimLeft(s[1..]) else s
  }

  function TrimRight(s: string): string {
    if s != "" && IsSpace(s[|s| - 1]) then TrimRight(s[..|s| - 1]) else s
  }

  function Trim(s: string): string {
    TrimRight(TrimLeft(s))
  }

  predicate Counts(t: Token) {
    t.opensHeading && t.line.Some? && Trim(t.content) != ""
  }

  function FoundIn(lines: seq<string>, tokens: seq<Token>): seq<Found> {
    if tokens == [] then []
    else
      var init, t := FoundIn(lines, tokens[..|tokens| - 1]), tokens[|tokens| - 1];
      if Counts(t) then init + [Found(t.level, Offset(lines, t.line.value), Trim(t.content))] else init
  }

  function Decimal(n: nat): (d: string)
    ensures d != "" && forall i :: 0 <= i < |d| ==> '0' <= d[i] <= '9'
  {
    if n < 10 then [('0' as int + n) as char] else Decimal(n / 10) + [('0' as int + n % 10) as char]
  }

  /** The slug of a title, or its position when nothing of the title survives. */
  function Base(found: seq<Found>, i: nat): string
    requires i < |found|
  {
    var slug := Slug.Slugify(found[i].title, ANCHOR_LENGTH);
    if slug != "" then slug else "section-" + Decimal(i + 1)
  }

  /** How many of the first `n` headings have this base. */
  function Occurrences(found: seq<Found>, n: nat, base: string): (k: nat)
    requires n <= |found|
    ensures k <= n
  {
    if n == 0 then 0 else Occurrences(found, n - 1, base) + if Base(found, n - 1) == base then 1 else 0
  }

  /** Which of the headings with its base a heading is, counting from one. */
  function Rank(found: seq<Found>, i: nat): (k: nat)
    requires i < |found|
    ensures k >= 1
  {
    Occurrences(found, i + 1, Base(found, i))
  }

  function Suffixed(base: string, k: nat): string {
    base + "-" + Decimal(k)
  }

  function Anchor(found: seq<Found>, i: nat): string
    requires i < |found|
  {
    if Rank(found, i) == 1 then Base(found, i) else Suffixed(Base(found, i), Rank(found, i))
  }

  function EndOf(found: seq<Found>, i: nat, length: nat): nat
    requires i < |found|
  {
    if i + 1 < |found| then found[i + 1].start else length
  }

  function HeadingAt(found: seq<Found>, i: nat, length: nat): Heading
    requires i < |found|
  {
    Heading(Anchor(found, i), found[i].level, found[i].title, found[i].start, EndOf(found, i, length))
  }

  function HeadingsOf(found: seq<Found>, length: nat): seq<Heading> {
    seq(|found|, i requires 0 <= i < |found| => HeadingAt(found, i, length))
  }

  /** The whole index of a body, given by its lines and its tokens. */
  function IndexOf(lines: seq<string>, tokens: seq<Token>): seq<Heading> {
    HeadingsOf(FoundIn(lines, tokens), |Concat(lines)|)
  }

  method LineStarts(lines: seq<string>) returns (starts: seq<nat>)
    ensures |starts| == |lines| + 1 && forall k :: 0 <= k <= |lines| ==> starts[k] == |Concat(lines[..k])|
  {
    starts := [0];
    for n := 0 to |lines|
      invariant |starts| == n + 1
      invariant forall k :: 0 <= k <= n ==> starts[k] == |Concat(lines[..k])|
    {
      assert lines[..n + 1][..n] == lines[..n];
      starts := starts + [starts[n] + |lines[n]|];
    }
  }

  method Collect(lines: seq<string>, tokens: seq<Token>) returns (found: seq<Found>)
    ensures found == FoundIn(lines, tokens)
  {
    var starts := LineStarts(lines);
    found := [];
    for n := 0 to |tokens|
      invariant found == FoundIn(lines, tokens[..n])
    {
      assert tokens[..n + 1][..n] == tokens[..n];
      var t := tokens[n];
      if t.opensHeading && t.line.Some? {
        var title := Trim(t.content);
        if title != "" {
          var line := if t.line.value < |starts| - 1 then t.line.value else |starts| - 1;
          found := found + [Found(t.level, starts[line], title)];
        }
      }
    }
    assert tokens[..|tokens|] == tokens;
  }

  ghost predicate SeenSoFar(found: seq<Found>, n: nat, seen: map<string, nat>)
    requires n <= |found|
  {
    forall base :: Occurrences(found, n, base) == if base in seen then seen[base] else 0
  }

  method NextAnchor(found: seq<Found>, n: nat, seen: map<string, nat>) returns (anchor: string, seen': map<string, nat>)
    requires n < |found| && SeenSoFar(found, n, seen)
    ensures anchor == Anchor(found, n) && SeenSoFar(found, n + 1, seen')
  {
    var base := Slug.Slugify(found[n].title, ANCHOR_LENGTH);
    if base == "" {
      base := "section-" + Decimal(n + 1);
    }
    assert base == Base(found, n);
    assert Occurrences(found, n, base) == if base in seen then seen[base] else 0;
    var count := (if base in seen then seen[base] else 0) + 1;
    assert count == Rank(found, n);
    seen' := seen[base := count];
    anchor := if count == 1 then base else base + "-" + Decimal(count);
  }

  method Index(lines: seq<string>, body: string, tokens: seq<Token>) returns (headings: seq<Heading>)
    requires Concat(lines) == body
    ensures headings == IndexOf(lines, tokens)
  {
    var found := Collect(lines, tokens);
    headings := [];
    var seen: map<string, nat> := map[];
    ghost var all := HeadingsOf(found, |body|);
    for n := 0 to |found|
      invariant headings == all[..n] && SeenSoFar(found, n, seen)
    {
      var anchor, seen' := NextAnchor(found, n, seen);
      seen := seen';
      var charEnd := if n + 1 < |found| then found[n + 1].start else |body|;
      headings := headings + [Heading(anchor, found[n].level, found[n].title, found[n].start, charEnd)];
      assert all[n] == HeadingAt(found, n, |body|);
      assert all[..n + 1] == all[..n] + [all[n]];
    }
  }

  function SectionsOf(headings: seq<Heading>): seq<Section> {
    seq(|headings|, i requires 0 <= i < |headings| =>
      Section(headings[i].anchor, i, headings[i].level, headings[i].title, headings[i].charStart, headings[i].charEnd))
  }

  // ------------------------------------------------------------------ tiling

  predicate LinesDoNotGoBack(tokens: seq<Token>) {
    forall i, j :: 0 <= i < j < |tokens| && Counts(tokens[i]) && Counts(tokens[j]) ==>
      tokens[i].line.value <= tokens[j].line.value
  }

  predicate StartsInOrder(found: seq<Found>, bound: nat) {
    && (forall i, j :: 0 <= i <= j < |found| ==> found[i].start <= found[j].start)
    && (forall i :: 0 <= i < |found| ==> found[i].start <= bound)
  }

  lemma {:induction false} StartsDoNotGoBack(lines: seq<string>, tokens: seq<Token>, line: nat)
    requires LinesDoNotGoBack(tokens)
    requires forall j :: 0 <= j < |tokens| && Counts(tokens[j]) ==> tokens[j].line.value <= line
    ensures StartsInOrder(FoundIn(lines, tokens), Offset(lines, line))
    decreases |tokens|
  {
    if tokens != [] {
      var n := |tokens| - 1;
      var t, init := tokens[n], tokens[..n];
      assert forall j :: 0 <= j < n ==> init[j] == tokens[j];
      if Counts(t) {
        StartsDoNotGoBack(lines, init, t.line.value);
        OffsetsGrow(lines, t.line.value, line);
        var here := Offset(lines, t.line.value);
        StartsAppend(FoundIn(lines, init), here, Found(t.level, here, Trim(t.content)), Offset(lines, line));
      } else {
        StartsDoNotGoBack(lines, init, line);
      }
    }
  }

  lemma StartsAppend(found: seq<Found>, here: nat, next: Found, bound: nat)
    requires StartsInOrder(found, here) && next.start == here <= bound
    ensures StartsInOrder(found + [next], bound)
  {
  }

  function LastLine(tokens: seq<Token>): (line: nat)
    ensures forall j :: 0 <= j < |tokens| && Counts(tokens[j]) ==> tokens[j].line.value <= line
  {
    if tokens == [] then 0
    else
      var init, t := LastLine(tokens[..|tokens| - 1]), tokens[|tokens| - 1];
      if Counts(t) && t.line.value > init then t.line.value else init
  }

  /** Spans in order within the body, each ending where the next starts and the last at the
      end of the body; ordinals count up from zero. */
  predicate Tiles(body: string, sections: seq<Section>) {
    forall i :: 0 <= i < |sections| ==>
      && sections[i].ordinal == i
      && sections[i].charStart <= sections[i].charEnd <= |body|
      && sections[i].charEnd == if i + 1 < |sections| then sections[i + 1].charStart else |body|
  }

  /** The text of the sections from heading `i` on, put together. */
  function Covered(body: string, sections: seq<Section>, i: nat): string
    requires i <= |sections| && Tiles(body, sections)
    decreases |sections| - i
  {
    if i == |sections| then "" else body[sections[i].charStart..sections[i].charEnd] + Covered(body, sections, i + 1)
  }

  lemma {:induction false} CoveredIsTheRest(body: string, sections: seq<Section>, i: nat)
    requires i < |sections| && Tiles(body, sections)
    ensures Covered(body, sections, i) == body[sections[i].charStart..]
    decreases |sections| - i
  {
    var from, to := sections[i].charStart, sections[i].charEnd;
    assert from <= to <= |body|;
    if i + 1 < |sections| {
      CoveredIsTheRest(body, sections, i + 1);
      assert to == sections[i + 1].charStart;
      assert body[from..to] + body[to..] == body[from..];
    } else {
      assert to == |body|;
      assert Covered(body, sections, i + 1) == "";
      assert body[from..to] + "" == body[from..];
    }
  }

  /** The sections of any article tile its body from the first heading to the end, so that
      put together they are the text from the first heading on. */
  lemma SectionsTileBody(lines: seq<string>, tokens: seq<Token>)
    requires LinesDoNotGoBack(tokens)
    ensures var body, sections := Concat(lines), SectionsOf(IndexOf(lines, tokens));
            && Tiles(body, sections)
            && (sections != [] ==> Covered(body, sections, 0) == body[sections[0].charStart..])
  {
    StartsDoNotGoBack(lines, tokens, LastLine(tokens));
    OffsetsGrow(lines, LastLine(tokens), LastLine(tokens));
    var sections := SectionsOf(IndexOf(lines, tokens));
    if sections != [] {
      CoveredIsTheRest(Concat(lines), sections, 0);
    }
  }

  // ------------------------------------------------------- what is indexed

  lemma {:induction false} TrimLeftMeans(s: string) returns (blanks: string)
    ensures s == blanks + TrimLeft(s) && forall i :: 0 <= i < |blanks| ==> IsSpace(blanks[i])
    ensures TrimLeft(s) != "" ==> !IsSpace(TrimLeft(s)[0])
  {
    blanks := "";
    if s != "" && IsSpace(s[0]) {
      var rest := TrimLeftMeans(s[1..]);
      blanks := [s[0]] + rest;
    }
  }

  lemma {:induction false} TrimRightMeans(s: string) returns (blanks: string)
    ensures s == TrimRight(s) + blanks && forall i :: 0 <= i < |blanks| ==> IsSpace(blanks[i])
    ensures TrimRight(s) != "" ==> !IsSpace(TrimRight(s)[|TrimRight(s)| - 1]) && TrimRight(s)[0] == s[0]
    decreases |s|
  {
    blanks := "";
    if s != "" && IsSpace(s[|s| - 1]) {
      var rest := TrimRightMeans(s[..|s| - 1]);
      blanks := rest + [s[|s| - 1]];
    }
  }

  /** Trimming takes the white space at both ends away and nothing else. */
  lemma TrimMeans(s: string) returns (left: string, right: string)
    ensures s == left + Trim(s) + right
    ensures forall i :: 0 <= i < |left| ==> IsSpace(left[i])
    ensures forall i :: 0 <= i < |right| ==> IsSpace(right[i])
    ensures Trim(s) != "" ==> !IsSpace(Trim(s)[0]) && !IsSpace(Trim(s)[|Trim(s)| - 1])
  {
    left := TrimLeftMeans(s);
    right := TrimRightMeans(TrimLeft(s));
  }

  /** A token that becomes a heading: it opens one, on a known line, with a title. */
  predicate BecomesHeading(t: Token) {
    t.opensHeading && t.line.Some? && Trim(t.content) != ""
  }

  /** The heading has the level of its token, the trimmed title, and starts where the token's
      line starts, or at the end of the text if there is no such line. */
  ghost predicate ReadOff(lines: seq<string>, t: Token, f: Found) {
    && t.line.Some? && f.level == t.level && f.title == Trim(t.content)
    && f.start == |Concat(lines[..if t.line.value < |lines| then t.line.value else |lines|])|
  }

  /** `at` lists, in order, exactly the tokens that become the headings found. */
  ghost predicate FoundAt(lines: seq<string>, tokens: seq<Token>, found: seq<Found>, at: seq<nat>) {
    && |at| == |found|
    && (forall i, j :: 0 <= i < j < |at| ==> at[i] < at[j])
    && (forall i :: 0 <= i < |at| ==> at[i] < |tokens| && ReadOff(lines, tokens[at[i]], found[i]))
    && (forall k :: 0 <= k < |tokens| ==> (BecomesHeading(tokens[k]) <==> k in at))
  }

  lemma FoundAtOneMore(lines: seq<string>, tokens: seq<Token>, t: Token, found: seq<Found>, at: seq<nat>, f: Found)
    requires FoundAt(lines, tokens, found, at)
    ensures !BecomesHeading(t) ==> FoundAt(lines, tokens + [t], found, at)
    ensures BecomesHeading(t) && ReadOff(lines, t, f) ==> FoundAt(lines, tokens + [t], found + [f], at + [|tokens|])
  {
    var all := tokens + [t];
    assert forall k :: 0 <= k < |tokens| ==> all[k] == tokens[k];
  }

  /** Exactly the tokens that become headings are found, each once and in their order. */
  lemma {:induction false} FoundMeans(lines: seq<string>, tokens: seq<Token>) returns (at: seq<nat>)
    ensures FoundAt(lines, tokens, FoundIn(lines, tokens), at)
    decreases |tokens|
  {
    at := [];
    if tokens != [] {
      var n := |tokens| - 1;
      var t := tokens[n];
      at := FoundMeans(lines, tokens[..n]);
      var f := Found(t.level, if t.line.Some? then Offset(lines, t.line.value) else 0, Trim(t.content));
      FoundAtOneMore(lines, tokens[..n], t, FoundIn(lines, tokens[..n]), at, f);
      assert tokens[..n] + [t] == tokens;
      if Counts(t) {
        at := at + [n];
      }
    }
  }

  /** Which of the first `n` headings have a base. */
  function WithBase(found: seq<Found>, n: nat, base: string): set<nat>
    requires n <= |found|
  {
    set j: nat | j < n && Base(found, j) == base
  }

  lemma WithBaseOneMore(found: seq<Found>, n: nat, base: string)
    requires n < |found|
    ensures |WithBase(found, n + 1, base)| == |WithBase(found, n, base)| + if Base(found, n) == base then 1 else 0
    ensures Occurrences(found, n + 1, base) == Occurrences(found, n, base) + if Base(found, n) == base then 1 else 0
  {
    var before := WithBase(found, n, base);
    assert n !in before;
    assert WithBase(found, n + 1, base) == before + if Base(found, n) == base then {n} else {};
  }

  lemma OccurrencesCount(found: seq<Found>, n: nat, base: string)
    requires n <= |found|
    ensures Occurrences(found, n, base) == |WithBase(found, n, base)|
  {
    assert WithBase(found, 0, base) == {};
    for k := 0 to n
      invariant Occurrences(found, k, base) == |WithBase(found, k, base)|
    {
      WithBaseOneMore(found, k, base);
    }
  }

  /** What a heading's index entry says: the level, title and start found for it, an end at
      the next start or the end of the text, and for an anchor its base, or, if `k - 1`
      headings before it have the same base, the base with `-k`. The base is the slug of
      the title, or the position counted from one when nothing of the title survives. */
  lemma IndexMeans(lines: seq<string>, tokens: seq<Token>, i: nat)
    requires i < |FoundIn(lines, tokens)|
    ensures var found := FoundIn(lines, tokens);
            && |IndexOf(lines, tokens)| == |found|
            && var h := IndexOf(lines, tokens)[i];
            var slug := Slug.Slugify(found[i].title, 180);
            var base := if slug != "" then slug else "section-" + Decimal(i + 1);
            var k := 1 + |WithBase(found, i, base)|;
            && Base(found, i) == base
            && h.level == found[i].level && h.title == found[i].title && h.charStart == found[i].start
            && h.charEnd == (if i + 1 < |found| then found[i + 1].start else |Concat(lines)|)
            && h.anchor == (if k == 1 then base else base + "-" + Decimal(k))
  {
    var found := FoundIn(lines, tokens);
    OccurrencesCount(found, i, Base(found, i));
  }

  /** A section has what its heading has, and its place in the list. */
  lemma SectionsMean(headings: seq<Heading>, i: nat)
    requires i < |headings|
    ensures |SectionsOf(headings)| == |headings|
    ensures var h := headings[i];
            SectionsOf(headings)[i] == Section(h.anchor, i, h.level, h.title, h.charStart, h.charEnd)
  {
  }

  /** What a row of decimal digits is worth. */
  function Worth(d: string): int {
    if d == "" then 0 else Worth(d[..|d| - 1]) * 10 + (d[|d| - 1] as int - '0' as int)
  }

  /** Numbers are written in decimal, without leading zeros. */
  lemma {:induction false} DecimalMeans(n: nat)
    ensures Worth(Decimal(n)) == n && (Decimal(n)[0] == '0' ==> n == 0)
  {
    var d := Decimal(n);
    if n >= 10 {
      DecimalMeans(n / 10);
      assert d[..|d| - 1] == Decimal(n / 10);
    } else {
      assert d[..0] == "";
    }
  }

  // ----------------------------------------------------------------- anchors

  lemma DecimalIsInjective(m: nat, n: nat)
    requires Decimal(m) == Decimal(n)
    ensures m == n
    decreases m
  {
    if m >= 10 && n >= 10 {
      var d, e := Decimal(m), Decimal(n);
      assert d[..|d| - 1] == Decimal(m / 10) && e[..|e| - 1] == Decimal(n / 10);
      DecimalIsInjective(m / 10, n / 10);
    }
  }

  lemma SuffixIsAfterLastHyphen(base: string, k: nat, i: nat)
    requires i < |Suffixed(base, k)| && Suffixed(base, k)[i] == '-'
    ensures i <= |base|
  {
    var s := Suffixed(base, k);
    forall j | |base| < j < |s| ensures s[j] != '-' {
      assert s[j] == Decimal(k)[j - |base| - 1];
    }
  }

  /** The suffix of a disambiguated anchor can be told from its base. */
  lemma SuffixedIsInjective(a: string, m: nat, b: string, n: nat)
    requires Suffixed(a, m) == Suffixed(b, n)
    ensures a == b && m == n
  {
    var s := Suffixed(a, m);
    SuffixIsAfterLastHyphen(a, m, |b|);
    SuffixIsAfterLastHyphen(b, n, |a|);
    assert s[..|a|] == a && s[..|b|] == b;
    assert s[|a| + 1..] == Decimal(m) && s[|b| + 1..] == Decimal(n);
    DecimalIsInjective(m, n);
  }

  lemma DecimalExtendsKey(key: string, n: nat)
    requires Slug.IsKey(key)
    ensures Slug.IsKey(Suffixed(key, n))
  {
    var s, d := Suffixed(key, n), Decimal(n);
    forall i | 0 <= i < |s| ensures Slug.IsWordChar(s[i]) || s[i] == '-' {
      if i > |key| {
        assert s[i] == d[i - |key| - 1];
      }
    }
    forall i | 0 <= i < |s| - 1 ensures s[i] != '-' || s[i + 1] != '-' {
      if i >= |key| {
        assert s[i + 1] == d[i - |key|];
      }
    }
    assert s[|s| - 1] == d[|d| - 1];
  }

  /** Every anchor is a key: the base for the first heading with it, the base with `-k` for
      the k-th. */
  lemma AnchorsAreKeys(found: seq<Found>, i: nat)
    requires i < |found|
    ensures Slug.IsKey(Anchor(found, i))
    ensures |Anchor(found, i)| <= |Base(found, i)| + 1 + |Decimal(Rank(found, i))|
  {
    Slug.SlugIsKeyWithinLimit(found[i].title, ANCHOR_LENGTH);
    if Slug.Slugify(found[i].title, ANCHOR_LENGTH) == "" {
      DecimalExtendsKey("section", i + 1);
      assert Base(found, i) == Suffixed("section", i + 1);
    }
    if Rank(found, i) > 1 {
      DecimalExtendsKey(Base(found, i), Rank(found, i));
    }
  }

  lemma {:induction false} OccurrencesGrow(found: seq<Found>, m: nat, n: nat, base: string)
    requires m <= n <= |found|
    ensures Occurrences(found, m, base) <= Occurrences(found, n, base)
  {
    if m < n {
      OccurrencesGrow(found, m, n - 1, base);
    }
  }

  lemma RanksGrow(found: seq<Found>, i: nat, j: nat)
    requires i < j < |found| && Base(found, i) == Base(found, j)
    ensures Rank(found, i) < Rank(found, j)
  {
    OccurrencesGrow(found, i + 1, j, Base(found, j));
  }

  lemma {:induction false} FirstWithBase(found: seq<Found>, i: nat) returns (f: nat)
    requires i < |found|
    ensures f <= i && Base(found, f) == Base(found, i) && Rank(found, f) == 1
  {
    f := i;
    while Rank(found, f) > 1
      invariant f <= i && Base(found, f) == Base(found, i)
      decreases f
    {
      f := Earlier(found, f, Base(found, f));
    }
  }

  lemma {:induction false} Earlier(found: seq<Found>, n: nat, base: string) returns (e: nat)
    requires n <= |found| && Occurrences(found, n, base) > 0
    ensures e < n && Base(found, e) == base
  {
    if Base(found, n - 1) == base {
      e := n - 1;
    } else {
      e := Earlier(found, n - 1, base);
    }
  }

  ghost predicate AnchorsDistinct(found: seq<Found>) {
    forall i, j :: 0 <= i < j < |found| ==> Anchor(found, i) != Anchor(found, j)
  }

  /** Some title's slug is another, repeated title's slug with the suffix that repetition
      gets. */
  ghost predicate SuffixTaken(found: seq<Found>) {
    exists i, j :: 0 <= i < |found| && 0 <= j < |found| && TakesSuffixOf(found, i, j)
  }

  predicate TakesSuffixOf(found: seq<Found>, i: nat, j: nat)
    requires i < |found| && j < |found|
  {
    Rank(found, j) > 1 && Base(found, i) == Suffixed(Base(found, j), Rank(found, j))
  }

  lemma SameAnchorMeansTaken(found: seq<Found>, i: nat, j: nat)
    requires i < j < |found| && Anchor(found, i) == Anchor(found, j)
    ensures SuffixTaken(found)
  {
    if Rank(found, i) > 1 && Rank(found, j) > 1 {
      SuffixedIsInjective(Base(found, i), Rank(found, i), Base(found, j), Rank(found, j));
    }
    if Base(found, i) == Base(found, j) {
      RanksGrow(found, i, j);
    }
    assert TakesSuffixOf(found, i, j) || TakesSuffixOf(found, j, i);
  }

  /** The anchors of an article are pairwise distinct exactly when no title's slug is the
      suffixed form of another title that repeats. */
  lemma AnchorsDistinctExactly(found: seq<Found>)
    ensures AnchorsDistinct(found) <==> !SuffixTaken(found)
  {
    if !AnchorsDistinct(found) {
      var i, j :| 0 <= i < j < |found| && Anchor(found, i) == Anchor(found, j);
      SameAnchorMeansTaken(found, i, j);
    }
    if SuffixTaken(found) {
      var i, j :| 0 <= i < |found| && 0 <= j < |found| && TakesSuffixOf(found, i, j);
      var f := FirstWithBase(found, i);
      assert Anchor(found, f) == Anchor(found, j) && f != j;
    }
  }

  /** Three headings whose slugs are "a", "a" and "a-2" share an anchor. */
  lemma RepeatMeetsSuffix(found: seq<Found>)
    requires |found| == 3 && found[0].title == found[1].title == "a" && found[2].title == "a-2"
    ensures Anchor(found, 0) == "a" && Anchor(found, 1) == Anchor(found, 2) == "a-2"
    ensures !AnchorsDistinct(found)
  {
    Slug.SlugOfKeyIsItself("a", ANCHOR_LENGTH);
    Slug.SlugOfKeyIsItself("a-2", ANCHOR_LENGTH);
    assert Base(found, 0) == Base(found, 1) == "a" && Base(found, 2) == "a-2";
    assert Occurrences(found, 1, "a") == 1 && Occurrences(found, 2, "a") == 2;
    assert Occurrences(found, 2, "a-2") == 0;
    assert Suffixed("a", 2) == "a-2";
  }
}
