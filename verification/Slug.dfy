/** Slugs: how the text of a title becomes a key. The input is ASCII text; folding accents
    away is left to the caller. */
module Slug {
  predicate IsWordChar(c: char) {
    'a' <= c <= 'z' || '0' <= c <= '9'
  }

  function LowerChar(c: char): char {
    if 'A' <= c <= 'Z' then (c as int + 32) as char else c
  }

  function Lower(s: string): string {
    seq(|s|, i requires 0 <= i < |s| => LowerChar(s[i]))
  }

  /** Every run of other characters becomes one hyphen. `inRun` says that the run the text
      starts in already has its hyphen. */
  function Hyphenate(s: string, inRun: bool): string {
    if s == "" then ""
    else if IsWordChar(s[0]) then [s[0]] + Hyphenate(s[1..], false)
    else if inRun then Hyphenate(s[1..], true)
    else "-" + Hyphenate(s[1..], true)
  }

  function StripLeft(s: string): string {
    if s != "" && s[0] == '-' then StripLeft(s[1..]) else s
  }

  function StripRight(s: string): string {
    if s != "" && s[|s| - 1] == '-' then StripRight(s[..|s| - 1]) else s
  }

  function Strip(s: string): string {
    StripRight(StripLeft(s))
  }

  /** The index of the last hyphen, or the length when there is none: `rsplit("-", 1)[0]`
      keeps what comes before it. */
  function LastHyphen(s: string, from: nat): (k: nat)
    requires from <= |s|
    ensures k <= |s|
    ensures k < |s| ==> k < from && s[k] == '-'
    ensures forall i :: 0 <= i < from && s[i] == '-' ==> i <= k < |s|
  {
    if from == 0 then |s| else if s[from - 1] == '-' then from - 1 else LastHyphen(s, from - 1)
  }

  function FullSlug(value: string): string {
    Strip(Hyphenate(Lower(value), false))
  }

  function Cut(slug: string, maxLength: nat): string {
    if |slug| <= maxLength then slug
    else
      var head := slug[..maxLength];
      Strip(head[..LastHyphen(head, maxLength)])
  }

  function Slugify(value: string, maxLength: nat): string {
    Cut(FullSlug(value), maxLength)
  }

  // ---------------------------------------------------------------- grammar

  /** `[a-z0-9]+(-[a-z0-9]+)*`: word characters and hyphens, no hyphen first, last or next
      to another. */
  predicate IsKey(s: string) {
    && s != ""
    && (forall i :: 0 <= i < |s| ==> IsWordChar(s[i]) || s[i] == '-')
    && s[0] != '-' && s[|s| - 1] != '-'
    && (forall i :: 0 <= i < |s| - 1 ==> s[i] != '-' || s[i + 1] != '-')
  }

  /** A key but for hyphens at the ends. */
  predicate IsLoose(s: string) {
    && (forall i :: 0 <= i < |s| ==> IsWordChar(s[i]) || s[i] == '-')
    && (forall i :: 0 <= i < |s| - 1 ==> s[i] != '-' || s[i + 1] != '-')
  }

  lemma {:induction false} HyphenatedIsLoose(s: string, inRun: bool)
    ensures IsLoose(Hyphenate(s, inRun))
    ensures inRun && Hyphenate(s, inRun) != "" ==> Hyphenate(s, inRun)[0] != '-'
    decreases |s|
  {
    if s != "" {
      HyphenatedIsLoose(s[1..], !IsWordChar(s[0]));
    }
  }

  lemma StripLoose(s: string)
    requires IsLoose(s)
    ensures Strip(s) == "" || IsKey(Strip(s))
    ensures (s == "" || IsKey(s)) ==> Strip(s) == s
    ensures |Strip(s)| <= |s|
  {
    var l := StripLeft(s);
    if s != "" && s[0] == '-' {
      assert StripLeft(s[1..]) == s[1..];
    }
    if l != "" && l[|l| - 1] == '-' {
      assert StripRight(l[..|l| - 1]) == l[..|l| - 1];
    }
  }

  lemma FullSlugIsKey(value: string)
    ensures FullSlug(value) == "" || IsKey(FullSlug(value))
  {
    HyphenatedIsLoose(Lower(value), false);
    StripLoose(Hyphenate(Lower(value), false));
  }

  /** Where a slug that is too long is cut. */
  function CutPoint(slug: string, maxLength: nat): (k: nat)
    requires |slug| > maxLength
    ensures k <= maxLength
  {
    LastHyphen(slug[..maxLength], maxLength)
  }

  lemma CutIsPrefix(slug: string, maxLength: nat)
    requires IsKey(slug) && |slug| > maxLength
    ensures Cut(slug, maxLength) == slug[..CutPoint(slug, maxLength)]
    ensures maxLength > 0 ==> IsKey(Cut(slug, maxLength))
  {
    var head, k := slug[..maxLength], CutPoint(slug, maxLength);
    assert head[..k] == slug[..k];
    assert forall i :: 0 <= i < maxLength ==> head[i] == slug[i];
    StripLoose(slug[..k]);
    if maxLength > 0 {
      assert k > 0;
      assert slug[k - 1] != '-' by {
        if k < maxLength {
          assert slug[k] == '-';
        }
      }
      assert IsKey(slug[..k]);
    }
  }

  /** A slug is empty or a key, and fits; one that would not fit is cut at the last hyphen
      before the limit, so between words, unless its first word alone fills the limit. */
  lemma SlugIsKeyWithinLimit(value: string, maxLength: nat)
    requires maxLength > 0
    ensures var full, slug := FullSlug(value), Slugify(value, maxLength);
            && (slug == "" || IsKey(slug))
            && (slug == "" <==> full == "")
            && |slug| <= maxLength
            && (|full| <= maxLength ==> slug == full)
            && (|full| > maxLength ==>
                  && slug <= full
                  && (forall i :: |slug| < i < maxLength ==> full[i] != '-')
                  && (if |slug| < maxLength then full[|slug|] == '-'
                      else forall i :: 0 <= i < maxLength ==> full[i] != '-'))
  {
    FullSlugIsKey(value);
    var full := FullSlug(value);
    if |full| > maxLength {
      CutIsPrefix(full, maxLength);
      var head := full[..maxLength];
      assert forall i :: 0 <= i < maxLength ==> head[i] == full[i];
    }
  }

  lemma {:induction false} HyphenateKeepsKey(s: string, inRun: bool)
    requires IsLoose(s) && (inRun && s != "" ==> s[0] != '-')
    ensures Hyphenate(s, inRun) == s
    decreases |s|
  {
    if s != "" {
      HyphenateKeepsKey(s[1..], s[0] == '-');
    }
  }

  lemma SlugOfKeyIsItself(key: string, maxLength: nat)
    requires (key == "" || IsKey(key)) && |key| <= maxLength
    ensures Slugify(key, maxLength) == key
  {
    assert Lower(key) == key;
    HyphenateKeepsKey(key, false);
    StripLoose(key);
  }

  /** Slugging a slug changes nothing. */
  lemma SlugifyIsIdempotent(value: string, maxLength: nat)
    requires maxLength > 0
    ensures Slugify(Slugify(value, maxLength), maxLength) == Slugify(value, maxLength)
  {
    SlugIsKeyWithinLimit(value, maxLength);
    SlugOfKeyIsItself(Slugify(value, maxLength), maxLength);
  }

  // ------------------------------------------------------------------ words

  function RunLength(s: string): (n: nat)
    ensures n <= |s|
    ensures forall i :: 0 <= i < n ==> IsWordChar(s[i])
    ensures n < |s| ==> !IsWordChar(s[n])
  {
    if s == "" || !IsWordChar(s[0]) then 0 else 1 + RunLength(s[1..])
  }

  /** The maximal runs of word characters. */
  function Words(s: string): seq<string>
    decreases |s|
  {
    if s == "" then []
    else if !IsWordChar(s[0]) then Words(s[1..])
    else [s[..RunLength(s)]] + Words(s[RunLength(s)..])
  }

  function Join(words: seq<string>): string {
    if words == [] then ""
    else if |words| == 1 then words[0]
    else words[0] + "-" + Join(words[1..])
  }

  lemma {:induction false} HyphenateWord(w: string, t: string, inRun: bool)
    requires w != "" && forall i :: 0 <= i < |w| ==> IsWordChar(w[i])
    ensures Hyphenate(w + t, inRun) == w + Hyphenate(t, false)
    decreases |w|
  {
    assert (w + t)[1..] == w[1..] + t;
    if |w| == 1 {
      assert w[1..] + t == t && w == [w[0]];
    } else {
      HyphenateWord(w[1..], t, false);
      assert [w[0]] + (w[1..] + Hyphenate(t, false)) == w + Hyphenate(t, false);
    }
  }

  lemma {:induction false} WordsAreWords(s: string)
    ensures forall w :: w in Words(s) ==> w != "" && forall i :: 0 <= i < |w| ==> IsWordChar(w[i])
    decreases |s|
  {
    if s != "" {
      if !IsWordChar(s[0]) {
        WordsAreWords(s[1..]);
      } else {
        WordsAreWords(s[RunLength(s)..]);
      }
    }
  }

  /** After the run a text starts in, what is left is its words joined by hyphens, with one
      more hyphen at the end if the text ends in another run. */
  lemma {:induction false} HyphenateJoinsWords(s: string)
    ensures Hyphenate(s, true) == Join(Words(s)) || (Words(s) != [] && Hyphenate(s, true) == Join(Words(s)) + "-")
    decreases |s|
  {
    if s != "" {
      if !IsWordChar(s[0]) {
        HyphenateJoinsWords(s[1..]);
      } else {
        var n := RunLength(s);
        var rest := s[n..];
        assert s == s[..n] + rest;
        HyphenateWord(s[..n], rest, true);
        if rest != "" {
          HyphenateJoinsWords(rest[1..]);
          var words := Words(rest[1..]);
          assert Words(s) == [s[..n]] + words;
          assert Hyphenate(s, true) == s[..n] + ("-" + Hyphenate(rest[1..], true));
          if words == [] {
            assert Hyphenate(s, true) == s[..n] + "-";
            assert Join(Words(s)) == s[..n];
          } else {
            assert ([s[..n]] + words)[1..] == words;
            assert Join(Words(s)) == s[..n] + "-" + Join(words);
          }
        } else {
          assert Hyphenate(rest, false) == "";
          assert Words(s) == [s[..n]];
        }
      }
    }
  }

  lemma {:induction false} JoinIsKey(words: seq<string>)
    requires forall w :: w in words ==> w != "" && forall i :: 0 <= i < |w| ==> IsWordChar(w[i])
    ensures Join(words) == "" || IsKey(Join(words))
    decreases |words|
  {
    if |words| == 1 {
      assert words[0] in words;
    } else if |words| > 1 {
      assert words[0] in words && words[1] in words;
      JoinIsKey(words[1..]);
      assert Join(words[1..]) != "";
      var w, rest := words[0], Join(words[1..]);
      assert Join(words) == w + "-" + rest;
      forall i | 0 <= i < |Join(words)| - 1 ensures Join(words)[i] != '-' || Join(words)[i + 1] != '-' {
        if i > |w| {
          assert Join(words)[i] == rest[i - |w| - 1] && Join(words)[i + 1] == rest[i - |w|];
        }
      }
    }
  }

  /** Before any cut, a slug is the words of the lowered text joined by single hyphens. */
  lemma FullSlugJoinsWords(value: string)
    ensures FullSlug(value) == Join(Words(Lower(value)))
  {
    var s := Lower(value);
    var joined := Join(Words(s));
    HyphenateJoinsWords(s);
    WordsAreWords(s);
    JoinIsKey(Words(s));
    var h := Hyphenate(s, true);
    assert StripLeft(Hyphenate(s, false)) == StripLeft(h) by {
      if s != "" && !IsWordChar(s[0]) {
        assert Hyphenate(s, false) == "-" + h;
        assert ("-" + h)[1..] == h;
      }
    }
    assert StripLeft(h) == h;
    assert StripRight(joined) == joined;
    if h != joined {
      assert h[|h| - 1] == '-' && h[..|h| - 1] == joined;
      assert StripRight(h) == StripRight(joined);
    }
  }

  /** Lowering changes capital letters to small ones and nothing else. */
  lemma LowerMeans(s: string, i: nat)
    requires i < |s|
    ensures |Lower(s)| == |s|
    ensures 'A' <= s[i] <= 'Z' ==> Lower(s)[i] as int - 'a' as int == s[i] as int - 'A' as int
    ensures !('A' <= s[i] <= 'Z') ==> Lower(s)[i] == s[i]
  {
  }

  /** The small letters and digits of a text, in order. */
  function Kept(s: string): string {
    if s == "" then ""
    else if 'a' <= s[0] <= 'z' || '0' <= s[0] <= '9' then [s[0]] + Kept(s[1..])
    else Kept(s[1..])
  }

  lemma {:induction false} KeptAppend(s: string, t: string)
    ensures Kept(s + t) == Kept(s) + Kept(t)
  {
    if s == "" {
      assert s + t == t;
    } else {
      assert (s + t)[1..] == s[1..] + t;
      KeptAppend(s[1..], t);
    }
  }

  lemma {:induction false} HyphenateKeepsLetters(s: string, inRun: bool)
    ensures Kept(Hyphenate(s, inRun)) == Kept(s)
    decreases |s|
  {
    if s != "" {
      var rest := Hyphenate(s[1..], !IsWordChar(s[0]));
      HyphenateKeepsLetters(s[1..], !IsWordChar(s[0]));
      if IsWordChar(s[0]) {
        assert ([s[0]] + rest)[1..] == rest;
      } else if !inRun {
        assert ("-" + rest)[1..] == rest;
      }
    }
  }

  lemma {:induction false} StripLeftKeepsLetters(s: string)
    ensures Kept(StripLeft(s)) == Kept(s)
  {
    if s != "" && s[0] == '-' {
      StripLeftKeepsLetters(s[1..]);
    }
  }

  lemma {:induction false} StripRightKeepsLetters(s: string)
    ensures Kept(StripRight(s)) == Kept(s)
    decreases |s|
  {
    if s != "" && s[|s| - 1] == '-' {
      StripRightKeepsLetters(s[..|s| - 1]);
      KeptAppend(s[..|s| - 1], "-");
      assert s == s[..|s| - 1] + "-";
      assert "-"[1..] == "";
    }
  }

  /** Before any cut, slugging keeps every letter and digit of the text, lowered and in order,
      and a slug has no characters but those and hyphens. */
  lemma FullSlugKeepsLetters(value: string)
    ensures Kept(FullSlug(value)) == Kept(Lower(value))
    ensures forall i :: 0 <= i < |FullSlug(value)| ==>
              var c := FullSlug(value)[i]; 'a' <= c <= 'z' || '0' <= c <= '9' || c == '-'
  {
    var h := Hyphenate(Lower(value), false);
    HyphenateKeepsLetters(Lower(value), false);
    StripLeftKeepsLetters(h);
    StripRightKeepsLetters(StripLeft(h));
    FullSlugIsKey(value);
  }

  // ------------------------------------------------------------- key tuples

  const KEY_LENGTH := 120

  predicate Yields(items: seq<string>, i: int, key: string) {
    0 <= i < |items| && key != "" && Slugify(items[i], KEY_LENGTH) == key
  }

  /** `a` appears before `b` does. */
  ghost predicate AppearsBefore(items: seq<string>, a: string, b: string) {
    exists i :: Yields(items, i, a) && forall j :: Yields(items, j, b) ==> i < j
  }

  /** The distinct keys of a frontmatter list, in order of first appearance. */
  method KeyTuple(items: seq<string>) returns (keys: seq<string>)
    ensures forall k :: k in keys <==> exists i :: Yields(items, i, k)
    ensures forall a, b :: 0 <= a < b < |keys| ==> keys[a] != keys[b] && AppearsBefore(items, keys[a], keys[b])
  {
    keys := [];
    for n := 0 to |items|
      invariant forall k :: k in keys ==> exists i :: i < n && Yields(items, i, k)
      invariant forall i, k :: i < n && Yields(items, i, k) ==> k in keys
      invariant forall a, b :: 0 <= a < b < |keys| ==> keys[a] != keys[b] && AppearsBefore(items, keys[a], keys[b])
    {
      var key := Slugify(items[n], KEY_LENGTH);
      if key != "" && key !in keys {
        assert Yields(items, n, key);
        forall k | k in keys ensures AppearsBefore(items, k, key) {
          var i :| i < n && Yields(items, i, k);
          forall j | Yields(items, j, key) ensures i < j {}
        }
        keys := keys + [key];
      }
    }
  }
}
