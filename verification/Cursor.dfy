/** The opaque cursor: base64url (section 5 of RFC 4648) with its padding removed, and put
    back before decoding. The JSON inside is bytes here.

    Decoding follows the lenient decoder the program calls: both base64 alphabets are
    taken, other ASCII characters are skipped, and decoding stops at a complete pad. */
module Cursor {
  import opened Wrappers

  type Byte = b: int | 0 <= b < 256
  type Sextet = v: int | 0 <= v < 64

  function Char(v: Sextet): char {
    if v < 26 then ('A' as int + v) as char
    else if v < 52 then ('a' as int + (v - 26)) as char
    else if v < 62 then ('0' as int + (v - 52)) as char
    else if v == 62 then '-'
    else '_'
  }

  function Value(c: char): Option<Sextet> {
    if 'A' <= c <= 'Z' then Some(c as int - 'A' as int)
    else if 'a' <= c <= 'z' then Some(c as int - 'a' as int + 26)
    else if '0' <= c <= '9' then Some(c as int - '0' as int + 52)
    else if c == '-' || c == '+' then Some(62)
    else if c == '_' || c == '/' then Some(63)
    else None
  }

  lemma CharHasValue(v: Sextet)
    ensures Value(Char(v)) == Some(v) && Char(v) != '=' && Char(v) < 128 as char
  {
  }

  /** The alphabet of section 5 of RFC 4648: letters, digits, then '-' and '_'. */
  lemma AlphabetIsUrlSafe(v: Sextet)
    ensures v < 26 ==> Char(v) as int == 'A' as int + v
    ensures 26 <= v < 52 ==> Char(v) as int == 'a' as int + v - 26
    ensures 52 <= v < 62 ==> Char(v) as int == '0' as int + v - 52
    ensures Char(62) == '-' && Char(63) == '_'
  {
  }

  // The four sextets of a group of three bytes.

  function First(a: Byte): Sextet { a / 4 }

  function Second(a: Byte, b: Byte): Sextet { a % 4 * 16 + b / 16 }

  function Third(b: Byte, c: Byte): Sextet { b % 16 * 4 + c / 64 }

  function Fourth(c: Byte): Sextet { c % 64 }

  function Group(a: Byte, b: Byte, c: Byte): string {
    [Char(First(a)), Char(Second(a, b)), Char(Third(b, c)), Char(Fourth(c))]
  }

  /** The sextets are the 24 bits of the group from the most significant on, as section 4 of
      RFC 4648 has it. */
  lemma GroupIsBigEndian(a: Byte, b: Byte, c: Byte)
    ensures ((First(a) * 64 + Second(a, b)) * 64 + Third(b, c)) * 64 + Fourth(c) == (a * 256 + b) * 256 + c
  {
  }

  /** The encoder, with padding: four characters for every three bytes. */
  function Encode(data: seq<Byte>): string {
    if |data| == 0 then ""
    else if |data| == 1 then [Char(First(data[0])), Char(Second(data[0], 0)), '=', '=']
    else if |data| == 2 then [Char(First(data[0])), Char(Second(data[0], data[1])), Char(Third(data[1], 0)), '=']
    else Group(data[0], data[1], data[2]) + Encode(data[3..])
  }

  function StripPadding(s: string): string {
    if s != "" && s[|s| - 1] == '=' then StripPadding(s[..|s| - 1]) else s
  }

  function EncodeCursor(data: seq<Byte>): string {
    StripPadding(Encode(data))
  }

  function Pad(n: nat): string {
    if n == 0 then "" else Pad(n - 1) + "="
  }

  /** `-len % 4`, which Python takes as non-negative. */
  function PadLength(len: nat): nat {
    -(len as int) % 4
  }

  function Prepend(b: int, rest: Option<seq<Byte>>): Option<seq<Byte>>
    requires 0 <= b < 256
  {
    if rest.Some? then Some([b] + rest.value) else None
  }

  /** The decoder's loop: `quad` characters of the current group are read, `left` holds
      their unused low bits, `pads` the padding characters since. */
  function Decode(s: string, quad: nat, left: nat, pads: nat): Option<seq<Byte>>
    requires quad <= 3 && left < (if quad == 1 then 64 else if quad == 2 then 16 else if quad == 3 then 4 else 1)
    decreases |s|
  {
    if s == "" then (if quad == 0 then Some([]) else None)
    else if s[0] == '=' then
      if quad >= 2 then (if quad + pads + 1 >= 4 then Some([]) else Decode(s[1..], quad, left, pads + 1))
      else Decode(s[1..], quad, left, pads)
    else match Value(s[0])
      case None => Decode(s[1..], quad, left, pads)
      case Some(v) =>
        if quad == 0 then Decode(s[1..], 1, v, 0)
        else if quad == 1 then Prepend(left * 4 + v / 16, Decode(s[1..], 2, v % 16, 0))
        else if quad == 2 then Prepend(left * 16 + v / 4, Decode(s[1..], 3, v % 4, 0))
        else Prepend(left * 64 + v, Decode(s[1..], 0, 0, 0))
  }

  predicate IsAscii(s: string) {
    forall i :: 0 <= i < |s| ==> s[i] < 128 as char
  }

  /** None stands for the REQUEST_INVALID refusal. */
  function DecodeCursor(cursor: string): Option<seq<Byte>> {
    if IsAscii(cursor) then Decode(cursor + Pad(PadLength(|cursor|)), 0, 0, 0) else None
  }

  // ------------------------------------------------------------- round trip

  /** What stripping leaves: two characters for a last lone byte, three for a last pair. */
  function Unpadded(data: seq<Byte>): string {
    if |data| == 0 then ""
    else if |data| == 1 then [Char(First(data[0])), Char(Second(data[0], 0))]
    else if |data| == 2 then [Char(First(data[0])), Char(Second(data[0], data[1])), Char(Third(data[1], 0))]
    else Group(data[0], data[1], data[2]) + Unpadded(data[3..])
  }

  lemma {:induction false} EncodeIsUnpaddedAndPad(data: seq<Byte>)
    ensures Encode(data) == Unpadded(data) + Pad(PadLength(|Unpadded(data)|))
    decreases |data|
  {
    if |data| <= 2 {
      assert Pad(0) == "" && Pad(1) == "=" && Pad(2) == "==";
    } else {
      EncodeIsUnpaddedAndPad(data[3..]);
      var rest := Unpadded(data[3..]);
      SameRemainder(|rest|);
      assert Group(data[0], data[1], data[2]) + (rest + Pad(PadLength(|rest|)))
          == (Group(data[0], data[1], data[2]) + rest) + Pad(PadLength(|rest|));
    }
  }

  lemma SameRemainder(n: nat)
    ensures PadLength(n + 4) == PadLength(n)
  {
  }

  predicate IsPlain(s: string) {
    forall i :: 0 <= i < |s| ==> s[i] != '=' && s[i] < 128 as char
  }

  lemma {:induction false} UnpaddedIsPlain(data: seq<Byte>)
    ensures IsPlain(Unpadded(data))
    decreases |data|
  {
    forall v: Sextet ensures Char(v) != '=' && Char(v) < 128 as char {
      CharHasValue(v);
    }
    if |data| > 2 {
      UnpaddedIsPlain(data[3..]);
    }
  }

  lemma {:induction false} StrippingRemovesPad(s: string, n: nat)
    requires s == "" || s[|s| - 1] != '='
    ensures StripPadding(s + Pad(n)) == s
  {
    if n == 0 {
      assert s + Pad(0) == s;
    } else {
      var t := s + Pad(n);
      assert t[..|t| - 1] == s + Pad(n - 1);
      StrippingRemovesPad(s, n - 1);
    }
  }

  lemma DecodeFirst(v: Sextet, t: string)
    ensures Decode([Char(v)] + t, 0, 0, 0) == Decode(t, 1, v, 0)
  {
    CharHasValue(v);
    assert ([Char(v)] + t)[1..] == t;
  }

  lemma SecondBits(a: Byte, b: Byte)
    ensures First(a) * 4 + Second(a, b) / 16 == a && Second(a, b) % 16 == b / 16
  {
  }

  lemma ThirdBits(b: Byte, c: Byte)
    ensures b / 16 * 16 + Third(b, c) / 4 == b && Third(b, c) % 4 == c / 64
  {
  }

  lemma FourthBits(c: Byte)
    ensures c / 64 * 64 + Fourth(c) == c
  {
  }

  lemma DecodeSecond(a: Byte, b: Byte, t: string)
    ensures Decode([Char(Second(a, b))] + t, 1, First(a), 0) == Prepend(a, Decode(t, 2, b / 16, 0))
  {
    CharHasValue(Second(a, b));
    SecondBits(a, b);
    assert ([Char(Second(a, b))] + t)[1..] == t;
  }

  lemma DecodeThird(b: Byte, c: Byte, t: string)
    ensures Decode([Char(Third(b, c))] + t, 2, b / 16, 0) == Prepend(b, Decode(t, 3, c / 64, 0))
  {
    CharHasValue(Third(b, c));
    ThirdBits(b, c);
    assert ([Char(Third(b, c))] + t)[1..] == t;
  }

  lemma DecodeFourth(c: Byte, t: string)
    ensures Decode([Char(Fourth(c))] + t, 3, c / 64, 0) == Prepend(c, Decode(t, 0, 0, 0))
  {
    CharHasValue(Fourth(c));
    FourthBits(c);
    assert ([Char(Fourth(c))] + t)[1..] == t;
  }

  lemma DecodeStart(a: Byte, b: Byte, t: string)
    ensures Decode([Char(First(a)), Char(Second(a, b))] + t, 0, 0, 0) == Prepend(a, Decode(t, 2, b / 16, 0))
  {
    DecodeFirst(First(a), [Char(Second(a, b))] + t);
    DecodeSecond(a, b, t);
    assert [Char(First(a)), Char(Second(a, b))] + t == [Char(First(a))] + ([Char(Second(a, b))] + t);
  }

  lemma DecodeGroup(a: Byte, b: Byte, c: Byte, t: string)
    requires Decode(t, 0, 0, 0).Some?
    ensures Decode(Group(a, b, c) + t, 0, 0, 0) == Some([a, b, c] + Decode(t, 0, 0, 0).value)
  {
    var t3 := [Char(Fourth(c))] + t;
    var t2 := [Char(Third(b, c))] + t3;
    DecodeStart(a, b, t2);
    DecodeThird(b, c, t3);
    DecodeFourth(c, t);
    assert Group(a, b, c) + t == [Char(First(a)), Char(Second(a, b))] + t2;
    var data := Decode(t, 0, 0, 0).value;
    assert [a] + ([b] + ([c] + data)) == [a, b, c] + data;
  }

  lemma DecodePads()
    ensures Decode("=", 3, 0, 0) == Some([])
    ensures Decode("==", 2, 0, 0) == Some([])
  {
    assert "=="[1..] == "=";
    assert Decode("=", 2, 0, 1) == Some([]);
  }

  lemma DecodeLone(a: Byte)
    ensures Decode(Encode([a]), 0, 0, 0) == Some([a])
  {
    DecodePads();
    DecodeStart(a, 0, "==");
    assert Encode([a]) == [Char(First(a)), Char(Second(a, 0))] + "==";
    assert [a] + [] == [a];
  }

  lemma DecodePair(a: Byte, b: Byte)
    ensures Decode(Encode([a, b]), 0, 0, 0) == Some([a, b])
  {
    DecodePads();
    var last := [Char(Third(b, 0))] + "=";
    DecodeThird(b, 0, "=");
    DecodeStart(a, b, last);
    assert Encode([a, b]) == [Char(First(a)), Char(Second(a, b))] + last;
    assert [a] + ([b] + []) == [a, b];
  }

  lemma {:induction false} DecodeUndoesEncode(data: seq<Byte>)
    ensures Decode(Encode(data), 0, 0, 0) == Some(data)
    decreases |data|
  {
    if |data| == 1 {
      DecodeLone(data[0]);
      assert data == [data[0]];
    } else if |data| == 2 {
      DecodePair(data[0], data[1]);
      assert data == [data[0], data[1]];
    } else if |data| > 2 {
      DecodeUndoesEncode(data[3..]);
      DecodeGroup(data[0], data[1], data[2], Encode(data[3..]));
      assert [data[0], data[1], data[2]] + data[3..] == data;
    }
  }

  /** Every payload survives the trip through a cursor, and a cursor never carries padding. */
  lemma CursorRoundTrip(data: seq<Byte>)
    ensures DecodeCursor(EncodeCursor(data)) == Some(data)
    ensures '=' !in EncodeCursor(data)
  {
    EncodeIsUnpaddedAndPad(data);
    UnpaddedIsPlain(data);
    StrippingRemovesPad(Unpadded(data), PadLength(|Unpadded(data)|));
    DecodeUndoesEncode(data);
  }

  // -------------------------------------------------------------- malformed

  predicate InAlphabet(s: string) {
    forall i :: 0 <= i < |s| ==> Value(s[i]).Some?
  }

  lemma {:induction false} PadsDecode(n: nat, quad: nat, left: nat, pads: nat)
    requires quad <= 3 && left < (if quad == 1 then 64 else if quad == 2 then 16 else if quad == 3 then 4 else 1)
    ensures Decode(Pad(n), quad, left, pads).Some? <==> quad == 0 || (quad >= 2 && n > 0 && quad + pads + n >= 4)
    decreases n
  {
    if n > 0 {
      PadFromFront(n);
      if quad < 2 {
        PadsDecode(n - 1, quad, left, pads);
      } else if quad + pads + 1 < 4 {
        PadsDecode(n - 1, quad, left, pads + 1);
      }
    }
  }

  lemma {:induction false} PadFromFront(n: nat)
    requires n > 0
    ensures Pad(n)[0] == '=' && Pad(n)[1..] == Pad(n - 1)
  {
    if n > 1 {
      PadFromFront(n - 1);
      assert Pad(n)[1..] == Pad(n - 1)[1..] + "=";
    }
  }

  /** One character on: the place in the group, and the bits left over. */
  lemma CharDecodes(s: string, quad: nat, left: nat) returns (next: nat, kept: nat)
    requires quad <= 3 && left < (if quad == 1 then 64 else if quad == 2 then 16 else if quad == 3 then 4 else 1)
    requires s != "" && InAlphabet(s[..1])
    ensures next == (quad + 1) % 4
    ensures kept < (if next == 1 then 64 else if next == 2 then 16 else if next == 3 then 4 else 1)
    ensures Decode(s, quad, left, 0).Some? <==> Decode(s[1..], next, kept, 0).Some?
  {
    assert s[..1][0] == s[0];
    var v := Value(s[0]).value;
    next := if quad == 3 then 0 else quad + 1;
    kept := if quad == 0 then v else if quad == 1 then v % 16 else if quad == 2 then v % 4 else 0;
  }

  lemma {:induction false} AlphabetDecodes(s: string, n: nat, quad: nat, left: nat)
    requires quad <= 3 && left < (if quad == 1 then 64 else if quad == 2 then 16 else if quad == 3 then 4 else 1)
    requires InAlphabet(s)
    ensures var r := (quad + |s|) % 4;
            Decode(s + Pad(n), quad, left, 0).Some? <==> r == 0 || (r >= 2 && r + n >= 4)
    decreases |s|
  {
    if s == "" {
      assert s + Pad(n) == Pad(n);
      PadsDecode(n, quad, left, 0);
    } else {
      assert (s + Pad(n))[..1] == s[..1] && (s + Pad(n))[1..] == s[1..] + Pad(n);
      var next, kept := CharDecodes(s + Pad(n), quad, left);
      AlphabetDecodes(s[1..], n, next, kept);
      SameTurn(quad, |s|);
    }
  }

  lemma SameTurn(quad: nat, n: nat)
    requires n > 0
    ensures ((quad + 1) % 4 + (n - 1)) % 4 == (quad + n) % 4
  {
  }

  /** A cursor cut short by a client is refused here exactly when its length is one more
      than a multiple of four; otherwise it decodes and is left to the JSON parser. */
  lemma TruncatedCursorRefusedExactly(cursor: string)
    requires InAlphabet(cursor)
    ensures DecodeCursor(cursor).Some? <==> |cursor| % 4 != 1
  {
    assert IsAscii(cursor) by {
      forall i | 0 <= i < |cursor| ensures cursor[i] < 128 as char {
        assert Value(cursor[i]).Some?;
      }
    }
    AlphabetDecodes(cursor, PadLength(|cursor|), 0, 0);
  }
}
