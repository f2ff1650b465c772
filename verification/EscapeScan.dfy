/**
  Two scanners for Unicode escapes in JSON text: validEscapes
  (internal/codexadapter/json.go) and the loop of decodeMoltbookAgentID
  (integrations/moltbook/identity_http.go).  Both must decide the same thing:
  every \uXXXX surrogate is half of an adjacent high/low pair (RFC 8259,
  sections 7 and 8.2), and an escaped backslash never starts a Unicode escape.
 */
module EscapeScan {
  import opened Common

  type Byte = n: int | 0 <= n < 256

  const Backslash: Byte := 92
  const LetterU: Byte := 117
  const Quote: Byte := 34

  /** One lexical unit of syntactically valid JSON text. */
  datatype Unit =
    | Plain(value: Byte)                            // anything but a backslash
    | Escape(value: Byte)                           // a backslash and a letter other than u
    | Unicode(a: Byte, b: Byte, c: Byte, d: Byte)   // \u and four hexadecimal digits

  function DigitOf(b: Byte): Option<int> {
    if 48 <= b <= 57 then Some(b - 48)
    else if 97 <= b <= 102 then Some(b - 87)
    else if 65 <= b <= 70 then Some(b - 55)
    else None
  }

  /** Four hexadecimal digits as a number. */
  function ParseHex(s: seq<Byte>): Option<int> {
    if |s| != 4 || DigitOf(s[0]).None? || DigitOf(s[1]).None? || DigitOf(s[2]).None? || DigitOf(s[3]).None? then None
    else Some(((DigitOf(s[0]).value * 16 + DigitOf(s[1]).value) * 16 + DigitOf(s[2]).value) * 16 + DigitOf(s[3]).value)
  }

  predicate UnitOk(u: Unit) {
    match u
    case Plain(v) => v != Backslash
    case Escape(v) => v != LetterU
    case Unicode(a, b, c, d) => ParseHex([a, b, c, d]).Some?
  }

  ghost predicate Lexed(us: seq<Unit>) {
    forall i | 0 <= i < |us| :: UnitOk(us[i])
  }

  function UnitBytes(u: Unit): seq<Byte> {
    match u
    case Plain(v) => [v]
    case Escape(v) => [Backslash, v]
    case Unicode(a, b, c, d) => [Backslash, LetterU, a, b, c, d]
  }

  /** The text of a list of units. */
  function Text(us: seq<Unit>): seq<Byte> {
    if us == [] then [] else UnitBytes(us[0]) + Text(us[1..])
  }

  predicate High(u: Unit) {
    u.Unicode? && ParseHex([u.a, u.b, u.c, u.d]).Some? && 0xD800 <= ParseHex([u.a, u.b, u.c, u.d]).value <= 0xDBFF
  }

  predicate Low(u: Unit) {
    u.Unicode? && ParseHex([u.a, u.b, u.c, u.d]).Some? && 0xDC00 <= ParseHex([u.a, u.b, u.c, u.d]).value <= 0xDFFF
  }

  /** Every high surrogate is followed at once by a low one, and every low one follows a high one. */
  ghost predicate WellPaired(us: seq<Unit>) {
    && (forall i | 0 <= i < |us| && High(us[i]) :: i + 1 < |us| && Low(us[i + 1]))
    && (forall i | 0 <= i < |us| && Low(us[i]) :: i > 0 && High(us[i - 1]))
  }

  // ---- what the escapes stand for ----

  /** The digit for n, in either case. */
  function Digit(n: int, upper: bool): Byte
    requires 0 <= n < 16
  {
    if n < 10 then 48 + n else if upper then 55 + n else 87 + n
  }

  lemma DigitOfIff(b: Byte, n: int)
    ensures DigitOf(b) == Some(n) <==> 0 <= n < 16 && (b == Digit(n, false) || b == Digit(n, true))
  {
  }

  /** The escape of a code, each digit in the case asked for. */
  function Written(code: int, p: bool, q: bool, r: bool, s: bool): Unit
    requires 0 <= code < 0x10000
  {
    Unicode(Digit(code / 4096, p), Digit(code / 256 % 16, q), Digit(code / 16 % 16, r), Digit(code % 16, s))
  }

  /** Reading what was written gives the code back, whatever the case of the digits. */
  lemma WrittenReads(code: int, p: bool, q: bool, r: bool, s: bool)
    requires 0 <= code < 0x10000
    ensures UnitOk(Written(code, p, q, r, s)) && Code(Written(code, p, q, r, s)) == Some(code)
    ensures High(Written(code, p, q, r, s)) <==> 0xD800 <= code <= 0xDBFF
    ensures Low(Written(code, p, q, r, s)) <==> 0xDC00 <= code <= 0xDFFF
  {
    var a, b, c, d := code / 4096, code / 256 % 16, code / 16 % 16, code % 16;
    Nibbles(code);
    hide DigitOf, Digit;
    DigitOfIff(Digit(a, p), a);
    DigitOfIff(Digit(b, q), b);
    DigitOfIff(Digit(c, r), c);
    DigitOfIff(Digit(d, s), d);
    var bytes := [Digit(a, p), Digit(b, q), Digit(c, r), Digit(d, s)];
    assert ParseHex(bytes) == Some(((a * 16 + b) * 16 + c) * 16 + d);
    Surrogates(Written(code, p, q, r, s));
    hide ParseHex, High, Low;
  }

  lemma Nibbles(code: int)
    requires 0 <= code < 0x10000
    ensures 0 <= code / 4096 < 16
    ensures ((code / 4096 * 16 + code / 256 % 16) * 16 + code / 16 % 16) * 16 + code % 16 == code
  {
    assert code / 256 / 16 == code / 4096 && code / 16 / 16 == code / 256;
  }

  /** A character that is no surrogate code point. */
  predicate Scalar(c: int) {
    0 <= c < 0xD800 || 0xE000 <= c < 0x110000
  }

  /** The UTF-16 escapes of a character: one, or a pair above the basic plane. */
  function EscapesOf(c: int): seq<Unit>
    requires Scalar(c)
  {
    if c < 0x10000 then [Written(c, false, false, false, false)]
    else
      [Written(0xD800 + (c - 0x10000) / 1024, false, false, false, false),
       Written(0xDC00 + (c - 0x10000) % 1024, false, false, false, false)]
  }

  function EscapesOfAll(cs: seq<int>): seq<Unit>
    requires forall i | 0 <= i < |cs| :: Scalar(cs[i])
  {
    if cs == [] then [] else EscapesOf(cs[0]) + EscapesOfAll(cs[1..])
  }

  /** Any characters written as escapes are well paired, so no scanner refuses them. */
  lemma {:induction false} CharactersArePaired(cs: seq<int>)
    requires forall i | 0 <= i < |cs| :: Scalar(cs[i])
    ensures Lexed(EscapesOfAll(cs)) && WellPaired(EscapesOfAll(cs))
  {
    if cs != [] {
      CharactersArePaired(cs[1..]);
      hide Lexed, WellPaired, Scalar, EscapesOf;
      OneCharacter(cs[0], EscapesOfAll(cs[1..]));
    }
  }

  lemma OneCharacter(c: int, rest: seq<Unit>)
    requires Scalar(c) && Lexed(rest) && WellPaired(rest)
    ensures Lexed(EscapesOf(c) + rest) && WellPaired(EscapesOf(c) + rest)
  {
    var us := EscapesOf(c) + rest;
    hide Written, High, Low, WellPaired, UnitOk;
    if c < 0x10000 {
      WrittenReads(c, false, false, false, false);
      assert us[1..] == rest;
      SkipOther(us);
    } else {
      WrittenReads(0xD800 + (c - 0x10000) / 1024, false, false, false, false);
      WrittenReads(0xDC00 + (c - 0x10000) % 1024, false, false, false, false);
      assert us[2..] == rest;
      SkipPair(us);
    }
  }

  /** A surrogate code point alone is never accepted, wherever it stands between other text. */
  lemma LoneSurrogateRefused(before: seq<Unit>, code: int, after: seq<Unit>)
    requires 0xD800 <= code <= 0xDFFF
    requires before == [] || !before[|before| - 1].Unicode?
    requires after == [] || !after[0].Unicode?
    ensures !WellPaired(before + [Written(code, false, false, false, false)] + after)
  {
    var u := Written(code, false, false, false, false);
    var us := before + [u] + after;
    WrittenReads(code, false, false, false, false);
    assert us[|before|] == u;
    if code <= 0xDBFF {
      if after != [] { assert us[|before| + 1] == after[0]; }
    } else if before != [] {
      assert us[|before| - 1] == before[|before| - 1];
    }
  }

  // ---- text and units ----

  lemma TextEmptyOnlyIf(us: seq<Unit>)
    ensures Text(us) == [] <==> us == []
  {
    if us != [] { assert |UnitBytes(us[0])| > 0; }
  }

  /** The text of valid JSON has one reading only. */
  lemma {:induction false} OneReading(us: seq<Unit>, vs: seq<Unit>)
    requires Lexed(us) && Lexed(vs) && Text(us) == Text(vs)
    ensures us == vs
  {
    TextEmptyOnlyIf(us);
    TextEmptyOnlyIf(vs);
    if us != [] {
      SameFirst(us, vs);
      var n := |UnitBytes(us[0])|;
      assert Text(us)[n..] == Text(us[1..]) && Text(vs)[n..] == Text(vs[1..]);
      OneReading(us[1..], vs[1..]);
      assert us == [us[0]] + us[1..] && vs == [vs[0]] + vs[1..];
    }
  }

  lemma SameFirst(us: seq<Unit>, vs: seq<Unit>)
    requires Lexed(us) && Lexed(vs) && us != [] && vs != [] && Text(us) == Text(vs)
    ensures us[0] == vs[0]
  {
    var s := Text(us);
    assert UnitOk(us[0]) && UnitOk(vs[0]);
    assert s[0..] == Text(us) + [] && s[0..] == Text(vs) + [];
    ReadUnit(s, 0, us, []);
    ReadUnit(s, 0, vs, []);
  }

  /** Reading `us` and then `tail` starts at position i. */
  ghost predicate At(data: seq<Byte>, i: int, us: seq<Unit>, tail: seq<Byte>) {
    0 <= i <= |data| && data[i..] == Text(us) + tail
  }

  /** The bytes of a unit lie at position i. */
  predicate Lies(data: seq<Byte>, i: int, u: Unit) {
    match u
    case Plain(v) => 0 <= i < |data| && data[i] == v
    case Escape(v) => 0 <= i < |data| - 1 && data[i] == Backslash && data[i + 1] == v
    case Unicode(a, b, c, d) =>
      0 <= i < |data| - 5 && data[i] == Backslash && data[i + 1] == LetterU && data[i + 2..i + 6] == [a, b, c, d]
  }

  function Width(u: Unit): int { |UnitBytes(u)| }

  lemma ByteAt(data: seq<Byte>, i: int, s: seq<Byte>, rest: seq<Byte>, k: nat)
    requires 0 <= i <= |data| && data[i..] == s + rest && k < |s|
    ensures i + k < |data| && data[i + k] == s[k]
  {
    assert data[i..][k] == (s + rest)[k];
  }

  lemma ReadUnit(data: seq<Byte>, i: int, us: seq<Unit>, tail: seq<Byte>)
    requires At(data, i, us, tail) && us != []
    ensures Lies(data, i, us[0]) && At(data, i + Width(us[0]), us[1..], tail)
    ensures i + Width(us[0]) + |tail| <= |data|
  {
    var u, rest := UnitBytes(us[0]), Text(us[1..]) + tail;
    assert data[i..] == u + rest;
    assert |data| - i == |u| + |rest|;
    assert data[i + |u|..] == rest by { assert data[i..][|u|..] == rest; }
    match us[0]
    case Plain(_) => ByteAt(data, i, u, rest, 0);
    case Escape(_) =>
      ByteAt(data, i, u, rest, 0);
      ByteAt(data, i, u, rest, 1);
    case Unicode(_, _, _, _) => SixBytes(data, i, u, rest);
  }

  lemma SixBytes(data: seq<Byte>, i: int, s: seq<Byte>, rest: seq<Byte>)
    requires 0 <= i <= |data| && data[i..] == s + rest && |s| == 6
    ensures i + 5 < |data| && data[i] == s[0] && data[i + 1] == s[1] && data[i + 2..i + 6] == s[2..6]
  {
    ByteAt(data, i, s, rest, 0);
    ByteAt(data, i, s, rest, 1);
    forall k | 2 <= k < 6 ensures i + k < |data| && data[i + k] == s[k] { ByteAt(data, i, s, rest, k); }
    assert i + 5 < |data| by { ByteAt(data, i, s, rest, 5); }
  }

  lemma AtEnd(data: seq<Byte>, i: int, us: seq<Unit>, tail: seq<Byte>)
    requires At(data, i, us, tail)
    ensures us == [] <==> i == |data| - |tail|
    ensures i <= |data| - |tail|
  {
    TextEmptyOnlyIf(us);
    assert |data[i..]| == |Text(us)| + |tail|;
  }

  // ---- pairing, one unit at a time ----

  /** A unit that is no surrogate can be skipped. */
  lemma SkipOther(us: seq<Unit>)
    requires us != [] && !High(us[0]) && !Low(us[0])
    ensures WellPaired(us) <==> WellPaired(us[1..])
  {
    hide High, Low;
    var t := us[1..];
    if WellPaired(us) {
      forall i | 0 <= i < |t| && High(t[i]) ensures i + 1 < |t| && Low(t[i + 1]) { assert High(us[i + 1]); }
      forall i | 0 <= i < |t| && Low(t[i]) ensures i > 0 && High(t[i - 1]) { assert Low(us[i + 1]); }
    }
    if WellPaired(t) {
      forall i | 0 <= i < |us| && High(us[i]) ensures i + 1 < |us| && Low(us[i + 1]) { assert High(t[i - 1]); }
      forall i | 0 <= i < |us| && Low(us[i]) ensures i > 0 && High(us[i - 1]) { assert Low(t[i - 1]); }
    }
  }

  /** A high and a low one together can be skipped. */
  lemma SkipPair(us: seq<Unit>)
    requires |us| >= 2 && High(us[0]) && Low(us[1]) && !Low(us[0]) && !High(us[1])
    ensures WellPaired(us) <==> WellPaired(us[2..])
  {
    hide High, Low;
    var t := us[2..];
    if WellPaired(us) {
      forall i | 0 <= i < |t| && High(t[i]) ensures i + 1 < |t| && Low(t[i + 1]) { assert High(us[i + 2]); }
      forall i | 0 <= i < |t| && Low(t[i]) ensures i > 0 && High(t[i - 1]) { assert Low(us[i + 2]); }
    }
    if WellPaired(t) {
      forall i | 0 <= i < |us| && High(us[i]) ensures i + 1 < |us| && Low(us[i + 1]) {
        if i >= 2 { assert High(t[i - 2]); }
      }
      forall i | 0 <= i < |us| && Low(us[i]) ensures i > 0 && High(us[i - 1]) {
        if i >= 2 { assert Low(t[i - 2]); }
      }
    }
  }

  /** Anything else is broken: a leading low half, or a high half without its low one. */
  lemma Broken(us: seq<Unit>)
    requires us != [] && (Low(us[0]) || (High(us[0]) && !(|us| > 1 && Low(us[1]))))
    ensures !WellPaired(us)
  {
  }

  // ---- the scanners ----

  /** What a scanner learns from the unit at position i: whether a backslash and a u begin it, and its code. */
  lemma Classify(data: seq<Byte>, i: int, us: seq<Unit>, tail: seq<Byte>)
    requires At(data, i, us, tail) && us != [] && Lexed(us)
    ensures 0 <= i < |data| && At(data, i + Width(us[0]), us[1..], tail) && Lexed(us[1..])
    ensures us[0].Plain? <==> data[i] != Backslash
    ensures us[0].Plain? ==> Width(us[0]) == 1
    ensures !us[0].Plain? ==> i + 1 < |data| && (us[0].Unicode? <==> data[i + 1] == LetterU)
    ensures us[0].Escape? ==> Width(us[0]) == 2
    ensures us[0].Unicode? ==> && i + 5 < |data| && Width(us[0]) == 6 && Code(us[0]) == ParseHex(data[i + 2..i + 6])
                               && Code(us[0]).Some?
  {
    ReadUnit(data, i, us, tail);
    assert UnitOk(us[0]);
  }

  /** The code point written by a Unicode escape. */
  function Code(u: Unit): Option<int> {
    if u.Unicode? then ParseHex([u.a, u.b, u.c, u.d]) else None
  }

  lemma Surrogates(u: Unit)
    ensures High(u) <==> Code(u).Some? && 0xD800 <= Code(u).value <= 0xDBFF
    ensures Low(u) <==> Code(u).Some? && 0xDC00 <= Code(u).value <= 0xDFFF
  {
  }

  /** After a high half ending just before j: the test for a following \u, with the bound the source uses. */
  lemma NextEscape(data: seq<Byte>, j: int, us: seq<Unit>, tail: seq<Byte>)
    requires At(data, j, us, tail) && Lexed(us) && (tail == [] || tail == [Quote])
    ensures us != [] && us[0].Unicode? <==> j + 5 < |data| && data[j] == Backslash && data[j + 1] == LetterU
    ensures us != [] && us[0].Unicode? ==> Code(us[0]) == ParseHex(data[j + 2..j + 6]) && Code(us[0]).Some?
    ensures us != [] && us[0].Unicode? ==> At(data, j + 6, us[1..], tail) && Lexed(us[1..])
  {
    AtEnd(data, j, us, tail);
    if us == [] {
      assert |data| <= j + 1;
    } else {
      Classify(data, j, us, tail);
    }
  }

  /** From position j on, `vs` remains to be read, and the pairing of `us` is that of `vs`. */
  ghost predicate Leaves(data: seq<Byte>, us: seq<Unit>, j: int, vs: seq<Unit>, tail: seq<Byte>) {
    At(data, j, vs, tail) && Lexed(vs) && (WellPaired(us) <==> WellPaired(vs))
  }

  /** A plain byte, or an escape of two bytes, is skipped. */
  lemma OtherStep(data: seq<Byte>, i: int, us: seq<Unit>, tail: seq<Byte>)
    requires At(data, i, us, tail) && us != [] && Lexed(us)
    ensures 0 <= i < |data|
    ensures data[i] != Backslash ==> Leaves(data, us, i + 1, us[1..], tail)
    ensures data[i] == Backslash ==> i + 1 < |data|
    ensures data[i] == Backslash && data[i + 1] != LetterU ==> Leaves(data, us, i + 2, us[1..], tail)
  {
    Classify(data, i, us, tail);
    hide At, Lexed, WellPaired, High, Low;
    if !us[0].Unicode? {
      NotUnicode(us[0]);
      SkipOther(us);
    }
  }

  /** What a \u at position i allows: nothing after a low half, a low half after a high one, anything otherwise. */
  lemma UnicodeStep(data: seq<Byte>, i: int, us: seq<Unit>, tail: seq<Byte>)
    requires At(data, i, us, tail) && us != [] && Lexed(us) && (tail == [] || tail == [Quote])
    requires 0 <= i < |data| - 1 && data[i] == Backslash && data[i + 1] == LetterU
    ensures i + 5 < |data| && ParseHex(data[i + 2..i + 6]).Some?
    ensures var code := ParseHex(data[i + 2..i + 6]).value;
            if 0xDC00 <= code <= 0xDFFF then !WellPaired(us)
            else if code < 0xD800 || code > 0xDBFF then Leaves(data, us, i + 6, us[1..], tail)
            else if LowAt(data, i + 6) then |us| > 1 && Leaves(data, us, i + 12, us[2..], tail)
            else !WellPaired(us)
  {
    Classify(data, i, us, tail);
    Surrogates(us[0]);
    hide At, Lexed, WellPaired, High, Low, Code, ParseHex, Width;
    if High(us[0]) {
      NextEscape(data, i + 6, us[1..], tail);
      if LowAt(data, i + 6) {
        Surrogates(us[1]);
        SkipPair(us);
        assert us[1..][1..] == us[2..];
      } else if us[1..] != [] && us[1..][0].Unicode? {
        Surrogates(us[1]);
        Broken(us);
      } else {
        HighAlone(us);
      }
    } else if Low(us[0]) {
      Broken(us);
    } else {
      SkipOther(us);
    }
  }

  /** The scanners' test for a low half at position j, with the bound the source uses. */
  predicate LowAt(data: seq<Byte>, j: nat) {
    && j + 5 < |data| && data[j] == Backslash && data[j + 1] == LetterU && ParseHex(data[j + 2..j + 6]).Some?
    && 0xDC00 <= ParseHex(data[j + 2..j + 6]).value <= 0xDFFF
  }

  // the same steps for a scanner that has read up to i, with `us` left of `all`

  lemma ReadNone(data: seq<Byte>, all: seq<Unit>, tail: seq<Byte>, i: int)
    requires Lexed(all) && 0 <= i <= |data| && data[i..] == Text(all) + tail
    ensures Leaves(data, all, i, all, tail)
  {
  }

  lemma ReadAll(data: seq<Byte>, all: seq<Unit>, i: int, us: seq<Unit>, tail: seq<Byte>)
    requires Leaves(data, all, i, us, tail)
    ensures i <= |data| - |tail| && (us == [] <==> i == |data| - |tail|)
    ensures us == [] ==> WellPaired(all)
  {
    AtEnd(data, i, us, tail);
  }

  lemma ReadOther(data: seq<Byte>, all: seq<Unit>, i: int, us: seq<Unit>, tail: seq<Byte>)
    requires Leaves(data, all, i, us, tail) && us != []
    ensures 0 <= i < |data|
    ensures data[i] != Backslash ==> Leaves(data, all, i + 1, us[1..], tail)
    ensures data[i] == Backslash ==> i + 1 < |data|
    ensures data[i] == Backslash && data[i + 1] != LetterU ==> Leaves(data, all, i + 2, us[1..], tail)
  {
    hide At, Lexed, WellPaired;
    OtherStep(data, i, us, tail);
  }

  lemma ReadUnicode(data: seq<Byte>, all: seq<Unit>, i: int, us: seq<Unit>, tail: seq<Byte>)
    requires Leaves(data, all, i, us, tail) && us != [] && (tail == [] || tail == [Quote])
    requires 0 <= i < |data| - 1 && data[i] == Backslash && data[i + 1] == LetterU
    ensures i + 5 < |data| && ParseHex(data[i + 2..i + 6]).Some?
    ensures var code := ParseHex(data[i + 2..i + 6]).value;
            if 0xDC00 <= code <= 0xDFFF then !WellPaired(all)
            else if code < 0xD800 || code > 0xDBFF then Leaves(data, all, i + 6, us[1..], tail)
            else if LowAt(data, i + 6) then |us| > 1 && Leaves(data, all, i + 12, us[2..], tail)
            else !WellPaired(all)
  {
    hide At, Lexed, WellPaired, ParseHex, LowAt;
    UnicodeStep(data, i, us, tail);
  }

  /** validEscapes, on any JSON text: no index out of range, and it accepts exactly the well paired. */
  method ValidEscapes(data: seq<Byte>, ghost us: seq<Unit>) returns (ok: bool)
    requires Lexed(us) && data == Text(us)
    ensures ok <==> WellPaired(us)
  {
    assert data[0..] == Text(us) + [];
    ReadNone(data, us, [], 0);
    hide Leaves, Lexed, WellPaired, ParseHex, Text;
    var i := 0;
    ghost var rest := us;
    while i < |data|
      invariant 0 <= i && Leaves(data, us, i, rest, [])
      decreases |data| - i
    {
      ReadAll(data, us, i, rest, []);
      ReadOther(data, us, i, rest, []);
      if data[i] != Backslash {
        i, rest := i + 1, rest[1..];
        continue;
      }
      i := i + 1;
      if i >= |data| || data[i] != LetterU {
        i, rest := i + 1, rest[1..];
        continue;
      }
      ReadUnicode(data, us, i - 1, rest, []);
      var code := ParseHex(data[i + 1..i + 5]);
      if code.None? { return false; }
      i := i + 4;
      if 0xDC00 <= code.value <= 0xDFFF { return false; }
      if code.value < 0xD800 || code.value > 0xDBFF {
        i, rest := i + 1, rest[1..];
        continue;
      }
      TwoBytes(data, i + 1);
      if i + 6 >= |data| || data[i + 1..i + 3] != [Backslash, LetterU] { return false; }
      var low := ParseHex(data[i + 3..i + 7]);
      if low.None? || low.value < 0xDC00 || low.value > 0xDFFF { return false; }
      i, rest := i + 7, rest[2..];
    }
    ReadAll(data, us, i, rest, []);
    return true;
  }

  lemma NotUnicode(u: Unit)
    requires !u.Unicode?
    ensures !High(u) && !Low(u)
  {
  }

  lemma TwoBytes(data: seq<Byte>, j: int)
    requires 0 <= j
    ensures j + 2 <= |data| ==> (data[j..j + 2] == [Backslash, LetterU] <==>
                                 data[j] == Backslash && data[j + 1] == LetterU)
  {
    if j + 2 <= |data| { assert data[j..j + 2] == [data[j], data[j + 1]]; }
  }

  lemma HighAlone(us: seq<Unit>)
    requires us != [] && High(us[0]) && !(us[1..] != [] && us[1..][0].Unicode?)
    ensures !WellPaired(us)
  {
    if |us| > 1 { NotUnicode(us[1]); }
    Broken(us);
  }

  /** The text of a JSON string literal. */
  function Literal(us: seq<Unit>): seq<Byte> {
    [Quote] + (Text(us) + [Quote])
  }

  /** The loop of decodeMoltbookAgentID, between the quotes of a string literal. */
  method AgentIdEscapes(raw: seq<Byte>, ghost us: seq<Unit>) returns (ok: bool)
    requires Lexed(us) && raw == Literal(us)
    ensures ok <==> WellPaired(us)
  {
    assert raw[1..] == Text(us) + [Quote];
    ReadNone(raw, us, [Quote], 1);
    hide Leaves, Lexed, WellPaired, ParseHex, Text, Literal;
    var i := 1;
    ghost var rest := us;
    while i < |raw| - 1
      invariant 1 <= i && Leaves(raw, us, i, rest, [Quote])
      decreases |raw| - i
    {
      ReadAll(raw, us, i, rest, [Quote]);
      ReadOther(raw, us, i, rest, [Quote]);
      if raw[i] != Backslash {
        i, rest := i + 1, rest[1..];
        continue;
      }
      i := i + 1;
      if raw[i] != LetterU {
        i, rest := i + 1, rest[1..];
        continue;
      }
      ReadUnicode(raw, us, i - 1, rest, [Quote]);
      var code := ParseHex(raw[i + 1..i + 5]).value;
      i := i + 4;
      if 0xD800 <= code <= 0xDBFF {
        if i + 6 >= |raw| || raw[i + 1] != Backslash || raw[i + 2] != LetterU { return false; }
        var low := ParseHex(raw[i + 3..i + 7]);
        if low.None? || low.value < 0xDC00 || low.value > 0xDFFF { return false; }
        i, rest := i + 7, rest[2..];
      } else if 0xDC00 <= code <= 0xDFFF {
        return false;
      } else {
        i, rest := i + 1, rest[1..];
      }
    }
    ReadAll(raw, us, i, rest, [Quote]);
    return true;
  }

  /** Adding a plain unit at the end changes no pairing. */
  lemma PlainAtEnd(us: seq<Unit>, v: Byte)
    ensures WellPaired(us + [Plain(v)]) <==> WellPaired(us)
  {
    var w := us + [Plain(v)];
    NotUnicode(Plain(v));
    hide High, Low;
    assert forall i | 0 <= i < |us| :: w[i] == us[i];
    assert w[|us|] == Plain(v);
    if WellPaired(us) {
      forall i | 0 <= i < |w| && High(w[i]) ensures i + 1 < |w| && Low(w[i + 1]) {
        assert i < |us| && High(us[i]);
        assert Low(us[i + 1]) && w[i + 1] == us[i + 1];
      }
      forall i | 0 <= i < |w| && Low(w[i]) ensures i > 0 && High(w[i - 1]) {
        assert i < |us| && Low(us[i]);
        assert High(us[i - 1]) && w[i - 1] == us[i - 1];
      }
    }
    if WellPaired(w) {
      forall i | 0 <= i < |us| && High(us[i]) ensures i + 1 < |us| && Low(us[i + 1]) {
        assert High(w[i]) && Low(w[i + 1]);
      }
      forall i | 0 <= i < |us| && Low(us[i]) ensures i > 0 && High(us[i - 1]) {
        assert Low(w[i]) && High(w[i - 1]);
      }
    }
  }

  /** A literal is JSON text whose quotes carry no surrogate, so the two scanners agree on every string literal. */
  lemma ScannersAgree(us: seq<Unit>)
    requires Lexed(us)
    ensures var quoted := [Plain(Quote)] + (us + [Plain(Quote)]);
            Lexed(quoted) && Text(quoted) == Literal(us) && (WellPaired(quoted) <==> WellPaired(us))
  {
    var inner := us + [Plain(Quote)];
    var quoted := [Plain(Quote)] + inner;
    assert quoted[1..] == inner;
    TextAppend(us, Plain(Quote));
    hide WellPaired, High, Low;
    NotUnicode(Plain(Quote));
    SkipOther(quoted);
    PlainAtEnd(us, Quote);
    forall i | 0 <= i < |quoted| ensures UnitOk(quoted[i]) {
      if 0 < i <= |us| { assert quoted[i] == us[i - 1]; }
    }
  }

  lemma {:induction false} TextAppend(us: seq<Unit>, u: Unit)
    ensures Text(us + [u]) == Text(us) + UnitBytes(u)
  {
    if us == [] {
      assert us + [u] == [u] && Text([u]) == UnitBytes(u) + Text([]);
    } else {
      assert (us + [u])[1..] == us[1..] + [u];
      TextAppend(us[1..], u);
    }
  }
}
