/** Text as UTF-16 code units, and what a text encoder makes of it: UTF-8 bytes, with the
    replacement character for every unpaired surrogate. */
module Utf8 {
  import opened Options
  import opened Varints

  type CodeUnit = x: int | 0 <= x < 0x10000
  type Text = seq<CodeUnit>

  predicate High(u: int) { 0xD800 <= u < 0xDC00 }

  predicate Low(u: int) { 0xDC00 <= u < 0xE000 }

  /** A Unicode scalar value: any code point but a surrogate. */
  type Scalar = x: int | (0 <= x < 0xD800) || (0xE000 <= x < 0x110000)

  const REPLACEMENT: Scalar := 0xFFFD

  /** The scalar values of a text, unpaired surrogates replaced. */
  function Scalars(s: Text): seq<Scalar> {
    if s == [] then []
    else if High(s[0]) && |s| > 1 && Low(s[1]) then
      [0x10000 + (s[0] - 0xD800) * 0x400 + (s[1] - 0xDC00)] + Scalars(s[2..])
    else if High(s[0]) || Low(s[0]) then [REPLACEMENT] + Scalars(s[1..])
    else [s[0]] + Scalars(s[1..])
  }

  function Units(c: Scalar): Text {
    if c < 0x10000 then [c] else [0xD800 + (c - 0x10000) / 0x400, 0xDC00 + (c - 0x10000) % 0x400]
  }

  /** The text spelled by scalar values. */
  function Spelled(cs: seq<Scalar>): Text {
    if cs == [] then [] else Units(cs[0]) + Spelled(cs[1..])
  }

  /** Every surrogate has its partner next to it. */
  predicate WellFormed(s: Text) {
    && (forall i :: 0 <= i < |s| && High(s[i]) ==> i + 1 < |s| && Low(s[i + 1]))
    && (forall i :: 0 <= i < |s| && Low(s[i]) ==> i > 0 && High(s[i - 1]))
  }

  /** What is left of a text once it has been through the encoder. */
  function Cleaned(s: Text): Text { Spelled(Scalars(s)) }

  lemma {:induction false} CleanedKeepsLength(s: Text)
    ensures |Cleaned(s)| == |s|
    ensures forall i :: 0 <= i < |s| ==> Cleaned(s)[i] == s[i] || Cleaned(s)[i] == REPLACEMENT
  {
    if s != [] {
      if High(s[0]) && |s| > 1 && Low(s[1]) {
        PairUnits(s[0], s[1]);
        CleanedKeepsLength(s[2..]);
        assert Scalars(s)[1..] == Scalars(s[2..]);
      } else {
        CleanedKeepsLength(s[1..]);
        assert Scalars(s)[1..] == Scalars(s[1..]);
      }
    }
  }

  lemma PairUnits(h: CodeUnit, l: CodeUnit)
    requires High(h) && Low(l)
    ensures Units(0x10000 + (h - 0xD800) * 0x400 + (l - 0xDC00)) == [h, l]
  {
    var n := (h - 0xD800) * 0x400 + (l - 0xDC00);
    assert n / 0x400 == h - 0xD800 && n % 0x400 == l - 0xDC00;
  }

  /** Encoding loses nothing exactly when no surrogate stands alone. */
  lemma {:induction false} CleanedIffWellFormed(s: Text)
    ensures Cleaned(s) == s <==> WellFormed(s)
  {
    if s == [] {
    } else if High(s[0]) && |s| > 1 && Low(s[1]) {
      PairUnits(s[0], s[1]);
      CleanedIffWellFormed(s[2..]);
      assert Scalars(s)[1..] == Scalars(s[2..]);
      assert Cleaned(s) == s[..2] + Cleaned(s[2..]);
      assert s == s[..2] + s[2..];
      AfterPair(s);
    } else if High(s[0]) || Low(s[0]) {
      CleanedKeepsLength(s);
      assert Scalars(s)[0] == REPLACEMENT;
      assert Cleaned(s)[0] == REPLACEMENT;
      assert !WellFormed(s);
    } else {
      CleanedIffWellFormed(s[1..]);
      assert Scalars(s)[1..] == Scalars(s[1..]);
      assert Cleaned(s) == [s[0]] + Cleaned(s[1..]);
      assert s == [s[0]] + s[1..];
      AfterPlain(s);
    }
  }

  lemma AfterPair(s: Text)
    requires |s| > 1 && High(s[0]) && Low(s[1])
    ensures WellFormed(s) <==> WellFormed(s[2..])
  {
    var t := s[2..];
    assert forall i :: 0 <= i < |t| ==> t[i] == s[i + 2];
    assert forall i :: 2 <= i < |s| ==> s[i] == t[i - 2];
  }

  lemma AfterPlain(s: Text)
    requires s != [] && !High(s[0]) && !Low(s[0])
    ensures WellFormed(s) <==> WellFormed(s[1..])
  {
    var t := s[1..];
    assert forall i :: 0 <= i < |t| ==> t[i] == s[i + 1];
    assert forall i :: 1 <= i < |s| ==> s[i] == t[i - 1];
  }

  // UTF-8

  function Bytes(c: Scalar): (bytes: seq<Byte>)
    ensures 1 <= |bytes| <= 4
  {
    if c < 0x80 then [c]
    else if c < 0x800 then [0xC0 + c / 0x40, 0x80 + c % 0x40]
    else if c < 0x10000 then [0xE0 + c / 0x40 / 0x40, 0x80 + c / 0x40 % 0x40, 0x80 + c % 0x40]
    else [0xF0 + c / 0x40 / 0x40 / 0x40, 0x80 + c / 0x40 / 0x40 % 0x40, 0x80 + c / 0x40 % 0x40, 0x80 + c % 0x40]
  }

  function Encoded(cs: seq<Scalar>): seq<Byte> {
    if cs == [] then [] else Bytes(cs[0]) + Encoded(cs[1..])
  }

  /** How many bytes a leading byte announces. */
  function Span(lead: Byte): nat {
    if lead < 0x80 then 1 else if lead < 0xE0 then 2 else if lead < 0xF0 then 3 else 4
  }

  function Tail(b: int): int { b - 0x80 }

  function Assembled(b: seq<Byte>): int
    requires b != [] && |b| == Span(b[0])
  {
    if |b| == 1 then b[0]
    else if |b| == 2 then (b[0] - 0xC0) * 0x40 + Tail(b[1])
    else if |b| == 3 then ((b[0] - 0xE0) * 0x40 + Tail(b[1])) * 0x40 + Tail(b[2])
    else (((b[0] - 0xF0) * 0x40 + Tail(b[1])) * 0x40 + Tail(b[2])) * 0x40 + Tail(b[3])
  }

  predicate IsScalar(c: int) { (0 <= c < 0xD800) || (0xE000 <= c < 0x110000) }

  predicate IsTail(b: int) { 0x80 <= b <= 0xBF }

  /** The well-formed byte sequences of one character, as table 3-7 of the Unicode Standard
      lists them (section 3.9). */
  predicate IsForm(b: seq<Byte>) {
    match |b|
    case 1 => b[0] <= 0x7F
    case 2 => 0xC2 <= b[0] <= 0xDF && IsTail(b[1])
    case 3 =>
      && IsTail(b[2])
      && ((b[0] == 0xE0 && 0xA0 <= b[1] <= 0xBF) || (0xE1 <= b[0] <= 0xEC && IsTail(b[1])) ||
          (b[0] == 0xED && 0x80 <= b[1] <= 0x9F) || (0xEE <= b[0] <= 0xEF && IsTail(b[1])))
    case 4 =>
      && IsTail(b[2]) && IsTail(b[3])
      && ((b[0] == 0xF0 && 0x90 <= b[1] <= 0xBF) || (0xF1 <= b[0] <= 0xF3 && IsTail(b[1])) ||
          (b[0] == 0xF4 && 0x80 <= b[1] <= 0x8F))
    case _ => false
  }

  /** Every form stands for a scalar value, with one, two, three or four bytes as the value is
      below 0x80, 0x800, 0x10000 or 0x110000 and not below the one before. */
  lemma FormStandsFor(b: seq<Byte>)
    requires IsForm(b)
    ensures |b| == Span(b[0]) && IsScalar(Assembled(b))
    ensures var c := Assembled(b);
            |b| == if c < 0x80 then 1 else if c < 0x800 then 2 else if c < 0x10000 then 3 else 4
  {
  }

  /** The writer writes the form that stands for the character ... */
  lemma BytesAreTheForm(c: Scalar)
    ensures IsForm(Bytes(c)) && |Bytes(c)| == Span(Bytes(c)[0]) && Assembled(Bytes(c)) == c
  {
    var six, twelve := c / 0x40, c / 0x40 / 0x40;
    assert c == six * 0x40 + c % 0x40;
    assert six == twelve * 0x40 + six % 0x40;
    assert twelve == twelve / 0x40 * 0x40 + twelve % 0x40;
  }

  /** ... and there is only one. */
  lemma OneFormEach(a: seq<Byte>, b: seq<Byte>)
    requires IsForm(a) && IsForm(b) && |a| == Span(a[0]) && |b| == Span(b[0]) && Assembled(a) == Assembled(b)
    ensures a == b
  {
    hide IsForm, Span;
    FormStandsFor(a);
    FormStandsFor(b);
    FormTails(a);
    FormTails(b);
    if |a| == 4 {
      SameDigits(((a[0] - 0xF0) * 0x40 + Tail(a[1])) * 0x40 + Tail(a[2]), a[3],
                 ((b[0] - 0xF0) * 0x40 + Tail(b[1])) * 0x40 + Tail(b[2]), b[3]);
      SameDigits((a[0] - 0xF0) * 0x40 + Tail(a[1]), a[2], (b[0] - 0xF0) * 0x40 + Tail(b[1]), b[2]);
      SameDigits(a[0] - 0xF0, a[1], b[0] - 0xF0, b[1]);
    } else if |a| == 3 {
      SameDigits((a[0] - 0xE0) * 0x40 + Tail(a[1]), a[2], (b[0] - 0xE0) * 0x40 + Tail(b[1]), b[2]);
      SameDigits(a[0] - 0xE0, a[1], b[0] - 0xE0, b[1]);
    } else if |a| == 2 {
      SameDigits(a[0] - 0xC0, a[1], b[0] - 0xC0, b[1]);
    }
  }

  lemma FormTails(b: seq<Byte>)
    requires IsForm(b)
    ensures forall i :: 1 <= i < |b| ==> IsTail(b[i])
  {
  }

  lemma SameDigits(x: int, y: int, u: int, v: int)
    requires IsTail(y) && IsTail(v)
    ensures x * 0x40 + Tail(y) == u * 0x40 + Tail(v) ==> x == u && y == v
  {
  }

  /** A strict reader: only well-formed sequences are accepted. */
  function ReadUtf8(b: seq<Byte>): Option<seq<Scalar>> {
    if b == [] then Some([])
    else if Span(b[0]) > |b| || !IsForm(b[..Span(b[0])]) then None
    else
      var first := b[..Span(b[0])];
      FormStandsFor(first);
      match ReadUtf8(b[|first|..])
      case None => None
      case Some(rest) => Some([Assembled(first)] + rest)
  }

  lemma {:induction false} Utf8ReadsBack(cs: seq<Scalar>)
    ensures ReadUtf8(Encoded(cs)) == Some(cs)
  {
    hide IsForm, Bytes, Assembled;
    if cs != [] {
      var first, b := Bytes(cs[0]), Encoded(cs);
      BytesAreTheForm(cs[0]);
      assert b[..|first|] == first && b[0] == first[0];
      assert b[|first|..] == Encoded(cs[1..]);
      Utf8ReadsBack(cs[1..]);
      assert [cs[0]] + cs[1..] == cs;
    }
  }

  function EncodeText(s: Text): seq<Byte> { Encoded(Scalars(s)) }

  /** A text is written character by character: the form of the unit, or of the pair, or of
      the replacement character for a surrogate without its partner. */
  lemma WrittenByCharacter(u: CodeUnit, rest: Text) returns (first: seq<Byte>, taken: nat)
    ensures EncodeText([]) == []
    ensures IsForm(first) && |first| == Span(first[0]) && taken <= |rest|
    ensures EncodeText([u] + rest) == first + EncodeText(rest[taken..])
    ensures if 0xD800 <= u <= 0xDBFF && rest != [] && 0xDC00 <= rest[0] <= 0xDFFF then
              taken == 1 && Assembled(first) == 0x10000 + (u - 0xD800) * 0x400 + (rest[0] - 0xDC00)
            else taken == 0 && if 0xD800 <= u <= 0xDFFF then first == [0xEF, 0xBF, 0xBD] else Assembled(first) == u
  {
    hide IsForm, Bytes, Assembled;
    var s := [u] + rest;
    var cs := Scalars(s);
    first, taken := Bytes(cs[0]), if High(u) && |s| > 1 && Low(s[1]) then 1 else 0;
    BytesAreTheForm(cs[0]);
    assert s[1..] == rest && (taken == 1 ==> s[2..] == rest[1..]);
    assert cs == [cs[0]] + Scalars(rest[taken..]);
    ReplacementBytes();
  }

  lemma ReplacementBytes()
    ensures Bytes(REPLACEMENT) == [0xEF, 0xBF, 0xBD]
  {
  }

  function DecodeText(b: seq<Byte>): Option<Text> {
    match ReadUtf8(b)
    case None => None
    case Some(cs) => Some(Spelled(cs))
  }

  lemma {:induction false} ScalarsSpelled(cs: seq<Scalar>)
    ensures Scalars(Spelled(cs)) == cs
  {
    if cs != [] {
      ScalarsSpelled(cs[1..]);
      var u, rest := Units(cs[0]), Spelled(cs[1..]);
      assert (u + rest)[|u|..] == rest;
      assert [cs[0]] + cs[1..] == cs;
    }
  }

  /** Encoding cannot tell a text from what is left of it. */
  lemma CleanedScalars(s: Text)
    ensures Scalars(Cleaned(s)) == Scalars(s)
  {
    ScalarsSpelled(Scalars(s));
  }

  lemma TextReadsBack(s: Text)
    ensures DecodeText(EncodeText(s)) == Some(Cleaned(s))
    ensures Cleaned(s) == s <==> WellFormed(s)
  {
    Utf8ReadsBack(Scalars(s));
    CleanedIffWellFormed(s);
  }
}
