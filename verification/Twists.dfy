/** The eight twists, their wire symbols, and the two numberings the code uses:
    the crate's byte order and the enumerator's TWIST_ORDER digits. */
module Twists {
  import opened Options

  datatype Twist = Up | Down | Right | Left | Slash | BSlash | Plus | Minus

  type History = seq<Twist>

  function Symbol(t: Twist): char {
    match t
    case Up => '^'
    case Down => 'v'
    case Right => '>'
    case Left => '<'
    case Slash => '/'
    case BSlash => '\\'
    case Plus => '+'
    case Minus => '-'
  }

  function FromSymbol(c: char): Option<Twist> {
    match c
    case '^' => Some(Up)
    case 'v' => Some(Down)
    case '>' => Some(Right)
    case '<' => Some(Left)
    case '/' => Some(Slash)
    case '\\' => Some(BSlash)
    case '+' => Some(Plus)
    case '-' => Some(Minus)
    case _ => None
  }

  /** TWIST_ORDER as a function of the odometer digit. */
  function OfDigit(d: nat): Twist
    requires d < 8
  {
    match d
    case 0 => Up
    case 1 => Down
    case 2 => Left
    case 3 => Right
    case 4 => Slash
    case 5 => BSlash
    case 6 => Plus
    case 7 => Minus
  }

  function Digit(t: Twist): (d: nat)
    ensures d < 8 && OfDigit(d) == t
  {
    match t
    case Up => 0
    case Down => 1
    case Left => 2
    case Right => 3
    case Slash => 4
    case BSlash => 5
    case Plus => 6
    case Minus => 7
  }

  function Render(h: History): string { seq(|h|, i requires 0 <= i < |h| => Symbol(h[i])) }

  datatype HistoryError = EmptyHistory | InvalidTwist(c: char)

  /** `validateHistory` followed by the character-to-byte conversion. */
  function Parse(s: string): (r: Result<History, HistoryError>)
    ensures r.Ok? ==> Render(r.value) == s && r.value != []
  {
    if s == "" then Err(EmptyHistory) else ParseChars(s)
  }

  function ParseChars(s: string): (r: Result<History, HistoryError>)
    ensures r.Ok? ==> Render(r.value) == s
  {
    if s == "" then Ok([])
    else
      match FromSymbol(s[0])
      case None => Err(InvalidTwist(s[0]))
      case Some(t) =>
        match ParseChars(s[1..])
        case Err(e) => Err(e)
        case Ok(rest) => Ok([t] + rest)
  }

  lemma SymbolRoundTrip(t: Twist)
    ensures FromSymbol(Symbol(t)) == Some(t)
  {
  }

  /** Parsing accepts exactly the rendered non-empty histories. */
  lemma {:induction false} ParseRender(h: History)
    ensures ParseChars(Render(h)) == Ok(h)
  {
    if h != [] {
      assert Render(h)[1..] == Render(h[1..]);
      ParseRender(h[1..]);
      SymbolRoundTrip(h[0]);
      assert [h[0]] + h[1..] == h;
    }
  }

  predicate IsTwistChar(c: char) { c in {'^', 'v', '<', '>', '/', '\\', '+', '-'} }

  /** What is refused, and for what: an empty text, or the first character that is no twist. */
  lemma ParseRefuses(s: string)
    ensures Parse(s) == Err(EmptyHistory) <==> s == ""
    ensures Parse(s).Ok? <==> s != "" && forall i :: 0 <= i < |s| ==> IsTwistChar(s[i])
    ensures forall c :: Parse(s) == Err(InvalidTwist(c)) <==>
              exists i :: 0 <= i < |s| && s[i] == c && !IsTwistChar(c) && forall j :: 0 <= j < i ==> IsTwistChar(s[j])
  {
    FirstRefused(s);
  }

  lemma {:induction false} FirstRefused(s: string)
    ensures ParseChars(s).Ok? <==> forall i :: 0 <= i < |s| ==> IsTwistChar(s[i])
    ensures forall c :: ParseChars(s) == Err(InvalidTwist(c)) <==>
              exists i :: 0 <= i < |s| && s[i] == c && !IsTwistChar(c) && forall j :: 0 <= j < i ==> IsTwistChar(s[j])
    ensures ParseChars(s) != Err(EmptyHistory)
  {
    if s != "" {
      FirstRefused(s[1..]);
      assert s == [s[0]] + s[1..];
    }
  }

  /** Number of occurrences of one twist. */
  function Count(h: History, t: Twist): nat { multiset(h)[t] }

  lemma CountSnoc(h: History, t: Twist)
    requires h != []
    ensures Count(h, t) == Count(h[..|h| - 1], t) + (if h[|h| - 1] == t then 1 else 0)
  {
    assert h == h[..|h| - 1] + [h[|h| - 1]];
  }
}
