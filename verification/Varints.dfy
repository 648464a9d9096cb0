/** The base-128 integers of the Protocol Buffers wire format, as the deploy encoder
    writes them and as any reader takes them back. */
module Varints {
  import opened Options

  type Byte = x: int | 0 <= x < 256

  datatype Taken = Taken(value: nat, rest: seq<Byte>)

  /** What the encoder's loop emits. A negative number is one byte: shifting it right
      leaves it below one. */
  function Varint(n: int): (bytes: seq<Byte>)
    ensures bytes != []
    decreases if n < 0 then 0 else n
  {
    if n / 128 > 0 then [n % 128 + 128] + Varint(n / 128) else [n % 128]
  }

  /** The reader of the Encoding guide, section "Base 128 Varints": seven bits a byte, least
      significant first, the high bit set while more follow. */
  function ReadVarint(bytes: seq<Byte>): (r: Option<Taken>)
    ensures r.Some? ==> |r.value.rest| < |bytes|
  {
    if bytes == [] then None
    else if bytes[0] < 128 then Some(Taken(bytes[0], bytes[1..]))
    else
      match ReadVarint(bytes[1..])
      case None => None
      case Some(Taken(high, rest)) => Some(Taken(bytes[0] - 128 + 128 * high, rest))
  }

  /** A reader gets back the number, or its residue modulo 128 when it was negative. */
  lemma {:induction false} ReadsBack(n: int, rest: seq<Byte>)
    ensures ReadVarint(Varint(n) + rest) == Some(Taken(if n < 0 then n % 128 else n, rest))
    decreases if n < 0 then 0 else n
  {
    var bytes := Varint(n);
    if n / 128 > 0 {
      ReadsBack(n / 128, rest);
      assert (bytes + rest)[1..] == Varint(n / 128) + rest;
    } else {
      assert (bytes + rest)[1..] == rest;
    }
  }

  function Pow128(k: nat): (p: nat)
    ensures p >= 1
  {
    if k == 0 then 1 else 128 * Pow128(k - 1)
  }

  /** The encoding is as short as any: k bytes exactly for numbers of k base-128 digits. */
  lemma {:induction false} VarintIsShortest(n: nat)
    ensures var k := |Varint(n)|; n < Pow128(k) && (k > 1 ==> Pow128(k - 1) <= n)
  {
    if n / 128 > 0 {
      VarintIsShortest(n / 128);
      var k := |Varint(n / 128)|;
      assert |Varint(n)| == k + 1;
      assert Pow128(k + 1) == 128 * Pow128(k);
      assert k > 1 ==> Pow128(k) == 128 * Pow128(k - 1);
      assert n == 128 * (n / 128) + n % 128;
    }
  }

  /** Byte i carries digit i in base 128, least significant first. */
  lemma {:induction false} VarintDigits(n: nat, i: nat)
    requires i < |Varint(n)|
    ensures Varint(n)[i] % 128 == n / Pow128(i) % 128
  {
    if i > 0 {
      VarintDigits(n / 128, i - 1);
      DivideTwice(n, Pow128(i - 1));
    }
  }

  lemma DivideTwice(n: nat, p: nat)
    requires p > 0
    ensures n / 128 / p == n / (128 * p)
  {
    var q, r := n / 128 / p, n / 128 % p;
    assert n / 128 == q * p + r;
    assert n == 128 * p * q + (128 * r + n % 128);
    QuotientIs(n, 128 * p, q, 128 * r + n % 128);
  }

  lemma QuotientIs(n: nat, m: nat, q: nat, r: nat)
    requires r < m && n == m * q + r
    ensures n / m == q
  {
    SameQuotient(m, n / m, n % m, q, r);
  }

  lemma SameQuotient(m: nat, k: int, s: nat, q: int, r: nat)
    requires m * k + s == m * q + r && r < m && s < m
    ensures k == q
  {
    if k > q {
      OneMore(m, q, k);
    } else if k < q {
      OneMore(m, k, q);
    }
  }

  lemma OneMore(m: nat, q: int, k: int)
    requires k > q
    ensures m * k >= m * q + m
  {
    assert m * k == m * (q + 1) + m * (k - q - 1);
  }

  /** Only its last byte ends it. */
  lemma {:induction false} VarintEndsOnce(n: int)
    ensures var bytes := Varint(n);
            && bytes[|bytes| - 1] < 128
            && forall i :: 0 <= i < |bytes| - 1 ==> bytes[i] >= 128
    decreases if n < 0 then 0 else n
  {
    if n / 128 > 0 {
      VarintEndsOnce(n / 128);
    }
  }

  /** The encoder's do-while loop. */
  method EncodeVarint(n: int) returns (out: seq<Byte>)
    ensures out == Varint(n)
  {
    out := [];
    var v, more := n, true;
    while more
      invariant more ==> out + Varint(v) == Varint(n)
      invariant !more ==> out == Varint(n)
      decreases more, if v < 0 then 0 else v
    {
      var byte: Byte := v % 128;
      var before := v;
      v := v / 128;
      if v > 0 {
        byte := byte + 128;
      }
      assert Varint(before) == if v > 0 then [byte] + Varint(v) else [byte];
      assert v > 0 ==> out + [byte] + Varint(v) == out + ([byte] + Varint(v));
      out := out + [byte];
      more := v > 0;
    }
  }
}
