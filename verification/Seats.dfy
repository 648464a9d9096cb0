/** A seat in a room and the bounded queue kept for a peer whose socket died. */
module Seats {
  import opened Options

  datatype Socket = Socket(id: nat)

  const QUEUE_MAX_MSGS := 256
  const QUEUE_MAX_BYTES := 512 * 1024

  /** `queuedBytes` counts code units of the queued payloads, as the code does. */
  datatype Seat = Seat(ws: Option<Socket>, timer: bool, queue: seq<string>, queuedBytes: int)

  function Bytes(q: seq<string>): nat {
    if q == [] then 0 else |q[0]| + Bytes(q[1..])
  }

  predicate Fits(q: seq<string>) { |q| <= QUEUE_MAX_MSGS && Bytes(q) <= QUEUE_MAX_BYTES }

  /** The caps in numbers: 256 payloads and half a mebibyte. */
  lemma Caps(q: seq<string>, p: string)
    ensures Fits(q + [p]) <==> |q| < 256 && Bytes(q) + |p| <= 524288
  {
    BytesSnoc(q, p);
  }

  /** Drop from the front until the rest fits. */
  function LongestFit(h: seq<string>): (q: seq<string>)
    ensures Fits(q) && |q| <= |h|
  {
    if Fits(h) then h else LongestFit(h[1..])
  }

  /** It is a suffix, it fits, and no longer suffix does. */
  lemma {:induction false} LongestFitIsLongest(h: seq<string>)
    ensures var q := LongestFit(h);
            && q == h[|h| - |q|..] && Fits(q)
            && forall i :: 0 <= i < |h| - |q| ==> !Fits(h[i..])
  {
    if Fits(h) {
    } else {
      LongestFitIsLongest(h[1..]);
      var q := LongestFit(h[1..]);
      assert h[1..][|h| - 1 - |q|..] == h[|h| - |q|..];
      forall i | 0 <= i < |h| - |q|
        ensures !Fits(h[i..])
      {
        if i > 0 {
          assert h[1..][i - 1..] == h[i..];
        } else {
          assert h[0..] == h;
        }
      }
    }
  }

  lemma {:induction false} BytesSnoc(q: seq<string>, p: string)
    ensures Bytes(q + [p]) == Bytes(q) + |p|
  {
    if q == [] {
      assert q + [p] == [p] && [p][1..] == [];
    } else {
      assert (q + [p])[1..] == q[1..] + [p];
      BytesSnoc(q[1..], p);
    }
  }

  /** What was dropped before stays dropped: only the kept part and the newcomer matter. */
  lemma {:induction false} LongestFitSnoc(h: seq<string>, p: string)
    ensures LongestFit(h + [p]) == LongestFit(LongestFit(h) + [p])
  {
    if !Fits(h) {
      BytesSnoc(h, p);
      assert !Fits(h + [p]);
      assert (h + [p])[1..] == h[1..] + [p];
      LongestFitSnoc(h[1..], p);
    }
  }

  /** Pushing a payload on a held seat's queue and dropping the oldest until it fits. */
  method Push(queue: seq<string>, queuedBytes: int, payload: string) returns (q: seq<string>, bytes: int)
    requires queuedBytes == Bytes(queue)
    ensures q == LongestFit(queue + [payload]) && bytes == Bytes(q)
  {
    q := queue + [payload];
    bytes := queuedBytes + |payload|;
    BytesSnoc(queue, payload);
    while |q| > QUEUE_MAX_MSGS || bytes > QUEUE_MAX_BYTES
      invariant bytes == Bytes(q)
      invariant LongestFit(q) == LongestFit(queue + [payload])
      decreases |q|
    {
      var dropped := q[0];
      q := q[1..];
      bytes := bytes - |dropped|;
    }
  }

  /** A data frame reaching a seat with no socket under it. */
  function Queued(s: Seat, payload: string): Seat {
    var q := LongestFit(s.queue + [payload]);
    s.(queue := q, queuedBytes := Bytes(q))
  }
}
