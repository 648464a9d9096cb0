/** The loops of the enumerator: an in-place odometer per depth, the action test on
    its digit counts, the absorbing test on the words already yielded, and the limit. */
module Enumerator {
  import opened Options
  import opened Twists
  import opened Pauli
  import opened Histories
  import opened Words
  import opened Closures

  method ActionOf(hist: History) returns (a: Action)
    ensures a == SignedAction(hist)
  {
    var v, h, d, l := 0, 0, 0, 0;
    for i := 0 to |hist|
      invariant Action(v, h, d, l) == SignedAction(hist[..i])
    {
      assert hist[..i + 1] == hist[..i] + [hist[i]];
      match hist[i]
      case Up => v := v + 1;
      case Down => v := v - 1;
      case Right => h := h + 1;
      case Left => h := h - 1;
      case Slash => d := d + 1;
      case BSlash => d := d - 1;
      case Plus => l := l + 1;
      case Minus => l := l - 1;
    }
    assert hist[..|hist|] == hist;
    a := Action(v, h, d, l);
  }

  /** The digit counts decide the action test. */
  predicate CountsMeet(cnt: seq<int>, need: Action)
    requires |cnt| == 8
  {
    && cnt[0] - cnt[1] == need.v && cnt[3] - cnt[2] == need.h
    && cnt[4] - cnt[5] == need.d && cnt[6] - cnt[7] == need.l
  }

  lemma CountsDecideAction(w: History, need: Action)
    ensures CountsMeet(Counts(w), need) <==> SignedAction(w) == need
  {
    var c := Counts(w);
    assert c[0] == Count(w, Up) && c[1] == Count(w, Down) && c[2] == Count(w, Left) && c[3] == Count(w, Right);
    assert c[4] == Count(w, Slash) && c[5] == Count(w, BSlash) && c[6] == Count(w, Plus) && c[7] == Count(w, Minus);
  }

  /** Closures handed out so far, in a search truncated after `cap` of them. */
  function Cap(limit: Limit): Option<int> {
    match limit
    case DefaultLimit => Some(DEFAULT_LIMIT)
    case NoLimit => None
    case AtMost(n) => Some(n)
  }

  /** The limit is checked after each closure is handed out, so even a limit of zero
      lets one through. */
  function Truncate(cap: Option<int>, ws: seq<History>): seq<History> {
    if cap.None? then ws
    else
      var n := if cap.value > 1 then cap.value else 1;
      if |ws| <= n then ws else ws[..n]
  }

  predicate Full(cap: Option<int>, ws: seq<History>) { ws != [] && cap.Some? && |ws| >= cap.value }

  method WordOf(idx: array<nat>, cnt: array<int>, bytes: array<Twist>) returns (cont: History)
    requires InSync(idx, cnt, bytes)
    ensures cont == bytes[..]
  {
    ghost var w := bytes[..];
    cont := [];
    assert idx.Length == |idx[..]| == |w|;
    for i := 0 to idx.Length
      invariant cont == w[..i]
    {
      assert idx[i] == idx[..][i] == Digit(w[i]) && OfDigit(idx[i]) == w[i];
      cont := cont + [OfDigit(idx[i])];
    }
  }

  method IsSuppressed(closed: set<History>, lo: nat, cont: History) returns (suppressed: bool)
    ensures suppressed <==> exists k :: lo <= k < |cont| && cont[..k] in closed
  {
    suppressed := false;
    var k := lo;
    while k < |cont|
      invariant lo <= k
      invariant forall j :: lo <= j < k && j < |cont| ==> cont[..j] !in closed
    {
      if cont[..k] in closed {
        return true;
      }
      k := k + 1;
    }
  }

  function Elements(ws: seq<History>): set<History> { set w | w in ws }

  /** The words handed out before the `n`-th word of a depth is looked at. */
  function Sofar(job: Job, depth: nat, n: nat): seq<History>
    requires depth >= 1
  {
    Search(job, depth - 1) + Scan(job, depth, n)
  }

  /** Is the candidate handed out? The action test runs on the counts, the absorbing
      test on the recorded words, and only then is the Pauli fold computed. */
  method Examine(job: Job, need: Action, closed: set<History>, idx: array<nat>, cnt: array<int>,
      bytes: array<Twist>, ghost n: nat)
      returns (found: bool, phase: Scalar)
    requires InSync(idx, cnt, bytes) && need == Need(job.seed)
    requires bytes.Length >= 1 && |job.seed| + bytes.Length >= job.minLen && n == Rank(bytes[..])
    requires job.absorbing ==> closed == Elements(Sofar(job, bytes.Length, n))
    ensures found <==> Yields(job, bytes[..])
    ensures found ==> PauliScalarOf(job.seed + bytes[..]) == Some(phase)
  {
    hide Sofar, SignedAction, Absorbed, Rank, Pow8, Elements, IsPauliClosed, CountsMeet;
    ghost var w := bytes[..];
    RankBound(w);
    CountsDecideAction(w, need);
    BalanceIsNeed(job.seed, w);
    assert cnt[..] == Counts(w);
    if CountsMeet(cnt[..], need) {
      var cont := WordOf(idx, cnt, bytes);
      var suppressed := false;
      if job.absorbing {
        suppressed := IsSuppressed(closed, ShortestEvent(job), cont);
        RecordedPrefixes(job, cont, n);
      }
      if !suppressed {
        var s := ComputeScalar(job.seed + bytes[..]);
        ScalarIffSharedParity(job.seed + w);
        if s.Some? {
          return true, s.value;
        }
      }
    }
    return false, PosOne;
  }

  /** Looking a word's prefixes up among the recorded words decides absorption. */
  lemma RecordedPrefixes(job: Job, w: History, n: nat)
    requires job.absorbing && w != [] && n <= Pow8(|w|)
    ensures var closed := Elements(Sofar(job, |w|, n));
            Absorbed(job, w) <==> exists k :: ShortestEvent(job) <= k < |w| && w[..k] in closed
  {
    hide Search, Scan, Yields, Absorbed, Rank, Pow8;
    var closed := Elements(Search(job, |w| - 1) + Scan(job, |w|, n));
    AbsorbedIffYieldedPrefix(job, w);
    forall k | ShortestEvent(job) <= k < |w|
      ensures w[..k] in closed <==> Yields(job, w[..k])
    {
      SearchMembers(job, |w| - 1, w[..k]);
      ScanMembers(job, |w|, n, w[..k]);
    }
  }

  function PhaseOf(h: History): Scalar {
    match PauliScalarOf(h)
    case Some(s) => s
    case None => PosOne
  }

  function ClosureOf(seed: History, w: History): Closure {
    Closure(w, seed + w, |w|, PhaseOf(seed + w))
  }

  function Report(seed: History, ws: seq<History>): (r: seq<Closure>)
    ensures |r| == |ws| && forall i :: 0 <= i < |ws| ==> r[i] == ClosureOf(seed, ws[i])
  {
    if ws == [] then [] else Report(seed, ws[..|ws| - 1]) + [ClosureOf(seed, ws[|ws| - 1])]
  }

  lemma ReportSnoc(seed: History, ws: seq<History>, w: History)
    ensures Report(seed, ws + [w]) == Report(seed, ws) + [ClosureOf(seed, w)]
  {
    assert (ws + [w])[..|ws|] == ws;
  }

  lemma {:induction false} ScanPrefix(job: Job, depth: nat, n: nat, m: nat)
    requires n <= m
    ensures Scan(job, depth, n) <= Scan(job, depth, m)
    decreases m - n
  {
    if n < m {
      ScanPrefix(job, depth, n, m - 1);
    }
  }

  lemma {:induction false} SearchPrefix(job: Job, d: nat, e: nat)
    requires d <= e
    ensures Search(job, d) <= Search(job, e)
    decreases e - d
  {
    hide Scan, Pow8;
    if d < e {
      SearchPrefix(job, d, e - 1);
    }
  }

  lemma SofarEnds(job: Job, depth: nat)
    requires depth >= 1
    ensures Sofar(job, depth, 0) == Search(job, depth - 1)
    ensures Sofar(job, depth, Pow8(depth)) == Search(job, depth)
  {
  }

  lemma SofarStep(job: Job, depth: nat, n: nat, w: History)
    requires |w| == depth >= 1 && Rank(w) == n < Pow8(depth)
    ensures Sofar(job, depth, n + 1) == if Yields(job, w) then Sofar(job, depth, n) + [w] else Sofar(job, depth, n)
    ensures Sofar(job, depth, n + 1) <= Search(job, depth)
  {
    hide Yields, Rank, Pow8, WordAt;
    WordAtRank(w);
    SearchUnfold(job, depth);
    ScanPrefix(job, depth, n + 1, Pow8(depth));
  }

  lemma SearchUnfold(job: Job, depth: nat)
    requires depth >= 1
    ensures Search(job, depth) == Search(job, depth - 1) + Scan(job, depth, Pow8(depth))
  {
  }

  /** The reported closures and the recorded words both describe `ws`. */
  predicate Reported(job: Job, closed: set<History>, out: seq<Closure>, ws: seq<History>) {
    out == Report(job.seed, ws) && (job.absorbing ==> closed == Elements(ws))
  }

  lemma ReportOneMore(job: Job, closed: set<History>, out: seq<Closure>, ws: seq<History>, w: History, phase: Scalar)
    requires Reported(job, closed, out, ws) && PauliScalarOf(job.seed + w) == Some(phase)
    ensures Reported(job, closed + {w}, out + [Closure(w, job.seed + w, |w|, phase)], ws + [w])
    ensures (ws + [w])[..|ws|] == ws
  {
    hide PauliScalarOf;
    ReportSnoc(job.seed, ws, w);
  }

  /** All words of one depth, in odometer order. When the cap is met the scan stops,
      having handed out the first words of the search up to the cap. */
  method ScanDepth(job: Job, need: Action, depth: nat, cap: Option<int>, closed0: set<History>, out0: seq<Closure>)
      returns (closed: set<History>, out: seq<Closure>, done: bool, ghost ws: seq<History>)
    requires depth >= 1 && |job.seed| + depth >= job.minLen && need == Need(job.seed)
    requires !Full(cap, Search(job, depth - 1)) && Reported(job, closed0, out0, Search(job, depth - 1))
    ensures Reported(job, closed, out, ws)
    ensures !done ==> ws == Search(job, depth) && !Full(cap, ws)
    ensures done ==> ws <= Search(job, depth) && Full(cap, ws) && !Full(cap, ws[..|ws| - 1])
  {
    hide Search, Sofar, Yields, Rank, Pow8, Need, Elements, Report, PauliScalarOf, InSync;
    var idx := new nat[depth](_ => 0);
    var cnt := new int[8](_ => 0);
    cnt[0] := depth;
    var bytes := new Twist[depth](_ => Up);
    FreshOdometer(idx, cnt, bytes);
    SofarEnds(job, depth);
    closed, out, done := closed0, out0, false;
    ghost var n := 0;
    ws := Sofar(job, depth, 0);
    var more := true;
    while more
      invariant InSync(idx, cnt, bytes) && n <= Pow8(depth)
      invariant more ==> n == Rank(bytes[..]) < Pow8(depth)
      invariant !more ==> n == Pow8(depth)
      invariant ws == Sofar(job, depth, n) && !Full(cap, ws)
      invariant Reported(job, closed, out, ws)
      decreases Pow8(depth) - n, more
    {
      ghost var w := bytes[..];
      var found, phase := Examine(job, need, closed, idx, cnt, bytes, n);
      SofarStep(job, depth, n, w);
      if found {
        var cont := WordOf(idx, cnt, bytes);
        ReportOneMore(job, closed, out, ws, w, phase);
        closed := closed + {cont};
        out := out + [Closure(cont, job.seed + cont, |cont|, phase)];
        ws := ws + [w];
        if cap.Some? && |out| >= cap.value {
          return closed, out, true, ws;
        }
      }
      more := Advance(idx, cnt, bytes);
      n := n + 1;
      RankBound(bytes[..]);
    }
  }

  lemma FreshOdometer(idx: array<nat>, cnt: array<int>, bytes: array<Twist>)
    requires idx.Length == bytes.Length && cnt.Length == 8
    requires forall i :: 0 <= i < idx.Length ==> idx[i] == 0 && bytes[i] == Up
    requires cnt[0] == idx.Length && forall d :: 0 < d < 8 ==> cnt[d] == 0
    ensures InSync(idx, cnt, bytes) && Rank(bytes[..]) == 0
  {
    var w := bytes[..];
    assert w == Repeat(Up, |w|);
    RankOfExtremes(|w|);
    forall t
      ensures Count(w, t) == if t == Up then |w| else 0
    {
      CountRepeat(Up, |w|, t);
    }
    assert idx[..] == Digits(w);
    assert cnt[..] == Counts(w);
  }

  lemma {:induction false} CountRepeat(t: Twist, n: nat, u: Twist)
    ensures Count(Repeat(t, n), u) == if t == u then n else 0
  {
    if n != 0 {
      CountRepeat(t, n - 1, u);
    }
  }

  function JobOf(seed: History, opts: EnumOpts): Job {
    Job(seed, if opts.minTotalLen.Some? then opts.minTotalLen.value else MIN_ZFA_LENGTH, opts.absorbing)
  }

  function DepthOf(opts: EnumOpts): (d: nat)
    ensures d >= 1
  {
    var d := if opts.maxDepth.Some? then opts.maxDepth.value else DEFAULT_MAX_DEPTH;
    if d > 1 then d else 1
  }

  /** What is handed out under these options. */
  function HandedOut(seed: History, opts: EnumOpts): seq<Closure> {
    Report(seed, Truncate(Cap(opts.limit), Search(JobOf(seed, opts), DepthOf(opts))))
  }

  /** What a continuation has to supply. */
  method Residual(seed: History) returns (need: Action)
    ensures need == Need(seed)
  {
    hide SignedAction;
    var a := ActionOf(seed);
    need := Action(-a.v, -a.h, -a.d, -a.l);
  }

  /** The enumerator hands out exactly the words of the search, in its order and with
      their fold, up to the limit; a malformed position is refused. */
  method EnumerateClosures(qc: string, opts: EnumOpts) returns (r: Result<seq<Closure>, HistoryError>)
    ensures match Parse(qc)
            case Err(e) => r == Err(e)
            case Ok(seed) => r == Ok(HandedOut(seed, opts))
  {
    hide Search, Scan, Need, Parse, Report, Reported, Elements, Truncate, Feasible, Cap, JobOf, DepthOf, Full, Pow8,
         Closes, Yields;
    var parsed := Parse(qc);
    if parsed.Err? {
      return Err(parsed.error);
    }
    var seed := parsed.value;
    var job, maxDepth, cap := JobOf(seed, opts), DepthOf(opts), Cap(opts.limit);
    JobSeed(seed, opts);
    var need := Residual(seed);
    var closed: set<History>, out: seq<Closure> := {}, [];
    var depth := 1;
    EmptySearch(job, cap);
    while depth <= maxDepth
      invariant 1 <= depth <= maxDepth + 1
      invariant !Full(cap, Search(job, depth - 1)) && Reported(job, closed, out, Search(job, depth - 1))
    {
      if !Feasible(need, depth) || |seed| + depth < job.minLen {
        SkippedDepthIsEmpty(job, depth, Pow8(depth));
        SearchUnfold(job, depth);
        assert Search(job, depth) == Search(job, depth - 1);
      } else {
        var done;
        ghost var ws;
        closed, out, done, ws := ScanDepth(job, need, depth, cap, closed, out);
        if done {
          SearchPrefix(job, depth, maxDepth);
          FirstFull(cap, ws, Search(job, maxDepth));
          ReportedOut(job, closed, out, ws);
          return Ok(out);
        }
      }
      depth := depth + 1;
    }
    NeverFullIsWhole(cap, Search(job, maxDepth));
    ReportedOut(job, closed, out, Search(job, maxDepth));
    return Ok(out);
  }

  lemma JobSeed(seed: History, opts: EnumOpts)
    ensures JobOf(seed, opts).seed == seed
  {
  }

  lemma ReportedOut(job: Job, closed: set<History>, out: seq<Closure>, ws: seq<History>)
    requires Reported(job, closed, out, ws)
    ensures out == Report(job.seed, ws)
  {
  }

  /** Reaching the cap for the first time: what was handed out is the truncation. */
  lemma FirstFull(cap: Option<int>, ws: seq<History>, all: seq<History>)
    requires ws <= all && Full(cap, ws) && !Full(cap, ws[..|ws| - 1])
    ensures ws == Truncate(cap, all)
  {
  }

  lemma NeverFullIsWhole(cap: Option<int>, ws: seq<History>)
    requires !Full(cap, ws)
    ensures Truncate(cap, ws) == ws
  {
  }

  lemma EmptySearch(job: Job, cap: Option<int>)
    ensures Search(job, 0) == [] && Reported(job, {}, [], []) && !Full(cap, [])
  {
  }
}
