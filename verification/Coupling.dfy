/** Was a joint closure shared, or several closures side by side? The crate's
    classifier, the browser's fallback, and the laws both obey. */
module Coupling {
  import opened Permutations
  import opened Twists
  import opened Pauli
  import opened Histories

  datatype Verdict = Open | Independent | Product | Coupled

  function Join(parts: seq<History>): History {
    if parts == [] then [] else Join(parts[..|parts| - 1]) + parts[|parts| - 1]
  }

  predicate FoldsToScalar(h: History) {
    var p := ParitiesOf(h);
    p.x == p.y && p.y == p.z
  }

  function ClassifyParts(parts: seq<History>): Verdict {
    if !AchievesZfaPairwise(Join(parts)) then Open
    else if forall i :: 0 <= i < |parts| ==> IsPairwiseBalanced(parts[i]) then Independent
    else if forall i :: 0 <= i < |parts| ==> FoldsToScalar(parts[i]) then Product
    else Coupled
  }

  predicate IsOpenPart(h: History) { !IsPairwiseBalanced(h) && !FoldsToScalar(h) }

  /** Indices of the open parts, ascending. */
  function OpenParts(parts: seq<History>): (r: seq<nat>)
    ensures forall i :: i in r <==> 0 <= i < |parts| && IsOpenPart(parts[i])
    ensures forall j, k :: 0 <= j < k < |r| ==> r[j] < r[k]
  {
    if parts == [] then []
    else
      var n := |parts| - 1;
      var s := OpenParts(parts[..n]);
      assert forall j :: 0 <= j < |s| ==> s[j] in s;
      s + (if IsOpenPart(parts[n]) then [n] else [])
  }

  /** The crate's parity test is matrix closure. */
  lemma FoldsToScalarIsPauliClosed(h: History)
    ensures FoldsToScalar(h) <==> IsPauliClosed(h)
  {
    ScalarIffSharedParity(h);
  }

  method AxisParities(h: History) returns (p: Parities)
    ensures p == ParitiesOf(h)
  {
    var x, y, z := 0, 0, 0;
    for i := 0 to |h|
      invariant x >= 0 && y >= 0 && z >= 0
      invariant Parities(x % 2 == 1, y % 2 == 1, z % 2 == 1) == ParitiesOf(h[..i])
    {
      assert h[..i + 1][..i] == h[..i];
      match h[i]
      case Right | Left => x := x + 1;
      case Up | Down => y := y + 1;
      case Slash | BSlash => z := z + 1;
      case Plus | Minus =>
    }
    assert h[..|h|] == h;
    p := Parities(x % 2 == 1, y % 2 == 1, z % 2 == 1);
  }

  /** Copies the parts one behind the other, as the browser fills its buffer. */
  method BuildJoint(parts: seq<History>) returns (joint: History)
    ensures joint == Join(parts)
  {
    joint := [];
    for i := 0 to |parts|
      invariant joint == Join(parts[..i])
    {
      assert parts[..i + 1][..i] == parts[..i];
      joint := joint + parts[i];
    }
    assert parts[..|parts|] == parts;
  }

  method CollectOpen(parts: seq<History>) returns (open: seq<nat>)
    ensures open == OpenParts(parts)
  {
    hide IsPairwiseBalanced, ParitiesOf;
    open := [];
    for i := 0 to |parts|
      invariant open == OpenParts(parts[..i])
    {
      assert parts[..i + 1][..i] == parts[..i];
      var axis := AxisParities(parts[i]);
      if !IsPairwiseBalanced(parts[i]) && !(axis.x == axis.y && axis.y == axis.z) {
        open := open + [i];
      }
    }
    assert parts[..|parts|] == parts;
  }

  /** The browser's pure fallback gives the crate's verdict and the crate's indices. */
  method ClassifyCoupling(parts: seq<History>) returns (verdict: Verdict, open: seq<nat>)
    ensures verdict == ClassifyParts(parts) && open == OpenParts(parts)
  {
    var joint := BuildJoint(parts);
    open := CollectOpen(parts);
    var phase := ComputeScalar(joint);
    ScalarIffSharedParity(joint);
    if !(IsPairwiseBalanced(joint) && phase.Some?) {
      verdict := Open;
    } else if forall i :: 0 <= i < |parts| ==> IsPairwiseBalanced(parts[i]) {
      verdict := Independent;
    } else if forall i :: 0 <= i < |parts| ==> FoldsToScalar(parts[i]) {
      verdict := Product;
    } else {
      verdict := Coupled;
    }
  }

  /** All twists of a bag of parts, as one multiset. */
  lemma {:induction false} JoinPermutation(parts: seq<History>, others: seq<History>)
    requires multiset(parts) == multiset(others)
    ensures multiset(Join(parts)) == multiset(Join(others))
  {
    if parts == [] {
      EmptyMatch(others);
    } else {
      var n := |parts| - 1;
      var i := MatchLast(parts, others);
      JoinPermutation(parts[..n], Without(others, i));
      JoinRemove(others, i);
    }
  }

  lemma {:induction false} JoinRemove(parts: seq<History>, i: nat)
    requires i < |parts|
    ensures multiset(Join(parts)) == multiset(Join(Without(parts, i))) + multiset(parts[i])
  {
    hide Join;
    var n := |parts| - 1;
    JoinSnoc(parts);
    if i == n {
      assert Without(parts, i) == parts[..n];
    } else {
      JoinRemove(parts[..n], i);
      var rest := Without(parts, i);
      JoinSnoc(rest);
      assert rest[..n - 1] == Without(parts[..n], i);
      assert rest[n - 1] == parts[n];
    }
  }

  lemma JoinSnoc(parts: seq<History>)
    requires parts != []
    ensures multiset(Join(parts)) == multiset(Join(parts[..|parts| - 1])) + multiset(parts[|parts| - 1])
  {
  }

  /** The verdict does not depend on the order in which the room composed its parts. */
  lemma VerdictIsOrderIndependent(parts: seq<History>, others: seq<History>)
    requires multiset(parts) == multiset(others)
    ensures ClassifyParts(parts) == ClassifyParts(others)
  {
    JoinPermutation(parts, others);
    assert SignedAction(Join(parts)) == SignedAction(Join(others));
    if IsPairwiseBalanced(Join(parts)) {
      BalancedFoldsToSign(Join(parts));
      BalancedFoldsToSign(Join(others));
    }
    forall i | 0 <= i < |parts|
      ensures parts[i] in others
    {
      assert parts[i] in multiset(parts);
    }
    forall i | 0 <= i < |others|
      ensures others[i] in parts
    {
      assert others[i] in multiset(others);
    }
  }

  lemma BalancedIsScalar(h: History)
    requires IsPairwiseBalanced(h)
    ensures FoldsToScalar(h)
  {
    BalancedFoldsToSign(h);
    FoldsToScalarIsPauliClosed(h);
  }

  /** Every twist is met by its opposite. */
  predicate Cancels(h: History) {
    var m := multiset(h);
    m[Up] == m[Down] && m[Right] == m[Left] && m[Slash] == m[BSlash] && m[Plus] == m[Minus]
  }

  /** All three axes are met an even number of times, or all three an odd number. */
  predicate AxesAgree(h: History) {
    var m := multiset(h);
    (m[Right] + m[Left]) % 2 == (m[Up] + m[Down]) % 2 == (m[Slash] + m[BSlash]) % 2
  }

  lemma CountingDecides(h: History)
    ensures IsPairwiseBalanced(h) <==> Cancels(h)
    ensures FoldsToScalar(h) <==> AxesAgree(h)
  {
    hide ParitiesOf;
    ParitiesAreCounts(h);
  }

  /** The verdict and the open parts, told by counting twists: the Pauli fold of the whole
      never changes it. */
  lemma VerdictByCounting(parts: seq<History>)
    ensures ClassifyParts(parts) ==
            if !Cancels(Join(parts)) then Open
            else if forall i :: 0 <= i < |parts| ==> Cancels(parts[i]) then Independent
            else if forall i :: 0 <= i < |parts| ==> AxesAgree(parts[i]) then Product
            else Coupled
    ensures forall i :: i in OpenParts(parts) <==> 0 <= i < |parts| && !AxesAgree(parts[i])
  {
    hide Join, OpenParts, IsPairwiseBalanced, Cancels, AxesAgree, FoldsToScalar, IsPauliClosed, PauliFold, TwistMatrix,
         PauliScalarOf;
    if IsPairwiseBalanced(Join(parts)) {
      BalancedFoldsToSign(Join(parts));
    }
    CountingDecides(Join(parts));
    forall i | 0 <= i < |parts|
      ensures IsPairwiseBalanced(parts[i]) <==> Cancels(parts[i])
      ensures FoldsToScalar(parts[i]) <==> AxesAgree(parts[i])
      ensures IsPairwiseBalanced(parts[i]) ==> FoldsToScalar(parts[i])
    {
      CountingDecides(parts[i]);
      if IsPairwiseBalanced(parts[i]) {
        BalancedIsScalar(parts[i]);
      }
    }
  }

  lemma OpenPartIffNotScalar(h: History)
    ensures IsOpenPart(h) <==> !FoldsToScalar(h)
  {
    if IsPairwiseBalanced(h) {
      BalancedIsScalar(h);
    }
  }

  /** For a closed join, Coupled means exactly that some part is open. */
  lemma CoupledIffSomePartOpen(parts: seq<History>)
    requires ClassifyParts(parts) != Open
    ensures ClassifyParts(parts) == Coupled <==> OpenParts(parts) != []
  {
    var open := OpenParts(parts);
    if open != [] {
      var i := open[0];
      assert i in open;
      OpenPartIffNotScalar(parts[i]);
    } else {
      forall i | 0 <= i < |parts|
        ensures FoldsToScalar(parts[i])
      {
        assert i !in open;
        OpenPartIffNotScalar(parts[i]);
      }
    }
  }

  /** When every other part is scalar, the join is scalar iff the remaining part is. */
  lemma {:induction false} LoneNonScalarPart(parts: seq<History>, i: nat)
    requires i < |parts|
    requires forall j :: 0 <= j < |parts| && j != i ==> FoldsToScalar(parts[j])
    ensures FoldsToScalar(Join(parts)) <==> FoldsToScalar(parts[i])
  {
    var n := |parts| - 1;
    ParitiesConcat(Join(parts[..n]), parts[n]);
    if i == n {
      AllScalarJoin(parts[..n]);
    } else {
      LoneNonScalarPart(parts[..n], i);
    }
  }

  lemma {:induction false} AllScalarJoin(parts: seq<History>)
    requires forall j :: 0 <= j < |parts| ==> FoldsToScalar(parts[j])
    ensures FoldsToScalar(Join(parts))
  {
    if parts != [] {
      AllScalarJoin(parts[..|parts| - 1]);
      ParitiesConcat(Join(parts[..|parts| - 1]), parts[|parts| - 1]);
    }
  }

  lemma {:induction false} ParitiesConcat(g: History, h: History)
    ensures var p, q := ParitiesOf(g), ParitiesOf(h);
            ParitiesOf(g + h) == Parities(p.x != q.x, p.y != q.y, p.z != q.z)
  {
    if h == [] {
      assert g + h == g;
    } else {
      assert (g + h)[..|g + h| - 1] == g + h[..|h| - 1];
      ParitiesConcat(g, h[..|h| - 1]);
    }
  }

  /** No closed join ever has exactly one open part: coupling takes two. */
  lemma NeverExactlyOneOpenPart(parts: seq<History>)
    requires ClassifyParts(parts) != Open
    ensures |OpenParts(parts)| != 1
  {
    if |OpenParts(parts)| == 1 {
      var i := OpenParts(parts)[0];
      assert i in OpenParts(parts);
      forall j | 0 <= j < |parts| && j != i
        ensures FoldsToScalar(parts[j])
      {
        assert j !in OpenParts(parts);
        OpenPartIffNotScalar(parts[j]);
      }
      OpenPartIffNotScalar(parts[i]);
      LoneNonScalarPart(parts, i);
      FoldsToScalarIsPauliClosed(Join(parts));
    }
  }
}
