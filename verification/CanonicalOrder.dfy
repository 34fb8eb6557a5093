/** The order check used for artifact roles and for plan step ids. */
module CanonicalOrder {
  import opened Wrappers

  datatype OrderError = NotRecognized | Duplicated | OutOfOrder

  predicate Distinct(xs: seq<string>) {
    forall i, j | 0 <= i < j < |xs| :: xs[i] != xs[j]
  }

  /** `xs` results from deleting some elements of `canonical`. */
  predicate IsSubsequence(xs: seq<string>, canonical: seq<string>) {
    xs == [] || (canonical != [] &&
                 (if xs[0] == canonical[0] then IsSubsequence(xs[1..], canonical[1..]) else IsSubsequence(xs, canonical[1..])))
  }

  function Position(x: string, canonical: seq<string>): (k: nat)
    requires x in canonical
    ensures k < |canonical| && canonical[k] == x
  {
    if canonical[0] == x then 0 else 1 + Position(x, canonical[1..])
  }

  predicate AllKnown(xs: seq<string>, canonical: seq<string>) {
    forall x | x in xs :: x in canonical
  }

  function Positions(xs: seq<string>, canonical: seq<string>): (ps: seq<nat>)
    requires AllKnown(xs, canonical)
    ensures |ps| == |xs| && forall i | 0 <= i < |xs| :: ps[i] < |canonical| && canonical[ps[i]] == xs[i]
  {
    seq(|xs|, i requires 0 <= i < |xs| => Position(xs[i], canonical))
  }

  predicate Increasing(ps: seq<nat>) {
    forall i, j | 0 <= i < j < |ps| :: ps[i] < ps[j]
  }

  predicate NonDecreasing(ps: seq<nat>) {
    forall i, j | 0 <= i < j < |ps| :: ps[i] <= ps[j]
  }

  // ------------------------------------------------------------------ sorting

  function InsertNat(x: nat, xs: seq<nat>): (r: seq<nat>)
    ensures |r| == |xs| + 1
  {
    if xs == [] || x <= xs[0] then [x] + xs else [xs[0]] + InsertNat(x, xs[1..])
  }

  /** `sorted(positions)` */
  function Sorted(xs: seq<nat>): (r: seq<nat>)
    ensures |r| == |xs|
  {
    if xs == [] then [] else InsertNat(xs[0], Sorted(xs[1..]))
  }

  lemma {:induction false} InsertNatKeepsOrder(x: nat, xs: seq<nat>)
    requires NonDecreasing(xs)
    ensures NonDecreasing(InsertNat(x, xs))
    ensures forall y | y in InsertNat(x, xs) :: y == x || y in xs
  {
    if xs != [] && x > xs[0] {
      var rest := InsertNat(x, xs[1..]);
      InsertNatKeepsOrder(x, xs[1..]);
      forall i | 0 <= i < |rest| ensures xs[0] <= rest[i] {
        assert rest[i] in rest;
        if rest[i] != x {
          var j :| 0 <= j < |xs| - 1 && xs[1..][j] == rest[i];
          assert xs[j + 1] == rest[i];
        }
      }
    }
  }

  lemma {:induction false} SortedIsNonDecreasing(xs: seq<nat>)
    ensures NonDecreasing(Sorted(xs))
  {
    if xs != [] {
      SortedIsNonDecreasing(xs[1..]);
      InsertNatKeepsOrder(xs[0], Sorted(xs[1..]));
    }
  }

  /** A list equals its own sort exactly when it never decreases. */
  lemma {:induction false} EqualsItsSort(xs: seq<nat>)
    ensures xs == Sorted(xs) <==> NonDecreasing(xs)
  {
    SortedIsNonDecreasing(xs);
    if NonDecreasing(xs) && xs != [] {
      EqualsItsSort(xs[1..]);
      assert xs == [xs[0]] + xs[1..];
    }
  }

  // -------------------------------------------------------------- order check

  /** First unknown or repeated element decides; otherwise the order does. */
  ghost predicate FirstFault(xs: seq<string>, canonical: seq<string>, e: OrderError) {
    if e.OutOfOrder? then AllKnown(xs, canonical) && Distinct(xs)
    else exists k | 0 <= k < |xs| ::
        && AllKnown(xs[..k], canonical) && Distinct(xs[..k])
        && (if e.NotRecognized? then xs[k] !in canonical else xs[k] in canonical && xs[k] in xs[..k])
  }

  /** Nothing is wrong with subsequences of the canonical tuple; any other list has one fault to report. */
  ghost function OrderFault(xs: seq<string>, canonical: seq<string>): (e: Option<OrderError>)
    ensures e.None? <==> IsSubsequence(xs, canonical)
  {
    if IsSubsequence(xs, canonical) then None
    else if FirstFault(xs, canonical, NotRecognized) then Some(NotRecognized)
    else if FirstFault(xs, canonical, Duplicated) then Some(Duplicated)
    else Some(OutOfOrder)
  }

  lemma {:induction false} FaultIsUnique(xs: seq<string>, canonical: seq<string>, e: OrderError)
    requires !IsSubsequence(xs, canonical) && FirstFault(xs, canonical, e)
    ensures OrderFault(xs, canonical) == Some(e)
  {
    hide IsSubsequence;
    if e.Duplicated? && FirstFault(xs, canonical, NotRecognized) {
      var k :| 0 <= k < |xs| && AllKnown(xs[..k], canonical) && Distinct(xs[..k]) && xs[k] in canonical && xs[k] in xs[..k];
      var j :| 0 <= j < |xs| && AllKnown(xs[..j], canonical) && Distinct(xs[..j]) && xs[j] !in canonical;
      if k < j { RepeatedBelow(xs, j, k); }
    }
  }

  lemma RepeatedBelow(xs: seq<string>, j: nat, k: nat)
    requires k < j <= |xs| && xs[k] in xs[..k]
    ensures !Distinct(xs[..j])
  {
    var i :| 0 <= i < k && xs[..k][i] == xs[k];
    assert xs[..j][i] == xs[..j][k];
  }

  /**
   `_validate_artifact_roles` and `_validate_step_ids`: membership, no repetition, and positions
   equal to their sort. Accepts exactly the subsequences of the canonical tuple.
   */
  method CheckOrder(xs: seq<string>, canonical: seq<string>) returns (e: Option<OrderError>)
    requires Distinct(canonical)
    ensures e == OrderFault(xs, canonical)
    ensures e.None? <==> IsSubsequence(xs, canonical)
    ensures e.Some? ==> FirstFault(xs, canonical, e.value)
  {
    hide IsSubsequence, Position, Sorted, OrderFault;
    var positions: seq<nat> := [];
    var seen: set<string> := {};
    for k := 0 to |xs|
      invariant AllKnown(xs[..k], canonical) && Distinct(xs[..k])
      invariant positions == Positions(xs[..k], canonical)
      invariant seen == set x | x in xs[..k]
    {
      if xs[k] !in canonical {
        SubsequenceExactly(xs, canonical);
        FaultIsUnique(xs, canonical, NotRecognized);
        return Some(NotRecognized);
      }
      if xs[k] in seen {
        SubsequenceExactly(xs, canonical);
        assert !Distinct(xs) by {
          var i :| 0 <= i < k && xs[..k][i] == xs[k];
          assert xs[i] == xs[k];
        }
        if AllKnown(xs, canonical) { IncreasingExactly(xs, canonical); }
        FaultIsUnique(xs, canonical, Duplicated);
        return Some(Duplicated);
      }
      seen := seen + {xs[k]};
      positions := positions + [Position(xs[k], canonical)];
      assert xs[..k + 1] == xs[..k] + [xs[k]];
    }
    assert xs[..|xs|] == xs;
    EqualsItsSort(positions);
    SubsequenceExactly(xs, canonical);
    IncreasingExactly(xs, canonical);
    if positions != Sorted(positions) {
      FaultIsUnique(xs, canonical, OutOfOrder);
      return Some(OutOfOrder);
    }
    return None;
  }

  lemma IncreasingExactly(xs: seq<string>, canonical: seq<string>)
    requires AllKnown(xs, canonical)
    ensures Increasing(Positions(xs, canonical)) ==> Distinct(xs)
    ensures Distinct(xs) && NonDecreasing(Positions(xs, canonical)) ==> Increasing(Positions(xs, canonical))
  {
    hide Position;
    var ps := Positions(xs, canonical);
    if Increasing(ps) {
      forall i, j | 0 <= i < j < |xs| ensures xs[i] != xs[j] {
        assert ps[i] == Position(xs[i], canonical) && ps[j] == Position(xs[j], canonical);
      }
    }
    if Distinct(xs) && NonDecreasing(ps) {
      forall i, j | 0 <= i < j < |ps| ensures ps[i] < ps[j] {
        assert xs[i] != xs[j];
        assert canonical[ps[i]] == xs[i] && canonical[ps[j]] == xs[j];
      }
    }
  }

  /** Positions in a shortened tuple shift by one. */
  lemma PositionShifts(x: string, canonical: seq<string>)
    requires canonical != [] && x != canonical[0] && x in canonical
    ensures x in canonical[1..] && Position(x, canonical) == 1 + Position(x, canonical[1..])
  {
    assert canonical == [canonical[0]] + canonical[1..];
  }

  /** A list is a subsequence of a distinct tuple exactly when its elements occur there at increasing positions. */
  lemma {:induction false} SubsequenceExactly(xs: seq<string>, canonical: seq<string>)
    requires Distinct(canonical)
    ensures IsSubsequence(xs, canonical) <==> AllKnown(xs, canonical) && Increasing(Positions(xs, canonical))
    decreases |canonical|
  {
    if xs != [] && canonical != [] {
      var c, rest := canonical[0], canonical[1..];
      assert canonical == [c] + rest && c !in rest && Distinct(rest);
      if xs[0] == c {
        SubsequenceExactly(xs[1..], rest);
        HeadMatches(xs, canonical);
      } else {
        SubsequenceExactly(xs, rest);
        HeadSkipped(xs, canonical);
      }
    } else if xs != [] {
      assert xs[0] in xs;
    }
  }

  lemma {:induction false} HeadMatches(xs: seq<string>, canonical: seq<string>)
    requires Distinct(canonical) && xs != [] && canonical != [] && xs[0] == canonical[0]
    ensures AllKnown(xs, canonical) && Increasing(Positions(xs, canonical)) <==>
            AllKnown(xs[1..], canonical[1..]) && Increasing(Positions(xs[1..], canonical[1..]))
  {
    hide Position, Positions, Increasing, Distinct, AllKnown;
    if AllKnown(xs, canonical) && Increasing(Positions(xs, canonical)) {
      TailOfMatch(xs, canonical);
    }
    if AllKnown(xs[1..], canonical[1..]) && Increasing(Positions(xs[1..], canonical[1..])) {
      MatchOfTail(xs, canonical);
    }
  }

  lemma {:induction false} TailOfMatch(xs: seq<string>, canonical: seq<string>)
    requires xs != [] && canonical != [] && xs[0] == canonical[0]
    requires AllKnown(xs, canonical) && Increasing(Positions(xs, canonical))
    ensures AllKnown(xs[1..], canonical[1..]) && Increasing(Positions(xs[1..], canonical[1..]))
  {
    hide Position;
    var tail, rest, ps := xs[1..], canonical[1..], Positions(xs, canonical);
    HeadPosition(canonical);
    forall i | 0 <= i < |tail| ensures tail[i] in rest && ps[i + 1] == 1 + Position(tail[i], rest) {
      assert xs[i + 1] == tail[i] && ps[0] < ps[i + 1];
      PositionShifts(tail[i], canonical);
    }
  }

  lemma {:induction false} MatchOfTail(xs: seq<string>, canonical: seq<string>)
    requires Distinct(canonical) && xs != [] && canonical != [] && xs[0] == canonical[0]
    requires AllKnown(xs[1..], canonical[1..]) && Increasing(Positions(xs[1..], canonical[1..]))
    ensures AllKnown(xs, canonical) && Increasing(Positions(xs, canonical))
  {
    hide Position;
    var tail, rest := xs[1..], canonical[1..];
    HeadPosition(canonical);
    forall i | 0 <= i < |tail| ensures tail[i] in canonical && Position(tail[i], canonical) == 1 + Position(tail[i], rest) {
      assert tail[i] in rest;
      PositionShifts(tail[i], canonical);
    }
    forall x | x in xs ensures x in canonical {
      var i :| 0 <= i < |xs| && xs[i] == x;
      assert i > 0 ==> tail[i - 1] == x;
    }
  }

  lemma HeadPosition(canonical: seq<string>)
    requires canonical != []
    ensures Position(canonical[0], canonical) == 0
  {
  }

  lemma {:induction false} HeadSkipped(xs: seq<string>, canonical: seq<string>)
    requires Distinct(canonical) && xs != [] && canonical != [] && xs[0] != canonical[0]
    ensures AllKnown(xs, canonical) && Increasing(Positions(xs, canonical)) <==>
            AllKnown(xs, canonical[1..]) && Increasing(Positions(xs, canonical[1..]))
  {
    hide Position, Positions, Increasing, Distinct, AllKnown;
    if AllKnown(xs, canonical) && Increasing(Positions(xs, canonical)) {
      SkippedBelow(xs, canonical);
    }
    if AllKnown(xs, canonical[1..]) && Increasing(Positions(xs, canonical[1..])) {
      SkippedAbove(xs, canonical);
    }
  }

  lemma {:induction false} SkippedBelow(xs: seq<string>, canonical: seq<string>)
    requires xs != [] && canonical != [] && xs[0] != canonical[0]
    requires AllKnown(xs, canonical) && Increasing(Positions(xs, canonical))
    ensures AllKnown(xs, canonical[1..]) && Increasing(Positions(xs, canonical[1..]))
  {
    hide Position;
    var rest, ps := canonical[1..], Positions(xs, canonical);
    forall i | 0 <= i < |xs| ensures xs[i] in rest && ps[i] == 1 + Position(xs[i], rest) {
      assert ps[0] > 0 && (i > 0 ==> ps[0] < ps[i]);
      HeadPosition(canonical);
      PositionShifts(xs[i], canonical);
    }
  }

  lemma {:induction false} SkippedAbove(xs: seq<string>, canonical: seq<string>)
    requires Distinct(canonical) && canonical != []
    requires AllKnown(xs, canonical[1..]) && Increasing(Positions(xs, canonical[1..]))
    ensures AllKnown(xs, canonical) && Increasing(Positions(xs, canonical))
  {
    hide Position;
    var rest := canonical[1..];
    forall i | 0 <= i < |xs| ensures xs[i] in canonical && Position(xs[i], canonical) == 1 + Position(xs[i], rest) {
      assert xs[i] in rest;
      PositionShifts(xs[i], canonical);
    }
  }

  /** Appending an element to the tuple keeps subsequences, with or without that element. */
  lemma SubsequenceGrows(xs: seq<string>, c: seq<string>, x: string)
    requires IsSubsequence(xs, c)
    ensures IsSubsequence(xs, c + [x]) && IsSubsequence(xs + [x], c + [x])
    decreases |c|
  {
    if c == [] {
      assert xs + [x] == [x] && c + [x] == [x];
      assert [x][1..] == [];
    } else {
      assert (c + [x])[1..] == c[1..] + [x];
      if xs == [] {
        SubsequenceGrows(xs, c[1..], x);
        assert xs + [x] == [x];
        assert [x][1..] == [];
      } else if xs[0] == c[0] {
        assert (xs + [x])[1..] == xs[1..] + [x];
        SubsequenceGrows(xs[1..], c[1..], x);
      } else {
        SubsequenceGrows(xs, c[1..], x);
      }
    }
  }
}
