/** Percentages of traffic by largest remainder: whole numbers that add up to exactly 100. */
module TrafficShare {

  function Sum(counts: seq<int>): int {
    if counts == [] then 0 else Sum(counts[..|counts| - 1]) + counts[|counts| - 1]
  }

  predicate Nonnegative(counts: seq<int>) { forall i :: 0 <= i < |counts| ==> counts[i] >= 0 }

  function Floor(turns: int, total: int): int
    requires total > 0
  {
    turns * 100 / total
  }

  function Remainder(turns: int, total: int): int
    requires total > 0
  {
    turns * 100 % total
  }

  lemma {:induction false} SumUpdate(counts: seq<int>, k: nat, value: int)
    requires k < |counts|
    ensures Sum(counts[k := value]) == Sum(counts) - counts[k] + value
  {
    var next := counts[k := value];
    if k == |counts| - 1 {
      assert next[..k] == counts[..k];
    } else {
      SumUpdate(counts[..|counts| - 1], k, value);
      assert next[..|counts| - 1] == counts[..|counts| - 1][k := value];
    }
  }

  lemma {:induction false} SumAtMost(counts: seq<int>, bound: int)
    requires forall i :: 0 <= i < |counts| ==> counts[i] <= bound
    ensures Sum(counts) <= bound * |counts|
  {
    if counts != [] {
      SumAtMost(counts[..|counts| - 1], bound);
    }
  }

  lemma {:induction false} SumPositive(counts: seq<int>)
    requires Nonnegative(counts)
    ensures Sum(counts) >= 0 && (Sum(counts) == 0 <==> forall i :: 0 <= i < |counts| ==> counts[i] == 0)
  {
    if counts != [] {
      SumPositive(counts[..|counts| - 1]);
    }
  }

  /** Sums that agree cannot differ in one direction only. */
  lemma {:induction false} SumDominates(p: seq<int>, q: seq<int>)
    requires |p| == |q| && forall i :: 0 <= i < |p| ==> p[i] >= q[i]
    ensures Sum(p) >= Sum(q) && (Sum(p) == Sum(q) ==> p == q)
  {
    if p != [] {
      SumDominates(p[..|p| - 1], q[..|q| - 1]);
      assert p == p[..|p| - 1] + [p[|p| - 1]] && q == q[..|q| - 1] + [q[|q| - 1]];
    }
  }

  /** `i` is rounded up before `j`: a larger remainder, or an equal one earlier in the list. */
  predicate Beats(turns: seq<int>, total: int, i: nat, j: nat)
    requires i < |turns| && j < |turns| && total > 0
  {
    Remainder(turns[j], total) < Remainder(turns[i], total)
      || (Remainder(turns[j], total) == Remainder(turns[i], total) && i < j)
  }

  /** Whole percentages that add up to 100, each its exact share rounded down or up, never up from a
      whole share, and rounded up in the order of the remainders. */
  ghost predicate IsShare(turns: seq<int>, total: int, shares: seq<int>)
    requires total > 0
  {
    && |shares| == |turns| && Sum(shares) == 100
    && (forall i {:trigger shares[i]} :: 0 <= i < |shares| ==>
          shares[i] == Floor(turns[i], total)
            || (shares[i] == Floor(turns[i], total) + 1 && Remainder(turns[i], total) > 0))
    && (forall i, j {:trigger shares[i], shares[j]} :: 0 <= i < |shares| && 0 <= j < |shares| ==>
          shares[i] > Floor(turns[i], total) && shares[j] == Floor(turns[j], total) ==> Beats(turns, total, i, j))
  }

  /** There is one such list. */
  lemma ShareIsUnique(turns: seq<int>, total: int, p: seq<int>, q: seq<int>)
    requires total > 0 && IsShare(turns, total, p) && IsShare(turns, total, q)
    ensures p == q
  {
    if i :| 0 <= i < |p| && p[i] > q[i] {
      if j :| 0 <= j < |p| && p[j] < q[j] {
        assert Beats(turns, total, i, j) && Beats(turns, total, j, i);
      } else {
        SumDominates(p, q);
      }
    } else {
      SumDominates(q, p);
    }
  }

  /** Nobody without traffic is shown any, and shares are within one of exact. */
  lemma ShareIsClose(turns: seq<int>, total: int, shares: seq<int>, i: nat)
    requires total > 0 && IsShare(turns, total, shares) && Nonnegative(turns) && i < |turns|
    ensures turns[i] == 0 ==> shares[i] == 0
    ensures turns[i] * 100 - total < shares[i] * total < turns[i] * 100 + total
  {
    assert shares[i] == Floor(turns[i], total)
           || (shares[i] == Floor(turns[i], total) + 1 && Remainder(turns[i], total) > 0);
    DivMod(turns[i] * 100, total);
  }

  lemma DivMod(a: int, b: int)
    requires b > 0
    ensures a == a / b * b + a % b && 0 <= a % b < b && (a + b) - b == a
    ensures (a / b + 1) * b == a / b * b + b
  {
  }

  /** The remainders make up exactly what rounding down left out. */
  lemma {:induction false} RemaindersFill(turns: seq<int>, total: int, floors: seq<int>, remainders: seq<int>)
    requires total > 0 && |floors| == |turns| && |remainders| == |turns|
    requires forall i :: 0 <= i < |turns| ==>
      floors[i] == Floor(turns[i], total) && remainders[i] == Remainder(turns[i], total)
    ensures Sum(floors) * total + Sum(remainders) == Sum(turns) * 100
  {
    if turns != [] {
      var n := |turns| - 1;
      RemaindersFill(turns[..n], total, floors[..n], remainders[..n]);
      DivMod(turns[n] * 100, total);
    }
  }

  method Total(turns: seq<int>) returns (total: int)
    ensures total == Sum(turns)
  {
    total := 0;
    for i := 0 to |turns|
      invariant total == Sum(turns[..i])
    {
      assert turns[..i + 1][..i] == turns[..i];
      total := total + turns[i];
    }
    assert turns[..|turns|] == turns;
  }

  method RoundDown(turns: seq<int>, total: int) returns (shares: seq<int>, remainders: seq<int>, given: int)
    requires total > 0
    ensures |shares| == |remainders| == |turns| && given == Sum(shares)
    ensures forall i :: 0 <= i < |turns| ==>
      shares[i] == Floor(turns[i], total) && remainders[i] == Remainder(turns[i], total)
  {
    shares, remainders, given := [], [], 0;
    for i := 0 to |turns|
      invariant |shares| == |remainders| == i && given == Sum(shares)
      invariant forall k :: 0 <= k < i ==>
        shares[k] == Floor(turns[k], total) && remainders[k] == Remainder(turns[k], total)
    {
      shares := shares + [turns[i] * 100 / total];
      remainders := remainders + [turns[i] * 100 % total];
      assert shares[..i] + [shares[i]] == shares;
      given := given + shares[i];
    }
  }

  /** The first of the largest remainders. */
  method Largest(remainders: seq<int>) returns (largest: nat)
    requires remainders != []
    ensures IsLargest(remainders, largest)
  {
    largest := 0;
    for i := 1 to |remainders|
      invariant largest < i
      invariant forall j :: 0 <= j < i ==>
        remainders[j] < remainders[largest] || (remainders[j] == remainders[largest] && largest <= j)
    {
      if remainders[i] > remainders[largest] {
        largest := i;
      }
    }
  }

  /** Rounding up so far: used remainders are -1. */
  ghost predicate Rounded(turns: seq<int>, total: int, shares: seq<int>, remainders: seq<int>)
    requires total > 0
  {
    && |shares| == |remainders| == |turns|
    && (forall i {:trigger shares[i]} {:trigger remainders[i]} :: 0 <= i < |turns| ==>
          if remainders[i] == -1 then shares[i] == Floor(turns[i], total) + 1 && Remainder(turns[i], total) > 0
          else shares[i] == Floor(turns[i], total) && remainders[i] == Remainder(turns[i], total))
    && (forall i, j {:trigger remainders[i], remainders[j]} :: 0 <= i < |turns| && 0 <= j < |turns| ==>
          remainders[i] == -1 && remainders[j] != -1 ==> Beats(turns, total, i, j))
  }

  /** The remainders left still cover what is missing. */
  ghost predicate Covered(total: int, shares: seq<int>, remainders: seq<int>, given: int) {
    given == Sum(shares) && given <= 100 && Sum(remainders) >= total * (100 - given)
  }

  lemma LargestIsPositive(remainders: seq<int>, largest: nat, total: int, missing: int)
    requires largest < |remainders| && total > 0 && missing > 0 && Sum(remainders) >= total * missing
    requires forall j :: 0 <= j < |remainders| ==> remainders[j] <= remainders[largest]
    ensures remainders[largest] > 0
  {
    assert total * missing > 0;
    if remainders[largest] <= 0 {
      SumAtMost(remainders, 0);
    }
  }

  predicate IsLargest(remainders: seq<int>, largest: nat) {
    && largest < |remainders|
    && forall j :: 0 <= j < |remainders| ==>
         remainders[j] < remainders[largest] || (remainders[j] == remainders[largest] && largest <= j)
  }

  lemma RoundUpOne(turns: seq<int>, total: int, shares: seq<int>, remainders: seq<int>, largest: nat)
    requires total > 0 && Rounded(turns, total, shares, remainders) && IsLargest(remainders, largest)
             && remainders[largest] > 0
    ensures Rounded(turns, total, shares[largest := shares[largest] + 1], remainders[largest := -1])
  {
  }

  lemma CoverOne(turns: seq<int>, total: int, shares: seq<int>, remainders: seq<int>, given: int, largest: nat)
    requires total > 0 && |shares| == |remainders| && Covered(total, shares, remainders, given) && given < 100
    requires largest < |remainders| && remainders[largest] < total
    ensures Covered(total, shares[largest := shares[largest] + 1], remainders[largest := -1], given + 1)
  {
    SumUpdate(shares, largest, shares[largest] + 1);
    SumUpdate(remainders, largest, -1);
    assert total * (100 - given) == total * (100 - (given + 1)) + total;
  }

  method TrafficPercentages(turns: seq<int>) returns (percentages: seq<int>)
    requires Nonnegative(turns)
    ensures Sum(turns) == 0 ==> percentages == turns && forall i :: 0 <= i < |turns| ==> percentages[i] == 0
    ensures Sum(turns) > 0 ==> IsShare(turns, Sum(turns), percentages)
  {
    var total := Total(turns);
    SumPositive(turns);
    if total == 0 {
      return turns;
    }
    var remainders, given;
    percentages, remainders, given := RoundDown(turns, total);
    RemaindersFill(turns, total, percentages, remainders);
    FloorsFit(total, given, remainders);
    while given < 100
      invariant Rounded(turns, total, percentages, remainders) && Covered(total, percentages, remainders, given)
      decreases 100 - given
    {
      var largest := Largest(remainders);
      LargestIsPositive(remainders, largest, total, 100 - given);
      DivMod(turns[largest] * 100, total);
      RoundUpOne(turns, total, percentages, remainders, largest);
      CoverOne(turns, total, percentages, remainders, given, largest);
      percentages := percentages[largest := percentages[largest] + 1];
      remainders := remainders[largest := -1];
      given := given + 1;
    }
  }

  lemma FloorsFit(total: int, given: int, remainders: seq<int>)
    requires total > 0 && given * total + Sum(remainders) == total * 100 && Nonnegative(remainders)
    ensures given <= 100 && Sum(remainders) == total * (100 - given)
  {
    SumPositive(remainders);
    assert given > 100 ==> given * total >= 101 * total;
  }
}
