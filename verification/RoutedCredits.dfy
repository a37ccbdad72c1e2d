/** The per-account index of estimated credits: points in time order with running totals, pruned to
    the days that can be asked about, and proved to answer like the unpruned history. */
module RoutedCredits {
  import opened Wrappers

  const HISTORY := 8 * 24 * 3600 * 1_000_000_000
  const PRUNE_BATCH := 1_024

  /** One routed request: when, its estimated nano-credits, and whether it had a price. */
  datatype Use = Use(at: int, nano: int, priced: bool)

  datatype Point = Point(use: Use, totalCredits: int, totalUnpriced: int)

  /** The two running totals. */
  datatype Measure = Spent | Gaps

  function Of(m: Measure, use: Use): int {
    match m
    case Spent => use.nano
    case Gaps => if use.priced then 0 else 1
  }

  function TotalOf(m: Measure, p: Point): int {
    match m
    case Spent => p.totalCredits
    case Gaps => p.totalUnpriced
  }

  function Uses(points: seq<Point>): (uses: seq<Use>)
    ensures |uses| == |points|
  {
    seq(|points|, i requires 0 <= i < |points| => points[i].use)
  }

  // ---------- the history, naively

  function Sum(uses: seq<Use>, start: int, m: Measure): int {
    if uses == [] then 0
    else
      var last := uses[|uses| - 1];
      Sum(uses[..|uses| - 1], start, m) + if last.at >= start then Of(m, last) else 0
  }

  function Earliest(uses: seq<Use>): (at: int)
    requires uses != []
    ensures (exists u :: u in uses && u.at == at) && forall u :: u in uses ==> at <= u.at
  {
    var last := uses[|uses| - 1];
    if |uses| == 1 then last.at
    else
      var front := uses[..|uses| - 1];
      assert uses == front + [last];
      var at := Earliest(front);
      if last.at < at then last.at else at
  }

  /** The estimate since `start`: unknown without history or when a use since then had no price;
      otherwise the sum, and the instant it really begins at. */
  ghost function Estimate(uses: seq<Use>, start: int): Option<(int, int)> {
    if uses == [] || start == 0 || exists u :: u in uses && u.at >= start && !u.priced then None
    else Some((Sum(uses, start, Spent), if Earliest(uses) > start then Earliest(uses) else start))
  }

  lemma {:induction false} SumConcat(a: seq<Use>, b: seq<Use>, start: int, m: Measure)
    ensures Sum(a + b, start, m) == Sum(a, start, m) + Sum(b, start, m)
  {
    if b == [] {
      assert a + b == a;
    } else {
      SumConcat(a, b[..|b| - 1], start, m);
      assert (a + b)[..|a + b| - 1] == a + b[..|b| - 1];
    }
  }

  lemma {:induction false} SumBefore(uses: seq<Use>, start: int, m: Measure)
    requires forall u :: u in uses ==> u.at < start
    ensures Sum(uses, start, m) == 0
  {
    if uses != [] {
      SumBefore(uses[..|uses| - 1], start, m);
    }
  }

  lemma {:induction false} GapsAreUnpriced(uses: seq<Use>, start: int)
    ensures Sum(uses, start, Gaps) >= 0
    ensures Sum(uses, start, Gaps) > 0 <==> exists u :: u in uses && u.at >= start && !u.priced
  {
    if uses != [] {
      var front := uses[..|uses| - 1];
      GapsAreUnpriced(front, start);
      assert uses == front + [uses[|uses| - 1]];
    }
  }

  // ---------- the index

  predicate Sorted(points: seq<Point>) {
    forall i, j {:trigger points[i], points[j]} :: 0 <= i < j < |points| ==> points[i].use.at <= points[j].use.at
  }

  ghost predicate Running(points: seq<Point>, m: Measure, upto: nat)
    requires upto <= |points|
  {
    forall i, j {:trigger points[i], points[j]} :: 0 <= i && j == i + 1 && j < upto ==>
      TotalOf(m, points[j]) == TotalOf(m, points[i]) + Of(m, points[j].use)
  }

  ghost predicate Indexed(points: seq<Point>) {
    Sorted(points) && Running(points, Spent, |points|) && Running(points, Gaps, |points|)
  }

  /** What sort.Search finds: where the points that satisfy `past` begin. */
  predicate Splits(points: seq<Point>, past: int -> bool, index: nat) {
    && index <= |points|
    && (forall i {:trigger points[i]} :: 0 <= i < |points| ==> (past(points[i].use.at) <==> index <= i))
  }

  lemma SplitsOnce(points: seq<Point>, past: int -> bool, i: nat, j: nat)
    requires Splits(points, past, i) && Splits(points, past, j)
    ensures i == j
  {
    var k := if i < j then i else j;
    if k < |points| {
      var first := points[k];
    }
  }

  method Search(points: seq<Point>, past: int -> bool) returns (index: nat)
    requires Sorted(points) && forall a, b {:trigger past(a), past(b)} :: a <= b && past(a) ==> past(b)
    ensures Splits(points, past, index)
  {
    var i: nat, j: nat := 0, |points|;
    while i < j
      invariant i <= j <= |points|
      invariant forall k {:trigger points[k]} :: 0 <= k < i ==> !past(points[k].use.at)
      invariant forall k {:trigger points[k]} :: j <= k < |points| ==> past(points[k].use.at)
    {
      var h := (i + j) / 2;
      if past(points[h].use.at) {
        j := h;
      } else {
        i := h + 1;
      }
    }
    index := i;
  }

  function Since(start: int): int -> bool { at => at >= start }

  function After(start: int): int -> bool { at => at > start }

  /** The sum since `start`, from two running totals. */
  function SpanOf(points: seq<Point>, index: nat, m: Measure): int
    requires points != [] && index <= |points|
  {
    TotalOf(m, points[|points| - 1]) - if index > 0 then TotalOf(m, points[index - 1])
    else TotalOf(m, points[0]) - Of(m, points[0].use)
  }

  /** The difference of running totals is the sum since `start`. */
  lemma {:induction false} TotalsGiveSum(points: seq<Point>, start: int, index: nat, m: Measure)
    requires points != [] && Running(points, m, |points|) && Splits(points, Since(start), index)
    ensures Sum(Uses(points), start, m) == SpanOf(points, index, m)
  {
    var n := |points|;
    var front := points[..n - 1];
    assert Uses(points)[..n - 1] == Uses(front);
    if index == n {
      assert forall u :: u in Uses(points) ==> u.at < start;
      SumBefore(Uses(points), start, m);
    } else if n > 1 {
      TotalsGiveSum(front, start, if index < n then index else n - 1, m);
    } else {
      assert Uses(front) == [];
    }
  }

  // ---------- pruning

  /** What has been dropped is older than the history that can be asked about, and then a point
      older than that is kept. */
  ghost predicate Retains(points: seq<Point>, dropped: seq<Use>, added: seq<Use>) {
    && multiset(Uses(points)) + multiset(dropped) == multiset(added)
    && (points == [] ==> dropped == [])
    && (points != [] ==> forall u :: u in dropped ==> u.at < points[|points| - 1].use.at - HISTORY)
    && (dropped != [] ==> points[0].use.at < points[|points| - 1].use.at - HISTORY)
  }

  lemma SumWithout(uses: seq<Use>, i: nat, start: int, m: Measure)
    requires i < |uses|
    ensures multiset(uses[..i] + uses[i + 1..]) == multiset(uses) - multiset{uses[i]}
    ensures Sum(uses, start, m) == Sum(uses[..i] + uses[i + 1..], start, m) + if uses[i].at >= start then Of(m, uses[i])
            else 0
  {
    var front, back := uses[..i], uses[i + 1..];
    assert uses == front + [uses[i]] + back;
    SumConcat(front, [uses[i]], start, m);
    SumConcat(front + [uses[i]], back, start, m);
    SumConcat(front, back, start, m);
    assert [uses[i]][..0] == [];
    assert Sum([uses[i]], start, m) == if uses[i].at >= start then Of(m, uses[i]) else 0;
  }

  lemma {:induction false} SumOfMultiset(a: seq<Use>, b: seq<Use>, start: int, m: Measure)
    requires multiset(a) == multiset(b)
    ensures Sum(a, start, m) == Sum(b, start, m)
  {
    if a != [] {
      assert a[0] in multiset(b);
      var i :| 0 <= i < |b| && b[i] == a[0];
      SumWithout(a, 0, start, m);
      SumWithout(b, i, start, m);
      SumOfMultiset(a[..0] + a[1..], b[..i] + b[i + 1..], start, m);
    } else {
      assert |multiset(b)| == |b|;
    }
  }

  lemma SameMembers(points: seq<Point>, dropped: seq<Use>, added: seq<Use>)
    requires Retains(points, dropped, added)
    ensures forall u :: u in added <==> u in Uses(points) || u in dropped
  {
    forall u ensures u in added <==> u in Uses(points) || u in dropped {
      assert u in added <==> u in multiset(added);
    }
  }

  lemma SameBeginning(points: seq<Point>, dropped: seq<Use>, added: seq<Use>, start: int)
    requires Retains(points, dropped, added) && points != []
    requires start >= points[|points| - 1].use.at - HISTORY
    ensures added != []
    ensures Earliest(Uses(points)) == Earliest(added) || (Earliest(Uses(points)) <= start && Earliest(added) <= start)
  {
    SameMembers(points, dropped, added);
    assert Uses(points)[0] in Uses(points) && Uses(points)[0] in added;
  }

  /** For every start within the kept days, the index answers like everything ever added. */
  lemma KeptAnswersForAll(points: seq<Point>, dropped: seq<Use>, added: seq<Use>, start: int)
    requires Retains(points, dropped, added) && points != []
    requires start >= points[|points| - 1].use.at - HISTORY
    ensures Estimate(Uses(points), start) == Estimate(added, start)
  {
    var kept := Uses(points);
    SameMembers(points, dropped, added);
    SameBeginning(points, dropped, added, start);
    SumConcat(kept, dropped, start, Spent);
    SumBefore(dropped, start, Spent);
    SumOfMultiset(kept + dropped, added, start, Spent);
  }

  // ---------- the object

  lemma InsertKeepsSorted(points: seq<Point>, p: Point, index: nat)
    requires Sorted(points) && Splits(points, After(p.use.at), index)
    ensures Sorted(points[..index] + [p] + points[index..])
  {
  }

  lemma SortedByUses(a: seq<Point>, b: seq<Point>)
    requires |a| == |b| && Sorted(a) && forall i {:trigger b[i]} :: 0 <= i < |b| ==> b[i].use == a[i].use
    ensures Sorted(b)
  {
  }

  lemma UsesConcat(a: seq<Point>, b: seq<Point>)
    ensures Uses(a + b) == Uses(a) + Uses(b)
  {
  }

  /** A new use joins the kept ones, so what is retained and what was added both grow by it. */
  lemma AddRetains(points: seq<Point>, dropped: seq<Use>, added: seq<Use>, index: nat, p: Point, next: seq<Point>)
    requires Retains(points, dropped, added) && Sorted(next)
    requires index <= |points| && |next| == |points| + 1
    requires forall i {:trigger next[i]} :: 0 <= i < |next| ==>
      next[i].use == (points[..index] + [p] + points[index..])[i].use
    ensures Retains(next, dropped, added + [p.use])
  {
    var front, back := points[..index], points[index..];
    assert points == front + back;
    UsesConcat(front, back);
    UsesConcat(front, [p]);
    UsesConcat(front + [p], back);
    assert Uses(next) == Uses(front + [p] + back);
    assert Uses([p]) == [p.use];
    if points != [] {
      NewestNeverOlder(points, index, p, next);
    }
  }

  lemma NewestNeverOlder(points: seq<Point>, index: nat, p: Point, next: seq<Point>)
    requires points != [] && index <= |points| && |next| == |points| + 1 && Sorted(next)
    requires forall i {:trigger next[i]} :: 0 <= i < |next| ==>
      next[i].use == (points[..index] + [p] + points[index..])[i].use
    ensures next[|next| - 1].use.at >= points[|points| - 1].use.at && next[0].use.at <= points[0].use.at
  {
    assert next[if index == |points| then |points| - 1 else |points|].use == points[|points| - 1].use;
    assert next[if index == 0 then 1 else 0].use == points[0].use;
  }

  lemma SuffixIndexed(points: seq<Point>, k: nat)
    requires Indexed(points) && k <= |points|
    ensures Indexed(points[k..])
  {
    var back := points[k..];
    forall i, j {:trigger back[i], back[j]} | 0 <= i && j == i + 1 && j < |back|
      ensures TotalOf(Spent, back[j]) == TotalOf(Spent, back[i]) + Of(Spent, back[j].use)
      ensures TotalOf(Gaps, back[j]) == TotalOf(Gaps, back[i]) + Of(Gaps, back[j].use)
    {
      assert back[i] == points[k + i] && back[j] == points[k + j];
    }
  }

  lemma PruneRetains(points: seq<Point>, dropped: seq<Use>, added: seq<Use>, index: nat)
    requires Retains(points, dropped, added) && points != [] && 1 <= index <= |points|
    requires Splits(points, Since(points[|points| - 1].use.at - HISTORY), index)
    ensures Retains(points[index - 1..], dropped + Uses(points[..index - 1]), added)
    ensures index < |points| && points[index - 1].use.at < points[|points| - 1].use.at - HISTORY
    ensures points[index - 1..] != [] && points[index - 1..][|points| - index] == points[|points| - 1]
  {
    var cutoff := points[|points| - 1].use.at - HISTORY;
    var front, back := points[..index - 1], points[index - 1..];
    assert points == front + back;
    UsesConcat(front, back);
    forall u | u in Uses(front) ensures u.at < cutoff {
      var i :| 0 <= i < |front| && front[i].use == u;
      assert front[i] == points[i] && !Since(cutoff)(points[i].use.at);
    }
    assert Since(cutoff)(points[|points| - 1].use.at);
    assert back[0] == points[index - 1] && !Since(cutoff)(points[index - 1].use.at);
    assert back[|back| - 1] == points[|points| - 1];
  }

  lemma EarliestIsFirst(points: seq<Point>)
    requires Sorted(points) && points != []
    ensures Earliest(Uses(points)) == points[0].use.at
  {
    assert Uses(points)[0] in Uses(points);
  }

  lemma BeginsAt(points: seq<Point>, start: int, index: nat)
    requires Sorted(points) && points != [] && Splits(points, Since(start), index)
    ensures (if Earliest(Uses(points)) > start then Earliest(Uses(points)) else start)
         == (if index == 0 && points[0].use.at > start then points[0].use.at else start)
  {
    EarliestIsFirst(points);
    assert index > 0 ==> points[0].use.at < start;
  }

  /** What the running totals give is the estimate over the kept points. */
  lemma TotalsGiveEstimate(points: seq<Point>, start: int, index: nat)
    requires Indexed(points) && points != [] && start != 0 && Splits(points, Since(start), index)
    ensures Estimate(Uses(points), start) ==
            if SpanOf(points, index, Gaps) > 0 then None
            else Some((SpanOf(points, index, Spent),
                     if index == 0 && points[0].use.at > start then points[0].use.at else start))
  {
    TotalsGiveSum(points, start, index, Spent);
    TotalsGiveSum(points, start, index, Gaps);
    GapsAreUnpriced(Uses(points), start);
    BeginsAt(points, start, index);
  }

  lemma TotalsSet(points: seq<Point>, k: nat, credits: int, unpriced: int)
    requires k < |points| && Running(points, Spent, k) && Running(points, Gaps, k)
    requires k > 0 ==> credits == points[k - 1].totalCredits + Of(Spent, points[k].use)
    requires k > 0 ==> unpriced == points[k - 1].totalUnpriced + Of(Gaps, points[k].use)
    ensures var next := points[k := points[k].(totalCredits := credits, totalUnpriced := unpriced)];
            Running(next, Spent, k + 1) && Running(next, Gaps, k + 1)
  {
  }

  class AccountCredits {
    var points: seq<Point>
    ghost var added: seq<Use> // every use ever added
    ghost var dropped: seq<Use>

    ghost predicate Valid()
      reads this
    {
      Indexed(points) && Retains(points, dropped, added)
    }

    constructor ()
      ensures Valid() && added == []
    {
      points, added, dropped := [], [], [];
    }

    /** Totals are right up to `index`; the rest is recomputed. */
    method RefreshTotals(index: nat)
      requires index <= |points| && Running(points, Spent, index) && Running(points, Gaps, index)
      modifies this`points
      ensures |points| == old(|points|) && forall i {:trigger points[i]} :: 0 <= i < |points| ==>
        points[i].use == old(points)[i].use
      ensures Running(points, Spent, |points|) && Running(points, Gaps, |points|)
    {
      var credits, unpriced := 0, 0;
      if index > 0 {
        credits, unpriced := points[index - 1].totalCredits, points[index - 1].totalUnpriced;
      }
      for current := index to |points|
        invariant |points| == old(|points|) && forall i {:trigger points[i]} :: 0 <= i < |points| ==>
          points[i].use == old(points)[i].use
        invariant Running(points, Spent, current) && Running(points, Gaps, current)
        invariant current > 0 ==>
          credits == points[current - 1].totalCredits && unpriced == points[current - 1].totalUnpriced
      {
        credits := credits + Of(Spent, points[current].use);
        unpriced := unpriced + Of(Gaps, points[current].use);
        TotalsSet(points, current, credits, unpriced);
        points := points[current := points[current].(totalCredits := credits, totalUnpriced := unpriced)];
      }
    }

    method InsertPoint(point: Point) returns (index: nat)
      requires Indexed(points)
      modifies this`points
      ensures index <= |old(points)| && points == old(points)[..index] + [point] + old(points)[index..]
      ensures Sorted(points) && Running(points, Spent, index) && Running(points, Gaps, index)
    {
      index := Search(points, After(point.use.at));
      InsertKeepsSorted(points, point, index);
      points := points[..index] + [point] + points[index..];
    }

    method Insert(use: Use)
      requires Valid()
      modifies this`points, this`added
      ensures Valid() && added == old(added) + [use] && points != []
    {
      ghost var before := points;
      var index := InsertPoint(Point(use, 0, 0));
      ghost var inserted := points;
      RefreshTotals(index);
      SortedByUses(inserted, points);
      AddRetains(before, dropped, added, index, Point(use, 0, 0), points);
      added := added + [use];
    }

    /** A use may be older than uses already there. */
    method AddRoutedCredits(at: int, nano: int, known: bool)
      requires Valid()
      modifies this
      ensures Valid() && added == old(added) + [Use(at, nano, known)]
    {
      Insert(Use(at, nano, known));
      PruneRoutedCredits(points[|points| - 1].use.at - HISTORY);
    }

    method DropOld(index: nat)
      requires Valid() && points != [] && 1 <= index <= |points|
      requires Splits(points, Since(points[|points| - 1].use.at - HISTORY), index)
      modifies this`points, this`dropped
      ensures Valid() && points == old(points)[index - 1..] && index < |old(points)|
      ensures old(points)[index - 1].use.at < old(points)[|old(points)| - 1].use.at - HISTORY
    {
      PruneRetains(points, dropped, added, index);
      SuffixIndexed(points, index - 1);
      dropped := dropped + Uses(points[..index - 1]);
      points := points[index - 1..];
    }

    /** Old points go in bulk: about a thousand at a time and half of them, one old point staying. */
    method PruneRoutedCredits(cutoff: int)
      requires Valid() && points != [] && cutoff == points[|points| - 1].use.at - HISTORY
      modifies this`points, this`dropped
      ensures Valid() && points != [] && points[|points| - 1] == old(points[|points| - 1])
      ensures forall index: nat :: Splits(old(points), Since(cutoff), index) ==>
        points == if index >= PRUNE_BATCH && index * 2 >= |old(points)| then old(points)[index - 1..] else old(points)
      ensures points == old(points) || (|old(points)| - |points| >= PRUNE_BATCH - 1 && points[0].use.at < cutoff)
    {
      var index := Search(points, Since(cutoff));
      forall other: nat | Splits(points, Since(cutoff), other) ensures other == index {
        SplitsOnce(points, Since(cutoff), other, index);
      }
      if index >= PRUNE_BATCH && index * 2 >= |points| {
        DropOld(index);
      }
    }

    method Difference(start: int, index: nat) returns (estimate: Option<(int, int)>)
      requires Indexed(points) && points != [] && start != 0 && Splits(points, Since(start), index)
      ensures estimate == Estimate(Uses(points), start)
    {
      TotalsGiveEstimate(points, start, index);
      var last := points[|points| - 1];
      var credits, unpriced;
      if index > 0 {
        credits := last.totalCredits - points[index - 1].totalCredits;
        unpriced := last.totalUnpriced - points[index - 1].totalUnpriced;
      } else {
        credits := last.totalCredits - points[0].totalCredits + Of(Spent, points[0].use);
        unpriced := last.totalUnpriced - points[0].totalUnpriced + Of(Gaps, points[0].use);
      }
      if unpriced > 0 {
        return None;
      }
      var since := start;
      if index == 0 && points[0].use.at > start {
        since := points[0].use.at;
      }
      estimate := Some((credits, since));
    }

    method RoutedCreditsSince(start: int) returns (estimate: Option<(int, int)>)
      requires Valid()
      ensures estimate == Estimate(Uses(points), start)
      ensures points != [] && start >= points[|points| - 1].use.at - HISTORY ==> estimate == Estimate(added, start)
    {
      if points != [] && start >= points[|points| - 1].use.at - HISTORY {
        KeptAnswersForAll(points, dropped, added, start);
      }
      if points == [] || start == 0 {
        return None;
      }
      var index := Search(points, Since(start));
      estimate := Difference(start, index);
    }
  }
}
