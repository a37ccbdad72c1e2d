/** Routing a request over the pool: owners first, then a fresh account by priority, pressure and
    age, and credits last. */
module Selection {
  import opened Wrappers
  import opened Candidates

  // ---------- a fresh account

  ghost predicate NoneBefore(candidates: seq<Candidate>, now: int, eligible: Candidate -> bool, c: Candidate) {
    forall d :: d in candidates && eligible(d) ==> !Before(RankOf(d, now), RankOf(c, now))
  }

  /** At most one percent more pressure than any equally ranked eligible candidate. */
  ghost predicate Tolerated(candidates: seq<Candidate>, now: int, eligible: Candidate -> bool, c: Candidate) {
    forall d :: d in candidates && eligible(d) && RankOf(d, now) == RankOf(c, now) ==> c.pressure <= d.pressure + 1.0
  }

  ghost predicate InCohort(candidates: seq<Candidate>, now: int, eligible: Candidate -> bool, c: Candidate) {
    c in candidates && eligible(c) && NoneBefore(candidates, now, eligible, c)
      && Tolerated(candidates, now, eligible, c)
  }

  /** The stalest of the best ranked candidates within the tolerance; it depends on which candidates
      there are, not on their order. */
  ghost predicate IsChoice(candidates: seq<Candidate>, now: int, eligible: Candidate -> bool, c: Candidate) {
    InCohort(candidates, now, eligible, c) && forall d :: InCohort(candidates, now, eligible, d) ==> !Staler(d, c)
  }

  predicate DistinctIds(candidates: seq<Candidate>) {
    forall i, j {:trigger candidates[i], candidates[j]} :: 0 <= i < j < |candidates| ==>
         candidates[i].id != candidates[j].id
  }

  /** The same pool in another order makes the same choice. */
  lemma ChoiceIgnoresOrder(a: seq<Candidate>, b: seq<Candidate>, now: int, eligible: Candidate -> bool, c: Candidate,
      d: Candidate)
    requires multiset(a) == multiset(b) && DistinctIds(a)
    requires IsChoice(a, now, eligible, c) && IsChoice(b, now, eligible, d)
    ensures c == d
  {
    assert forall x :: x in a <==> x in multiset(a);
    assert forall x :: x in b <==> x in multiset(b);
    assert InCohort(a, now, eligible, d) && InCohort(b, now, eligible, c);
    PrecedesTotal(c.id, d.id);
    assert c.id == d.id;
  }

  predicate Lighter(c: Candidate, other: Candidate, now: int) {
    ComparePriority(c, other, now) < 0 || (ComparePriority(c, other, now) == 0 && c.pressure < other.pressure)
  }

  method FindLeast(candidates: seq<Candidate>, now: int, eligible: Candidate -> bool) returns (least: Option<nat>)
    ensures least.None? <==> forall c :: c in candidates ==> !eligible(c)
    ensures least.Some? ==> least.value < |candidates| && eligible(candidates[least.value])
    ensures least.Some? ==> forall d :: d in candidates && eligible(d) ==> !Lighter(d, candidates[least.value], now)
  {
    least := None;
    for i := 0 to |candidates|
      invariant least.None? ==> forall j :: 0 <= j < i ==> !eligible(candidates[j])
      invariant least.Some? ==> least.value < i && eligible(candidates[least.value])
      invariant least.Some? ==>
        forall j :: 0 <= j < i && eligible(candidates[j]) ==> !Lighter(candidates[j], candidates[least.value], now)
    {
      if !eligible(candidates[i]) {
        continue;
      }
      if least.None? || Lighter(candidates[i], candidates[least.value], now) {
        least := Some(i);
      }
    }
  }

  /** With the lightest candidate as anchor, the cohort is what the second pass looks at. */
  lemma AnchoredCohort(candidates: seq<Candidate>, now: int, eligible: Candidate -> bool, least: Candidate,
      c: Candidate)
    requires least in candidates && eligible(least) && forall d :: d in candidates && eligible(d) ==>
      !Lighter(d, least, now)
    requires c in candidates
    ensures InCohort(candidates, now, eligible, c) <==>
            eligible(c) && ComparePriority(c, least, now) == 0 && c.pressure <= least.pressure + 1.0
  {
    assert NoneBefore(candidates, now, eligible, least);
  }

  lemma StalerTransitive(a: Candidate, b: Candidate, c: Candidate)
    requires !Staler(a, b) && !Staler(b, c)
    ensures !Staler(a, c)
  {
    PrecedesTotal(a.id, b.id);
    PrecedesTotal(b.id, c.id);
    if Staler(a, c) && a.lastUsed == c.lastUsed && a.id != b.id && b.id != c.id {
      PrecedesTransitive(c.id, b.id, a.id);
      PrecedesTotal(a.id, c.id);
    }
  }

  lemma StalestTakesOver(seen: seq<Candidate>, best: Candidate, staler: Candidate)
    requires Staler(staler, best)
    ensures !Staler(staler, staler)
    ensures forall c :: c in seen && !Staler(c, best) ==> !Staler(c, staler)
  {
    PrecedesTotal(staler.id, staler.id);
    PrecedesTotal(staler.id, best.id);
    forall c | c in seen && !Staler(c, best) ensures !Staler(c, staler) {
      StalerTransitive(c, best, staler);
    }
  }

  method SelectFreshAccount(candidates: seq<Candidate>, now: int, eligible: Candidate -> bool)
    returns (chosen: Option<nat>)
    ensures chosen.None? <==> forall c :: c in candidates ==> !eligible(c)
    ensures chosen.Some? ==>
      chosen.value < |candidates| && IsChoice(candidates, now, eligible, candidates[chosen.value])
  {
    var found := FindLeast(candidates, now, eligible);
    if found.None? {
      return None;
    }
    var least := candidates[found.value];
    var best: nat := found.value;
    AnchoredCohort(candidates, now, eligible, least, least);
    for i := 0 to |candidates|
      invariant best < |candidates| && InCohort(candidates, now, eligible, candidates[best])
      invariant forall d :: d in candidates[..i] && InCohort(candidates, now, eligible, d) ==>
        !Staler(d, candidates[best])
    {
      assert candidates[..i + 1] == candidates[..i] + [candidates[i]];
      AnchoredCohort(candidates, now, eligible, least, candidates[i]);
      if !eligible(candidates[i]) || ComparePriority(candidates[i], least, now) != 0
        || candidates[i].pressure > least.pressure + 1.0 {
        continue;
      }
      if Staler(candidates[i], candidates[best]) {
        StalestTakesOver(candidates[..i], candidates[best], candidates[i]);
        best := i;
      }
    }
    assert candidates[..|candidates|] == candidates;
    chosen := Some(best);
  }
}
