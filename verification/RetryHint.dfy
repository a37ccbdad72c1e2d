/** What a routing decision says about the pool, and what its retry hint says about the future. */
module RetryHint {
  import opened Wrappers
  import opened Candidates
  import opened Selection
  import opened Routing

  predicate Eligible(c: Candidate, skip: set<Id>, now: int) {
    c.id !in skip && (c.Available(now) || c.CreditAvailable(now))
  }

  /** The strongest deciding owner is one that must wait. */
  ghost predicate HeldBack(candidates: seq<Candidate>, owners: seq<Id>, skip: set<Id>, now: int) {
    exists p: nat, i: nat :: FirstOwned(candidates, owners, Deciding(skip, now), p, i) && Waiting(candidates[i], now)
  }

  /** Ids are distinct, so an owner names at most one candidate. */
  lemma FirstOwnedUnique(candidates: seq<Candidate>, owners: seq<Id>, wanted: Candidate -> bool, p: nat, i: nat, q: nat,
      j: nat)
    requires FirstOwned(candidates, owners, wanted, p, i) && FirstOwned(candidates, owners, wanted, q, j)
    ensures p == q && i == j
  {
  }

  /** Routing names an account exactly when no owner holds the request back and some unskipped
      account can take it, and then the one it names can. */
  lemma RouteNamesAccount(candidates: seq<Candidate>, owners: seq<Id>, skip: set<Id>, now: int, d: Decision)
    requires Routed(candidates, owners, skip, now, d)
    ensures d.account.Some? <==>
      !HeldBack(candidates, owners, skip, now) && exists c :: c in candidates && Eligible(c, skip, now)
    ensures d.blocked.Some? <==> HeldBack(candidates, owners, skip, now)
    ensures d.account.Some? ==> d.account.value < |candidates| && Eligible(candidates[d.account.value], skip, now)
    ensures d.creditFallback ==> d.account.Some? && candidates[d.account.value].CreditAvailable(now)
    ensures d.creditFallback ==> forall c :: c in candidates ==> !Included(skip, now)(c)
  {
    if exists p: nat, i: nat :: FirstOwned(candidates, owners, Deciding(skip, now), p, i) {
      var p: nat, i: nat :| FirstOwned(candidates, owners, Deciding(skip, now), p, i)
        && !d.creditFallback
        && (if Waiting(candidates[i], now) then d.account == None && d.blocked == Some(owners[p])
            else d.account == Some(i) && d.blocked == None);
      assert candidates[i] in candidates;
      if HeldBack(candidates, owners, skip, now) {
        var q: nat, j: nat :| FirstOwned(candidates, owners, Deciding(skip, now), q, j) && Waiting(candidates[j], now);
        FirstOwnedUnique(candidates, owners, Deciding(skip, now), p, i, q, j);
      }
    } else if d.account.Some? {
      assert candidates[d.account.value] in candidates;
    }
  }

  // ---------- the order of the pool

  lemma {:induction false} OwnedHasFirst(candidates: seq<Candidate>, owners: seq<Id>, wanted: Candidate -> bool, p: nat,
      i: nat)
    returns (q: nat, j: nat)
    requires Owned(candidates, owners, wanted, p, i)
    ensures FirstOwned(candidates, owners, wanted, q, j) && (q < p || (q == p && j <= i))
    decreases p, i
  {
    if FirstOwned(candidates, owners, wanted, p, i) {
      q, j := p, i;
    } else {
      var r: nat, k: nat :| Owned(candidates, owners, wanted, r, k) && !(p < r || (p == r && i <= k));
      q, j := OwnedHasFirst(candidates, owners, wanted, r, k);
    }
  }

  /** Another order of the pool has the same strongest owner. */
  lemma SameFirstOwned(a: seq<Candidate>, b: seq<Candidate>, owners: seq<Id>, wanted: Candidate -> bool, p: nat, i: nat)
    returns (j: nat)
    requires multiset(a) == multiset(b) && DistinctIds(a) && DistinctIds(b) && FirstOwned(a, owners, wanted, p, i)
    ensures FirstOwned(b, owners, wanted, p, j) && b[j] == a[i]
  {
    assert a[i] in multiset(b);
    j :| 0 <= j < |b| && b[j] == a[i];
    assert Owned(b, owners, wanted, p, j);
    forall q: nat, k: nat | Owned(b, owners, wanted, q, k) ensures p < q || (p == q && j <= k) {
      assert b[k] in multiset(a);
      var l: nat :| l < |a| && a[l] == b[k];
      assert Owned(a, owners, wanted, q, l);
    }
  }

  ghost function Named(candidates: seq<Candidate>, d: Decision): Option<Candidate>
    requires d.account.Some? ==> d.account.value < |candidates|
  {
    if d.account.Some? then Some(candidates[d.account.value]) else None
  }

  lemma SameMembers(a: seq<Candidate>, b: seq<Candidate>)
    requires multiset(a) == multiset(b)
    ensures forall c :: c in a <==> c in b
  {
    assert forall c :: c in a <==> c in multiset(a);
    assert forall c :: c in b <==> c in multiset(b);
  }

  lemma SameOwnerDecision(a: seq<Candidate>, b: seq<Candidate>, owners: seq<Id>, wanted: Candidate -> bool)
    requires multiset(a) == multiset(b) && DistinctIds(a) && DistinctIds(b)
    ensures (exists p: nat, i: nat :: FirstOwned(a, owners, wanted, p, i)) ==>
      exists p: nat, i: nat :: FirstOwned(b, owners, wanted, p, i)
    ensures forall p: nat, i: nat, q: nat, j: nat
              {:trigger FirstOwned(a, owners, wanted, p, i), FirstOwned(b, owners, wanted, q, j)} ::
              FirstOwned(a, owners, wanted, p, i) && FirstOwned(b, owners, wanted, q, j) ==> p == q && a[i] == b[j]
  {
    forall p: nat, i: nat | FirstOwned(a, owners, wanted, p, i)
      ensures exists q: nat, j: nat :: FirstOwned(b, owners, wanted, q, j) {
      var j := SameFirstOwned(a, b, owners, wanted, p, i);
    }
    forall p: nat, i: nat, q: nat, j: nat | FirstOwned(a, owners, wanted, p, i) && FirstOwned(b, owners, wanted, q, j)
      ensures p == q && a[i] == b[j]
    {
      var k := SameFirstOwned(a, b, owners, wanted, p, i);
      FirstOwnedUnique(b, owners, wanted, p, k, q, j);
    }
  }

  /** The same accounts listed in another order get the same decision. */
  lemma RouteIgnoresOrder(a: seq<Candidate>, b: seq<Candidate>, owners: seq<Id>, skip: set<Id>, now: int, d: Decision,
      e: Decision)
    requires multiset(a) == multiset(b) && DistinctIds(a) && DistinctIds(b)
    requires Routed(a, owners, skip, now, d) && Routed(b, owners, skip, now, e)
    ensures d.account.Some? ==> d.account.value < |a|
    ensures e.account.Some? ==> e.account.value < |b|
    ensures Named(a, d) == Named(b, e) && d.blocked == e.blocked && d.creditFallback == e.creditFallback
  {
    SameMembers(a, b);
    SameOwnerDecision(a, b, owners, Deciding(skip, now));
    SameOwnerDecision(b, a, owners, Deciding(skip, now));
    SameOwnerDecision(a, b, owners, Credited(skip, now));
    SameOwnerDecision(b, a, owners, Credited(skip, now));
    RouteNamesAccount(a, owners, skip, now, d);
    RouteNamesAccount(b, owners, skip, now, e);
    if d.account.Some? && e.account.Some? {
      var c, f := a[d.account.value], b[e.account.value];
      if IsChoice(a, now, Included(skip, now), c) && IsChoice(b, now, Included(skip, now), f) {
        ChoiceIgnoresOrder(a, b, now, Included(skip, now), c, f);
      } else if IsChoice(a, now, Credited(skip, now), c) && IsChoice(b, now, Credited(skip, now), f) {
        ChoiceIgnoresOrder(a, b, now, Credited(skip, now), c, f);
      }
    }
  }

  // ---------- the hint

  lemma WaitingEarlier(c: Candidate, now: int, later: int)
    requires Waiting(c, later) && now <= later
    ensures Waiting(c, now)
  {
  }

  /** An owner that holds a later request back would have decided the earlier one. */
  lemma HeldBackEarlier(candidates: seq<Candidate>, owners: seq<Id>, skip: set<Id>, now: int, later: int,
      laterSkip: set<Id>)
    returns (p: nat, i: nat)
    requires now <= later && HeldBack(candidates, owners, laterSkip, later)
    ensures FirstOwned(candidates, owners, Deciding(skip, now), p, i)
    ensures exists q: nat, j: nat ::
            p <= q && FirstOwned(candidates, owners, Deciding(laterSkip, later), q, j) && Waiting(candidates[j], later)
  {
    var q: nat, j: nat :| FirstOwned(candidates, owners, Deciding(laterSkip, later), q, j)
      && Waiting(candidates[j], later);
    assert Owned(candidates, owners, Deciding(skip, now), q, j);
    p, i := OwnedHasFirst(candidates, owners, Deciding(skip, now), q, j);
  }

  lemma DisallowedIds(candidates: seq<Candidate>, allowed: Option<set<Id>>, c: Candidate)
    requires c in candidates
    ensures c.id in Disallowed(candidates, allowed) <==> !Allowed(allowed, c.id)
  {
  }

  /** A candidate whose cooldown is over by `later`, and that nothing else keeps from the request. */
  predicate Resumes(c: Candidate, blocked: Option<Id>, allowed: Option<set<Id>>, now: int, later: int) {
    && (if blocked.Some? then c.id == blocked.value else Allowed(allowed, c.id))
    && c.Usable() && now <= c.cooldown < later
  }

  /** A blocked owner whose cooldown is over takes the request. */
  lemma BlockedOwnerRecovers(candidates: seq<Candidate>, owners: seq<Id>, allowed: Option<set<Id>>, skip: set<Id>,
      now: int, d: Decision, later: int, c: Candidate, p: nat, i: nat)
    requires DistinctIds(candidates) && 0 < now && d.account.None?
    requires Routed(candidates, owners, skip, now, d)
    requires c in candidates && Resumes(c, d.blocked, allowed, now, later) && Allowed(allowed, c.id)
    requires FirstOwned(candidates, owners, Deciding(skip, now), p, i)
    ensures Owned(candidates, owners, Deciding(Disallowed(candidates, allowed), later), p, i)
            && !Waiting(candidates[i], later)
  {
    var q: nat, j: nat :| FirstOwned(candidates, owners, Deciding(skip, now), q, j)
      && (if Waiting(candidates[j], now) then d.account == None && d.blocked == Some(owners[q])
          else d.account == Some(j) && d.blocked == None);
    FirstOwnedUnique(candidates, owners, Deciding(skip, now), p, i, q, j);
    assert c.id == candidates[i].id && c == candidates[i];
    DisallowedIds(candidates, allowed, c);
  }

  /** Once a candidate resumes, no owner holds the request back, and routing names an account. */
  lemma ResumedIsRouted(candidates: seq<Candidate>, owners: seq<Id>, allowed: Option<set<Id>>, skip: set<Id>, now: int,
      d: Decision, later: int, c: Candidate, e: Decision)
    requires DistinctIds(candidates) && 0 < now && d.account.None?
    requires Routed(candidates, owners, skip, now, d)
    requires c in candidates && Resumes(c, d.blocked, allowed, now, later) && Allowed(allowed, c.id)
    requires Routed(candidates, owners, Disallowed(candidates, allowed), later, e)
    ensures e.account.Some?
  {
    var laterSkip := Disallowed(candidates, allowed);
    if HeldBack(candidates, owners, laterSkip, later) {
      var p, i := HeldBackEarlier(candidates, owners, skip, now, later, laterSkip);
      BlockedOwnerRecovers(candidates, owners, allowed, skip, now, d, later, c, p, i);
      assert false;
    }
    DisallowedIds(candidates, allowed, c);
    assert Eligible(c, laterSkip, later);
    RouteNamesAccount(candidates, owners, laterSkip, later, e);
  }

  /** The hint is truthful: once it has passed, routing the next request names an account. */
  lemma RetryHintIsTruthful(candidates: seq<Candidate>, owners: seq<Id>, allowed: Option<set<Id>>, skip: set<Id>,
      now: int, d: Decision, later: int, e: Decision)
    requires DistinctIds(candidates) && 0 < now && d.retryAt != 0 && d.retryAt < later
    requires Routed(candidates, owners, skip, now, d)
    requires IsRecovery(candidates, d.account, d.blocked, allowed, now, d.retryAt)
    requires d.blocked.Some? ==> Allowed(allowed, d.blocked.value)
    requires Routed(candidates, owners, Disallowed(candidates, allowed), later, e)
    ensures e.account.Some?
  {
    var c :| c in candidates && Recovers(c, d.blocked, allowed, now) && c.cooldown == d.retryAt;
    ResumedIsRouted(candidates, owners, allowed, skip, now, d, later, c, e);
  }

  /** A held back request stays held back while its owner does not resume. */
  lemma StillHeldBack(candidates: seq<Candidate>, owners: seq<Id>, allowed: Option<set<Id>>, now: int, d: Decision,
      later: int)
    requires DistinctIds(candidates) && 0 < now <= later && d.blocked.Some?
    requires forall c :: c in candidates ==> !Resumes(c, d.blocked, allowed, now, later)
    requires Routed(candidates, owners, Disallowed(candidates, allowed), now, d)
    ensures HeldBack(candidates, owners, Disallowed(candidates, allowed), later)
  {
    var skip := Disallowed(candidates, allowed);
    RouteNamesAccount(candidates, owners, skip, now, d);
    var p: nat, i: nat :| FirstOwned(candidates, owners, Deciding(skip, now), p, i)
      && (if Waiting(candidates[i], now) then d.account == None && d.blocked == Some(owners[p])
          else d.account == Some(i) && d.blocked == None);
    var owner := candidates[i];
    assert owner in candidates;
    assert Waiting(owner, later) by {
      if owner.QuotaKnown() {
        assert owner.cooldown >= now && owner.Usable();
        assert !Resumes(owner, d.blocked, allowed, now, later);
      }
    }
    forall q: nat, j: nat | Owned(candidates, owners, Deciding(skip, later), q, j) ensures p < q || (p == q && i <= j) {
      if Waiting(candidates[j], later) {
        WaitingEarlier(candidates[j], now, later);
      }
      assert Owned(candidates, owners, Deciding(skip, now), q, j);
    }
    assert FirstOwned(candidates, owners, Deciding(skip, later), p, i);
  }

  /** When the first request skipped disallowed accounts only, a later one is routed exactly when some
      candidate has resumed by then. */
  lemma RoutedOnceResumed(candidates: seq<Candidate>, owners: seq<Id>, allowed: Option<set<Id>>, now: int, d: Decision,
      later: int, e: Decision)
    requires DistinctIds(candidates) && 0 < now <= later && d.account.None?
    requires Routed(candidates, owners, Disallowed(candidates, allowed), now, d)
    requires d.blocked.Some? ==> Allowed(allowed, d.blocked.value)
    requires Routed(candidates, owners, Disallowed(candidates, allowed), later, e)
    ensures e.account.Some? <==> exists c :: c in candidates && Resumes(c, d.blocked, allowed, now, later)
  {
    var skip := Disallowed(candidates, allowed);
    RouteNamesAccount(candidates, owners, skip, later, e);
    RouteNamesAccount(candidates, owners, skip, now, d);
    if c :| c in candidates && Resumes(c, d.blocked, allowed, now, later) {
      ResumedIsRouted(candidates, owners, allowed, skip, now, d, later, c, e);
    } else if d.blocked.Some? {
      StillHeldBack(candidates, owners, allowed, now, d, later);
    } else {
      forall c | c in candidates ensures !Eligible(c, skip, later) {
        DisallowedIds(candidates, allowed, c);
        assert !Eligible(c, skip, now);
        assert !Resumes(c, d.blocked, allowed, now, later);
      }
    }
  }

  /** A cooldown that ends at this very instant: the account is not routed to yet, and gets no hint. */
  predicate EndsNow(candidates: seq<Candidate>, blocked: Option<Id>, allowed: Option<set<Id>>, now: int) {
    exists c :: c in candidates && c.cooldown == now && Resumes(c, blocked, allowed, now, now + 1)
  }

  /** The hint is exact, so that a later request is routed exactly after it and never without one,
      unless a cooldown ends now and the request comes no later than the hint says. */
  lemma RetryHintIsExact(candidates: seq<Candidate>, owners: seq<Id>, allowed: Option<set<Id>>, now: int, d: Decision,
      later: int, e: Decision)
    requires DistinctIds(candidates) && 0 < now <= later && d.account.None?
    requires Routed(candidates, owners, Disallowed(candidates, allowed), now, d)
    requires IsRecovery(candidates, d.account, d.blocked, allowed, now, d.retryAt)
    requires d.blocked.Some? ==> Allowed(allowed, d.blocked.value)
    requires Routed(candidates, owners, Disallowed(candidates, allowed), later, e)
    ensures var passed := d.retryAt != 0 && d.retryAt < later;
            var ends := now < later && EndsNow(candidates, d.blocked, allowed, now);
            && (e.account.Some? <==> passed || ends)
            && ((e.account.Some? <==> passed) <==> passed || !ends)
  {
    RoutedOnceResumed(candidates, owners, allowed, now, d, later, e);
    if c :| c in candidates && Resumes(c, d.blocked, allowed, now, later) {
      assert c.cooldown > now ==> Recovers(c, d.blocked, allowed, now);
    }
    if d.retryAt != 0 && d.retryAt < later {
      var c :| c in candidates && Recovers(c, d.blocked, allowed, now) && c.cooldown == d.retryAt;
      assert Resumes(c, d.blocked, allowed, now, later);
    }
    if now < later && EndsNow(candidates, d.blocked, allowed, now) {
      var c :| c in candidates && c.cooldown == now && Resumes(c, d.blocked, allowed, now, now + 1);
      assert Resumes(c, d.blocked, allowed, now, later);
    }
  }

  // ---------- a blocked owner that the model excludes

  const WEEKLY := Window(10.0, WEEK_MINUTES, 500, 1)

  function Plain(id: Id, cooldown: int): Candidate {
    Candidate(id, OtherPlan, false, false, cooldown, WEEKLY, WEEKLY, [], false, None, false, false, 10.0, 0, NormalMode,
        false)
  }

  lemma PlainDecides(id: Id, cooldown: int, skip: set<Id>, now: int)
    ensures Deciding(skip, now)(Plain(id, cooldown)) <==> now <= cooldown || id !in skip
    ensures Waiting(Plain(id, cooldown), now) <==> now <= cooldown
    ensures Plain(id, cooldown).Usable()
  {
  }

  const THREE := [Plain("x", 10), Plain("y", 20), Plain("z", 0)]

  lemma StrongestWaits(now: int, skip: set<Id>, p: nat)
    requires p < 2 && (if p == 0 then now <= 10 else 10 < now <= 20 && "x" in skip)
    ensures HeldBack(THREE, ["x", "y"], skip, now) && FirstOwned(THREE, ["x", "y"], Deciding(skip, now), p, p)
  {
    PlainDecides("x", 10, skip, now);
    PlainDecides("y", 20, skip, now);
    assert FirstOwned(THREE, ["x", "y"], Deciding(skip, now), p, p);
    assert Waiting(THREE[p], now);
  }

  lemma StrongestBlocks(now: int, skip: set<Id>, p: nat, d: Decision)
    requires p < 2 && (if p == 0 then now <= 10 else 10 < now <= 20 && "x" in skip)
    requires Routed(THREE, ["x", "y"], skip, now, d)
    ensures d.account.None? && d.blocked == Some(["x", "y"][p])
  {
    StrongestWaits(now, skip, p);
    RouteNamesAccount(THREE, ["x", "y"], skip, now, d);
    var q: nat, i: nat :| FirstOwned(THREE, ["x", "y"], Deciding(skip, now), q, i)
      && (if Waiting(THREE[i], now) then d.account == None && d.blocked == Some(["x", "y"][q])
          else d.account == Some(i) && d.blocked == None);
    FirstOwnedUnique(THREE, ["x", "y"], Deciding(skip, now), p, p, q, i);
  }

  lemma ThirdHint(d: Decision)
    requires d.account.None? && d.blocked == Some("x")
    requires IsRecovery(THREE, d.account, d.blocked, Some({"y", "z"}), 5, d.retryAt)
    ensures d.retryAt == 10
  {
    PlainDecides("x", 10, {"x"}, 5);
    assert THREE[0] in THREE && Recovers(THREE[0], Some("x"), Some({"y", "z"}), 5);
  }

  /** The hint is for the owner that blocked the request, even one the model excludes; the next
      request skips that owner and can be held back by a weaker one, although a third account is free. */
  lemma ExcludedOwnerMisleads(d: Decision, e: Decision)
    requires Routed(THREE, ["x", "y"], {"x"}, 5, d)
    requires IsRecovery(THREE, d.account, d.blocked, Some({"y", "z"}), 5, d.retryAt)
    requires Routed(THREE, ["x", "y"], {"x"}, 15, e)
    ensures d.blocked == Some("x") && d.retryAt == 10 && e.account.None? && e.blocked == Some("y")
    ensures Disallowed(THREE, Some({"y", "z"})) == {"x"} && Eligible(THREE[2], {"x"}, 15)
  {
    StrongestBlocks(5, {"x"}, 0, d);
    StrongestBlocks(15, {"x"}, 1, e);
    ThirdHint(d);
    ThirdIsFree();
  }

  lemma ThirdIsFree()
    ensures Disallowed(THREE, Some({"y", "z"})) == {"x"} && Eligible(THREE[2], {"x"}, 15)
  {
    forall id ensures id in Disallowed(THREE, Some({"y", "z"})) <==> id in {"x"} {
      if id == "x" {
        assert THREE[0] in THREE && THREE[0].id == "x";
      }
    }
  }
}
