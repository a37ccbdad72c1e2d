/** The routing decision and its retry hint. */
module Routing {
  import opened Wrappers
  import opened Candidates
  import opened Selection

  /** `account` is a position in the pool; `retryAt` is 0 when there is no hint. */
  datatype Decision = Decision(priorOwner: Option<Id>, account: Option<nat>, blocked: Option<Id>, creditFallback: bool,
      retryAt: int)

  // ---------- owners

  /** An owner that would be used, were it not for its cooldown, unknown quota or a skip. */
  predicate Retained(c: Candidate) {
    c.IncludedRouting() && !c.paused && !c.reauth && !c.spent && !c.WeeklyExhausted()
  }

  predicate Waiting(c: Candidate, now: int) { !c.QuotaKnown() || now <= c.cooldown }

  /** The owner decides: it takes the request, or holds it back. */
  function Deciding(skip: set<Id>, now: int): Candidate -> bool {
    (c: Candidate) => Retained(c) && (Waiting(c, now) || c.id !in skip)
  }

  function Included(skip: set<Id>, now: int): Candidate -> bool {
    (c: Candidate) => c.id !in skip && c.Available(now)
  }

  function Credited(skip: set<Id>, now: int): Candidate -> bool {
    (c: Candidate) => c.id !in skip && c.CreditAvailable(now)
  }

  predicate Owned(candidates: seq<Candidate>, owners: seq<Id>, wanted: Candidate -> bool, p: nat, i: nat) {
    p < |owners| && i < |candidates| && candidates[i].id == owners[p] && wanted(candidates[i])
  }

  /** The strongest owner with a wanted candidate. */
  ghost predicate FirstOwned(candidates: seq<Candidate>, owners: seq<Id>, wanted: Candidate -> bool, p: nat, i: nat) {
    && Owned(candidates, owners, wanted, p, i)
    && forall q: nat, j: nat {:trigger Owned(candidates, owners, wanted, q, j)} ::
         Owned(candidates, owners, wanted, q, j) ==> p < q || (p == q && i <= j)
  }

  method FindOwner(candidates: seq<Candidate>, owners: seq<Id>, wanted: Candidate -> bool)
    returns (found: Option<nat>, ghost p: nat)
    ensures found.Some? ==> FirstOwned(candidates, owners, wanted, p, found.value)
    ensures found.None? ==>
      forall q: nat, j: nat {:trigger Owned(candidates, owners, wanted, q, j)} ::
        !Owned(candidates, owners, wanted, q, j)
  {
    for k := 0 to |owners|
      invariant forall q: nat, j: nat {:trigger Owned(candidates, owners, wanted, q, j)} :: q < k ==>
        !Owned(candidates, owners, wanted, q, j)
    {
      for i := 0 to |candidates|
        invariant forall j: nat {:trigger Owned(candidates, owners, wanted, k, j)} :: j < i ==>
          !Owned(candidates, owners, wanted, k, j)
      {
        if candidates[i].id == owners[k] && wanted(candidates[i]) {
          return Some(i), k;
        }
      }
    }
    return None, 0;
  }

  // ---------- the retry hint

  predicate Allowed(allowed: Option<set<Id>>, id: Id) { allowed.None? || id in allowed.value }

  /** A candidate that only a cooldown keeps from the request. */
  predicate Recovers(c: Candidate, blocked: Option<Id>, allowed: Option<set<Id>>, now: int) {
    (if blocked.Some? then c.id == blocked.value else Allowed(allowed, c.id)) && c.cooldown > now && c.Usable()
  }

  /** The earliest end of a cooldown among those candidates, or 0 without any. */
  ghost predicate IsEarliest(candidates: seq<Candidate>, blocked: Option<Id>, allowed: Option<set<Id>>, now: int,
      earliest: int) {
    && (earliest == 0 ==> forall c :: c in candidates ==> !Recovers(c, blocked, allowed, now))
    && (earliest != 0 ==> exists c :: c in candidates && Recovers(c, blocked, allowed, now) && c.cooldown == earliest)
    && (forall c :: c in candidates && Recovers(c, blocked, allowed, now) ==> earliest <= c.cooldown)
  }

  ghost predicate IsRecovery(candidates: seq<Candidate>, account: Option<nat>, blocked: Option<Id>,
      allowed: Option<set<Id>>, now: int, retryAt: int) {
    if account.Some? then retryAt == 0 else IsEarliest(candidates, blocked, allowed, now, retryAt)
  }

  lemma EarlierOf(seen: seq<Candidate>, c: Candidate, blocked: Option<Id>, allowed: Option<set<Id>>, now: int,
      earliest: int)
    requires IsEarliest(seen, blocked, allowed, now, earliest) && now > 0
    ensures var next := if Recovers(c, blocked, allowed, now) && (earliest == 0 || c.cooldown < earliest) then
              c.cooldown else earliest;
            IsEarliest(seen + [c], blocked, allowed, now, next)
  {
    if Recovers(c, blocked, allowed, now) && (earliest == 0 || c.cooldown < earliest) {
      assert c in seen + [c];
    } else if earliest != 0 {
      var least :| least in seen && Recovers(least, blocked, allowed, now) && least.cooldown == earliest;
      assert least in seen + [c];
    }
  }

  method CooldownRecovery(candidates: seq<Candidate>, d: Decision, allowed: Option<set<Id>>, now: int)
    returns (earliest: int)
    requires now > 0
    ensures IsRecovery(candidates, d.account, d.blocked, allowed, now, earliest)
  {
    earliest := 0;
    if d.account.Some? {
      return;
    }
    for i := 0 to |candidates|
      invariant IsEarliest(candidates[..i], d.blocked, allowed, now, earliest)
    {
      assert candidates[..i + 1] == candidates[..i] + [candidates[i]];
      EarlierOf(candidates[..i], candidates[i], d.blocked, allowed, now, earliest);
      var candidate := candidates[i];
      if d.blocked.Some? {
        if candidate.id != d.blocked.value {
          continue;
        }
      } else if !Allowed(allowed, candidate.id) {
        continue;
      }
      var until := candidate.cooldown;
      if until <= now {
        continue;
      }
      candidate := candidate.(cooldown := 0);
      if !candidate.Available(now) && !candidate.CreditAvailable(now) {
        continue;
      }
      if earliest == 0 || until < earliest {
        earliest := until;
      }
    }
    assert candidates[..|candidates|] == candidates;
  }

  // ---------- the decision

  /** What the decision must be: the strongest deciding owner's, then the choice among included
      quota, then the strongest owner with credits, then the choice among credits. */
  ghost predicate Routed(candidates: seq<Candidate>, owners: seq<Id>, skip: set<Id>, now: int, d: Decision) {
    if exists p: nat, i: nat :: FirstOwned(candidates, owners, Deciding(skip, now), p, i) then
      exists p: nat, i: nat :: FirstOwned(candidates, owners, Deciding(skip, now), p, i)
        && !d.creditFallback
        && (if Waiting(candidates[i], now) then d.account == None && d.blocked == Some(owners[p])
            else d.account == Some(i) && d.blocked == None)
    else
      && d.blocked == None
      && if exists c :: c in candidates && Included(skip, now)(c) then
           d.account.Some? && d.account.value < |candidates| && !d.creditFallback
           && IsChoice(candidates, now, Included(skip, now), candidates[d.account.value])
         else if exists p: nat, i: nat :: FirstOwned(candidates, owners, Credited(skip, now), p, i) then
           d.creditFallback && exists p: nat, i: nat ::
             FirstOwned(candidates, owners, Credited(skip, now), p, i) && d.account == Some(i)
         else if exists c :: c in candidates && Credited(skip, now)(c) then
           d.account.Some? && d.account.value < |candidates| && d.creditFallback
           && IsChoice(candidates, now, Credited(skip, now), candidates[d.account.value])
         else d.account == None && !d.creditFallback
  }

  method Route(candidates: seq<Candidate>, owners: seq<Id>, skip: set<Id>, now: int) returns (d: Decision)
    requires now > 0
    ensures Routed(candidates, owners, skip, now, d)
    ensures d.priorOwner == if owners == [] then None else Some(owners[0])
    ensures d.account.None? ==> IsEarliest(candidates, d.blocked, None, now, d.retryAt)
    ensures d.account.Some? ==> d.retryAt == 0
  {
    d := Decision(if owners == [] then None else Some(owners[0]), None, None, false, 0);
    var owner, p := FindOwner(candidates, owners, Deciding(skip, now));
    if owner.Some? {
      if Waiting(candidates[owner.value], now) {
        d := d.(blocked := Some(candidates[owner.value].id));
        var retryAt := CooldownRecovery(candidates, d, None, now);
        d := d.(retryAt := retryAt);
      } else {
        d := d.(account := owner);
      }
      return;
    }
    assert forall p: nat, i: nat :: !FirstOwned(candidates, owners, Deciding(skip, now), p, i);
    var fresh' := SelectFreshAccount(candidates, now, Included(skip, now));
    if fresh'.Some? {
      return d.(account := fresh');
    }
    var creditor, q := FindOwner(candidates, owners, Credited(skip, now));
    if creditor.Some? {
      return d.(account := creditor, creditFallback := true);
    }
    assert forall p: nat, i: nat :: !FirstOwned(candidates, owners, Credited(skip, now), p, i);
    var last := SelectFreshAccount(candidates, now, Credited(skip, now));
    d := d.(account := last, creditFallback := last.Some?);
    var retryAt := CooldownRecovery(candidates, d, None, now);
    d := d.(retryAt := retryAt);
  }

  function Disallowed(candidates: seq<Candidate>, allowed: Option<set<Id>>): set<Id> {
    set c | c in candidates && !Allowed(allowed, c.id) :: c.id
  }

  method SkipDisallowed(candidates: seq<Candidate>, allowed: Option<set<Id>>, skip: set<Id>)
    returns (routingSkip: set<Id>)
    ensures routingSkip == skip + Disallowed(candidates, allowed)
  {
    routingSkip := skip;
    if allowed.None? {
      return;
    }
    for i := 0 to |candidates|
      invariant routingSkip == skip + Disallowed(candidates[..i], allowed)
    {
      assert candidates[..i + 1] == candidates[..i] + [candidates[i]];
      if candidates[i].id !in allowed.value {
        routingSkip := routingSkip + {candidates[i].id};
      }
    }
    assert candidates[..|candidates|] == candidates;
  }

  /** Routing for a model: disallowed accounts are skipped, and the hint is made for that model. */
  method PickAccount(candidates: seq<Candidate>, owners: seq<Id>, allowed: Option<set<Id>>, skip: set<Id>, now: int)
    returns (d: Decision)
    requires now > 0
    ensures Routed(candidates, owners, skip + Disallowed(candidates, allowed), now, d)
    ensures d.priorOwner == if owners == [] then None else Some(owners[0])
    ensures IsRecovery(candidates, d.account, d.blocked, allowed, now, d.retryAt)
  {
    var routingSkip := SkipDisallowed(candidates, allowed, skip);
    d := Route(candidates, owners, routingSkip, now);
    var retryAt := CooldownRecovery(candidates, d, allowed, now);
    d := d.(retryAt := retryAt);
  }
}
