/** The claim registry as the server keeps it: claims are shared objects, indexed by id and by
    key, and every section updates them in place. Each method is one step of `ClaimRuns`. */
module RouteRegistry {
  import opened Wrappers
  import opened RouteClaims
  import opened ClaimRuns

  class RouteClaim {
    const id: nat
    var account: Account
    var priorOwner: Account
    var reason: Reason
    var keys: seq<Key>
    var refs: int
    var accepted: bool
    var committed: bool

    ghost function Value(): Claim
      reads this
    {
      Claim(account, priorOwner, reason, keys, refs, accepted, committed)
    }

    constructor (id: nat, account: Account, priorOwner: Account, reason: Reason)
      ensures this.id == id && Value() == Claim(account, priorOwner, reason, [], 1, false, false)
    {
      this.id, this.account, this.priorOwner, this.reason := id, account, priorOwner, reason;
      keys, refs, accepted, committed := [], 1, false, false;
    }
  }

  /** `model` is the registry as a value; `Valid` ties every field and every claim object to it. */
  class RouteClaimRegistry {
    var next: nat
    var byKey: map<Key, RouteClaim>
    var byID: map<nat, RouteClaim>
    var barriers: map<Key, Account>
    ghost var model: Registry
    ghost var pool: set<RouteClaim> // every claim object the registry may touch
    ghost var issued: seq<RouteClaimHandle> // every handle ever issued, and what each looks like
    ghost var handles: seq<Handle>

    ghost predicate Tied()
      reads this, pool
    {
      && next == model.next && barriers == model.barriers
      && (forall id {:trigger id in byID} :: id in byID <==> id in model.claims)
      && (forall id {:trigger byID[id]} :: id in byID ==>
             byID[id] in pool && byID[id].id == id && byID[id].Value() == model.claims[id])
      && (forall k {:trigger k in byKey} :: k in byKey <==> k in model.byKey)
      && (forall k {:trigger byKey[k]} :: k in byKey ==>
             byKey[k].id == model.byKey[k] && byKey[k].id in byID && byID[byKey[k].id] == byKey[k])
    }

    ghost predicate Sound()
      reads this, pool
    {
      Tied() && Partition(model)
    }

    ghost predicate Valid()
      reads this, pool, issued
    {
      && Sound() && |issued| == |handles|
      && (forall i {:trigger issued[i]} :: 0 <= i < |issued| ==>
            issued[i].registry == this && issued[i].index == i && handles[i] == issued[i].Value())
    }

    ghost function AsTable(): Table
      reads this
    {
      Table(model, handles)
    }

    ghost predicate Has(claim: RouteClaim)
      reads this
    {
      claim.id in byID && byID[claim.id] == claim
    }

    constructor ()
      ensures Valid() && AsTable() == START
    {
      next, byKey, byID, barriers := 0, map[], map[], map[];
      model, pool, issued, handles := EMPTY, {}, [], [];
    }

    method ClaimsForKeys(keys: seq<Key>) returns (claims: seq<RouteClaim>)
      requires Sound()
      ensures |claims| == |ClaimsFor(model, keys)|
      ensures forall i :: 0 <= i < |claims| ==> Has(claims[i]) && claims[i].id == ClaimsFor(model, keys)[i]
    {
      claims := [];
      for i := 0 to |keys|
        invariant |claims| == |ClaimsFor(model, keys[..i])|
        invariant forall j :: 0 <= j < |claims| ==> Has(claims[j]) && claims[j].id == ClaimsFor(model, keys[..i])[j]
      {
        assert keys[..i + 1][..i] == keys[..i];
        ghost var ids := ClaimsFor(model, keys[..i]);
        if keys[i] in byKey {
          var claim := byKey[keys[i]];
          assert Has(claim) && claim.id == model.byKey[keys[i]];
          if claim.id in ids {
            ghost var j :| 0 <= j < |ids| && ids[j] == claim.id;
            assert claims[j] == claim;
          }
          if claim !in claims {
            claims := claims + [claim];
          }
        }
      }
      assert keys[..|keys|] == keys;
    }

    method TakeKey(claim: RouteClaim, key: Key)
      requires Sound() && Has(claim) && !claim.committed && key !in byKey
      modifies this`byKey, this`model, claim`keys
      ensures Sound() && model == Take(old(model), claim.id, key)
    {
      model := Take(model, claim.id, key);
      byKey := byKey[key := claim];
      claim.keys := claim.keys + [key];
    }

    method SetRefs(claim: RouteClaim, refs: int)
      requires Sound() && Has(claim)
      modifies this`model, claim`refs
      ensures Sound() && model == Update(old(model), claim.id, old(claim.Value()).(refs := refs))
      ensures claim.refs == refs
    {
      model := Update(model, claim.id, claim.Value().(refs := refs));
      claim.refs := refs;
    }

    method AttachKeys(claim: RouteClaim, keys: seq<Key>)
      requires Sound() && Has(claim) && !claim.committed
      modifies this`byKey, this`model, claim`keys
      ensures Sound() && model == Attach(old(model), claim.id, keys)
    {
      for i := 0 to |keys|
        invariant Sound() && model == Attach(old(model), claim.id, keys[..i])
      {
        assert keys[..i + 1][..i] == keys[..i];
        if keys[i] in byKey {
          continue;
        }
        TakeKey(claim, keys[i]);
      }
      assert keys[..|keys|] == keys;
    }

    /** Takes the keys a claim lists out of byKey where they still lead to it. */
    method DetachKeys(claim: RouteClaim)
      modifies this`byKey
      ensures byKey == map k | k in old(byKey) && !(k in claim.keys && old(byKey)[k] == claim) :: old(byKey)[k]
    {
      for i := 0 to |claim.keys|
        invariant byKey == map k | k in old(byKey) && !(k in claim.keys[..i] && old(byKey)[k] == claim) :: old(byKey)[k]
      {
        assert claim.keys[..i + 1] == claim.keys[..i] + [claim.keys[i]];
        if claim.keys[i] in byKey && byKey[claim.keys[i]] == claim {
          byKey := byKey - {claim.keys[i]};
        }
      }
      assert claim.keys[..|claim.keys|] == claim.keys;
    }

    method Remove(claim: RouteClaim)
      requires Sound() && Has(claim)
      modifies this`byID, this`byKey, this`model
      ensures Sound() && model == Without(old(model), claim.id) && byID == old(byID) - {claim.id}
    {
      model := Without(model, claim.id);
      byID := byID - {claim.id};
      DetachKeys(claim);
    }

    method ReleaseClaim(id: nat, account: Account)
      requires Sound()
      modifies this`byKey, this`byID, this`model, pool
      ensures Sound() && model == Release(old(model), id, account)
    {
      if id !in byID || byID[id].account != account {
        return;
      }
      var claim := byID[id];
      SetRefs(claim, claim.refs - 1);
      if claim.refs == 0 {
        Remove(claim);
      }
    }

    method CommitClaim(id: nat, account: Account, acceptedKeys: seq<Key>)
      requires Sound()
      modifies this`byKey, this`byID, this`barriers, this`model, pool
      ensures Sound() && model == Commit(old(model), id, account, acceptedKeys)
    {
      if id !in byID || byID[id].account != account {
        return;
      }
      DropBarriers(acceptedKeys);
      RetireClaim(byID[id]);
      ReleaseClaim(id, account);
    }

    method DropBarriers(keys: seq<Key>)
      requires Sound()
      modifies this`barriers, this`model
      ensures Sound() && model == RouteClaims.ClearBarriers(old(model), keys)
    {
      var kept := barriers;
      for i := 0 to |keys|
        invariant kept == map k | k in barriers && k !in keys[..i] :: barriers[k]
      {
        assert keys[..i + 1] == keys[..i] + [keys[i]];
        kept := kept - {keys[i]};
      }
      assert keys[..|keys|] == keys;
      model := RouteClaims.ClearBarriers(model, keys);
      barriers := kept;
    }

    method RetireClaim(claim: RouteClaim)
      requires Sound() && Has(claim)
      modifies this`byKey, this`model, claim`committed
      ensures Sound() && model == Retire(old(model), claim.id) && Has(claim) && claim.refs == old(claim.refs)
    {
      if claim.committed {
        assert Retire(model, claim.id) == model;
        return;
      }
      model := Retire(model, claim.id);
      claim.committed := true;
      DetachKeys(claim);
    }

    method FenceKeys(keys: seq<Key>, account: Account)
      modifies this`barriers
      ensures barriers == Fence(old(barriers), KeySet(keys), account)
    {
      for i := 0 to |keys|
        invariant barriers == Fence(old(barriers), KeySet(keys[..i]), account)
      {
        assert keys[..i + 1] == keys[..i] + [keys[i]];
        barriers := barriers[keys[i] := account];
      }
      assert keys[..|keys|] == keys;
    }

    /** One claim gone, with a barrier on every key it lists. */
    method EvictClaim(claim: RouteClaim, account: Account)
      requires Sound() && Has(claim)
      modifies this`byKey, this`byID, this`barriers, this`model
      ensures Sound() && model == Evict(old(model), {claim.id}, account) && byID == old(byID) - {claim.id}
    {
      assert KeysOf(model, {claim.id}) == KeySet(claim.keys);
      model := Evict(model, {claim.id}, account);
      FenceKeys(claim.keys, account);
      byID := byID - {claim.id};
      DetachKeys(claim);
    }

    method PreserveClaim(id: nat, account: Account) returns (keys: seq<Key>)
      requires Sound()
      modifies this`byKey, this`byID, this`barriers, this`model
      ensures Sound() && (model, keys) == Preserve(old(model), id, account)
    {
      if id !in byID || byID[id].account != account {
        return [];
      }
      keys := byID[id].keys;
      EvictClaim(byID[id], account);
    }

    /** One claim of an invalidation: `gone` are the claims evicted from `before` so far. */
    method EvictNext(claim: RouteClaim, account: Account, seen: seq<Key>, ghost before: Registry, ghost gone: set<nat>)
      returns (keys: seq<Key>)
      requires Sound() && Has(claim) && Partition(before) && claim.id in before.claims && claim.id !in gone
      requires model == Evict(before, gone, account) && KeySet(seen) == KeysOf(before, gone) && |seen| == |KeySet(seen)|
      modifies this`byKey, this`byID, this`barriers, this`model
      ensures Sound() && model == Evict(before, gone + {claim.id}, account) && byID == old(byID) - {claim.id}
      ensures KeySet(keys) == KeysOf(before, gone + {claim.id}) && |keys| == |KeySet(keys)|
    {
      EvictOne(before, gone, claim.id, account);
      keys := AddKeys(seen, claim.keys);
      EvictClaim(claim, account);
    }

    method EvictAll(ids: set<nat>, account: Account) returns (claims: nat, keys: seq<Key>)
      requires Sound() && forall id :: id in ids ==> id in byID
      modifies this`byKey, this`byID, this`barriers, this`model
      ensures Sound() && model == Evict(old(model), ids, account)
      ensures claims == |ids| && KeySet(keys) == KeysOf(old(model), ids) && |keys| == |KeySet(keys)|
    {
      claims, keys := 0, [];
      var doomed := ids;
      ghost var before := model;
      ghost var gone: set<nat> := {};
      EvictNone(before, account);
      while doomed != {}
        invariant Sound() && model == Evict(before, gone, account)
        invariant ids == doomed + gone && doomed !! gone
        invariant claims == |gone| && KeySet(keys) == KeysOf(before, gone) && |keys| == |KeySet(keys)|
        decreases doomed
      {
        var id :| id in doomed;
        assert id in ids && id !in gone;
        MoveElement(ids, doomed, gone, id);
        keys := EvictNext(byID[id], account, keys, before, gone);
        doomed, gone, claims := doomed - {id}, gone + {id}, claims + 1;
      }
      assert gone == ids;
    }

    method TransferClaim(id: nat, from: Account, to: Account, priorOwner: Account, reason: Reason)
      returns (moved: RouteClaimHandle?)
      requires Valid()
      modifies this`model, this`issued, this`handles, pool
      ensures Valid() && model == Transfer(old(model), id, from, to, priorOwner, reason)
      ensures moved != null <==> CanTransfer(old(model), id, from)
      ensures moved == null ==> handles == old(handles) && issued == old(issued)
      ensures moved != null ==>
                && fresh(moved) && issued == old(issued) + [moved] && handles == old(handles) + [Handle(id, to, false)]
                && moved.registry == this && moved.index == |old(issued)| && moved.Value() == Handle(id, to, false)
    {
      if id !in byID || byID[id].account != from || byID[id].accepted || byID[id].committed {
        return null;
      }
      MoveClaim(byID[id], to, priorOwner, reason);
      moved := Issue(byID[id]);
    }

    method MoveClaim(claim: RouteClaim, to: Account, priorOwner: Account, reason: Reason)
      requires Sound() && Has(claim) && !claim.accepted && !claim.committed
      modifies this`model, claim
      ensures Sound() && model == Transfer(old(model), claim.id, old(claim.account), to, priorOwner, reason)
      ensures claim.account == to
    {
      model := Transfer(model, claim.id, claim.account, to, priorOwner, reason);
      claim.account := to;
      claim.priorOwner := priorOwner;
      claim.reason := reason;
      claim.refs := 1;
    }

    method AcceptSwitchClaim(id: nat, account: Account) returns (accepted: bool)
      requires Sound()
      modifies this`model, pool
      ensures Sound() && model == AcceptSwitch(old(model), id, account)
      ensures accepted == CanAcceptSwitch(old(model), id, account)
    {
      if id !in byID || byID[id].account != account || byID[id].accepted {
        return false;
      }
      model := AcceptSwitch(model, id, account);
      byID[id].accepted := true;
      accepted := true;
    }

    method InvalidateAccount(account: Account) returns (claims: nat, keys: seq<Key>)
      requires Sound()
      modifies this`byKey, this`byID, this`barriers, this`model
      ensures Sound() && model == RouteClaims.Invalidate(old(model), account)
      ensures claims == |ClaimsOn(old(model), account)|
      ensures KeySet(keys) == KeysOn(old(model), account) && |keys| == |KeySet(keys)|
    {
      var ids := set id | id in byID && byID[id].account == account;
      assert ids == ClaimsOn(model, account);
      claims, keys := EvictAll(ids, account);
    }

    /** Invalidation as a section of its own. */
    method Invalidate(account: Account) returns (claims: nat, keys: seq<Key>)
      requires Valid()
      modifies this`byKey, this`byID, this`barriers, this`model
      ensures Valid() && AsTable() == Step(old(AsTable()), DoInvalidate(account))
      ensures claims == |ClaimsOn(old(model), account)|
      ensures KeySet(keys) == KeysOn(old(model), account) && |keys| == |KeySet(keys)|
    {
      claims, keys := InvalidateAccount(account);
    }

    /** Acceptance of a route that had no claim. */
    method ClearBarriers(keys: seq<Key>)
      requires Valid()
      modifies this`barriers, this`model
      ensures Valid() && AsTable() == Step(old(AsTable()), DoClearBarriers(keys))
    {
      DropBarriers(keys);
    }

    function OwnerByClaim(key: Key): (owner: Account)
      requires Sound()
      reads this, pool
      ensures owner == KeyOwner(model, key)
    {
      if key in byKey then byKey[key].account else ""
    }

    function OwnerByBarrier(key: Key): (owner: Account)
      requires Sound()
      reads this, pool
      ensures owner == BarrierOwner(model, key)
    {
      if key in barriers then barriers[key] else ""
    }

    method RankOwners(route: Route, durable: Durable) returns (owners: seq<Account>)
      requires Sound()
      ensures owners == RankedOwners(model, route, durable)
    {
      owners := [];
      if route.thread != "" {
        owners := AppendOwner(owners, OwnerByClaim(route.thread));
        owners := AppendOwner(owners, OwnerByBarrier(route.thread));
      }
      owners := AppendOwner(owners, durable.thread);
      if route.session != "" {
        owners := AppendOwner(owners, OwnerByClaim(route.session));
        owners := AppendOwner(owners, OwnerByBarrier(route.session));
      }
      owners := AppendOwner(owners, durable.session);
    }

    method AllOwners(route: Route, durable: Durable, claims: seq<RouteClaim>) returns (owners: seq<Account>)
      requires Sound()
      requires |claims| == |ClaimsFor(model, RouteKeys(route))|
      requires forall i :: 0 <= i < |claims| ==> Has(claims[i]) && claims[i].id == ClaimsFor(model, RouteKeys(route))[i]
      ensures owners == Owners(model, route, durable)
    {
      var keys := RouteKeys(route);
      ghost var ids := ClaimsFor(model, keys);
      owners := RankOwners(route, durable);
      for i := 0 to |claims|
        invariant ClaimOwners(owners, model, ids[i..]) == ClaimOwners(RankedOwners(model, route, durable), model, ids)
      {
        assert ids[i..][1..] == ids[i + 1..];
        assert Has(claims[i]) && ids[i] in model.claims;
        owners := AppendOwner(owners, claims[i].account);
      }
      ghost var claimed := owners;
      for i := 0 to |keys|
        invariant BarrierOwners(owners, model, keys[i..]) == BarrierOwners(claimed, model, keys)
      {
        assert keys[i..][1..] == keys[i + 1..];
        owners := AppendOwner(owners, OwnerByBarrier(keys[i]));
      }
    }

    /** The first of these claims on `account`. */
    method FindOn(claims: seq<RouteClaim>, ghost ids: seq<nat>, account: Account) returns (found: RouteClaim?)
      requires Sound() && |claims| == |ids|
      requires forall i :: 0 <= i < |claims| ==> Has(claims[i]) && claims[i].id == ids[i]
      ensures forall id :: id in ids ==> id in model.claims
      ensures FirstOn(model, ids, account) == if found == null then None else Some(found.id)
      ensures found != null ==> Has(found) && found.account == account
    {
      found := null;
      forall id | id in ids ensures id in model.claims {
        var i :| 0 <= i < |ids| && ids[i] == id;
        assert Has(claims[i]);
      }
      for i := 0 to |claims|
        invariant forall id :: id in ids[i..] ==> id in model.claims
        invariant FirstOn(model, ids[i..], account) == FirstOn(model, ids, account)
      {
        assert ids[i..][1..] == ids[i + 1..];
        assert Has(claims[i]);
        if claims[i].account == account {
          return claims[i];
        }
      }
    }

    method ConflictsWith(selected: RouteClaim, claims: seq<RouteClaim>, ghost ids: seq<nat>) returns (r: bool)
      requires Sound() && Has(selected) && |claims| == |ids|
      requires forall i :: 0 <= i < |claims| ==> Has(claims[i]) && claims[i].id == ids[i]
      requires forall id :: id in ids ==> id in model.claims
      ensures r == Conflicts(model, selected.id, ids)
    {
      for i := 0 to |claims|
        invariant forall j :: 0 <= j < i ==> claims[j] == selected || claims[j].account == selected.account
      {
        if claims[i] != selected && claims[i].account != selected.account {
          assert ids[i] in ids;
          return true;
        }
      }
      return false;
    }

    method BeginClaim(account: Account, priorOwner: Account, reason: Reason) returns (claim: RouteClaim)
      requires Sound()
      modifies this`next, this`byID, this`model, this`pool
      ensures Sound() && Has(claim) && !claim.committed && claim.account == account && fresh(claim)
              && pool == old(pool) + {claim}
      ensures model == Begin(old(model), account, priorOwner, reason) && claim.id == model.next
    {
      next := next + 1;
      claim := new RouteClaim(next, account, priorOwner, reason);
      byID := byID[next := claim];
      pool := pool + {claim};
      model := Begin(model, account, priorOwner, reason);
    }

    method Issue(claim: RouteClaim) returns (handle: RouteClaimHandle)
      requires Valid() && Has(claim)
      modifies this`issued, this`handles
      ensures Valid() && model == old(model) && handles == old(handles) + [Handle(claim.id, claim.account, false)]
      ensures fresh(handle) && issued == old(issued) + [handle]
              && handle.Value() == Handle(claim.id, claim.account, false)
      ensures handle.registry == this && handle.index == |old(issued)|
    {
      handle := new RouteClaimHandle(this, claim.id, claim.account, |issued|);
      issued := issued + [handle];
      handles := handles + [Handle(claim.id, claim.account, false)];
    }

    method JoinClaim(claim: RouteClaim, keys: seq<Key>)
      requires Sound() && Has(claim) && !claim.committed
      modifies this`byKey, this`model, claim
      ensures Sound() && Has(claim) && model == Join(old(model), claim.id, keys)
      ensures claim.account == old(claim.account) && claim.priorOwner == old(claim.priorOwner)
              && claim.reason == old(claim.reason)
    {
      AttachKeys(claim, keys);
      SetRefs(claim, claim.refs + 1);
    }

    /** The handle is null when none is returned. */
    method SelectAccount(route: Route, durable: Durable, pick: seq<Account> -> Decision)
      returns (selection: Selection, handle: RouteClaimHandle?)
      requires Valid()
      modifies this, pool
      ensures Valid() && fresh(pool - old(pool))
      ensures selection == RouteClaims.SelectAccount(old(model), route, durable, pick).1
      ensures AsTable() ==
              Step(old(AsTable()), Select(RouteKeys(route), durable, pick(Owners(old(model), route, durable))))
      ensures handle == null <==> selection.claim.None?
      ensures handle != null ==> fresh(handle) && issued == old(issued) + [handle] && selection.claim == Some(handle.id)
      ensures handle == null ==> issued == old(issued)
    {
      handle := null;
      var keys := RouteKeys(route);
      if keys == [] {
        return Selection(pick(DurableOwners(durable)), None, false), null;
      }
      var claims := ClaimsForKeys(keys);
      var owners := AllOwners(route, durable, claims);
      var decision := pick(owners);
      if decision.account.None? {
        return Selection(decision, None, false), null;
      }
      selection, handle := Settle(keys, claims, durable, decision);
    }

    /** Chooses where a claim could move to; the claim stays as it is until it is transferred. */
    method SelectReplacement(route: Route, current: RouteClaimHandle?, durable: Durable, pick: seq<Account> -> Decision)
      returns (decision: Decision)
      requires Valid()
      ensures decision ==
              if current == null || current.registry != this then
                Decision(None, if current == null then "" else current.account, "", "")
              else RouteClaims.SelectReplacement(model, route, current.id, current.account, durable, pick)
    {
      if current == null || current.registry != this {
        return Decision(None, if current == null then "" else current.account, "", "");
      }
      if current.id !in byID || byID[current.id].account != current.account {
        return Decision(None, current.account, "", "");
      }
      var owners := RankOwners(route, durable);
      decision := pick(owners);
      if decision.account == Some(current.account) {
        decision := decision.(account := None, blocked := current.account);
      }
    }

    /** Past the first refusal: the registry, the selection and the handle all follow `SelectWith`. */
    twostate predicate Settled(keys: seq<Key>, durable: Durable, decision: Decision, selection: Selection,
        new handle: RouteClaimHandle?)
      requires Partition(old(model))
      reads this
    {
      && selection == SelectWith(old(model), keys, durable, decision).1
      && model == SelectWith(old(model), keys, durable, decision).0
      && (handle == null <==> selection.claim.None?)
      && (handle == null ==> handles == old(handles) && issued == old(issued))
      && (handle != null ==>
            && selection.claim == Some(handle.id)
            && handles == old(handles) + [Handle(handle.id, decision.account.value, false)]
            && issued == old(issued) + [handle])
    }

    method Settle(keys: seq<Key>, claims: seq<RouteClaim>, durable: Durable, decision: Decision)
      returns (selection: Selection, handle: RouteClaimHandle?)
      requires Valid() && decision.account.Some?
      requires |claims| == |ClaimsFor(model, keys)|
      requires forall i :: 0 <= i < |claims| ==> Has(claims[i]) && claims[i].id == ClaimsFor(model, keys)[i]
      modifies this, pool
      ensures Valid() && fresh(pool - old(pool))
      ensures handle != null ==> fresh(handle)
      ensures Settled(keys, durable, decision, selection, handle)
    {
      var claim := FindOn(claims, ClaimsFor(model, keys), decision.account.value);
      if claim != null {
        selection, handle := JoinOrRefuse(keys, claims, claim, durable, decision);
      } else {
        selection, handle := OpenOrRefuse(keys, claims, durable, decision);
      }
    }

    /** A claim of the route is on the account: it is joined unless others hold the route's keys. */
    method JoinOrRefuse(keys: seq<Key>, claims: seq<RouteClaim>, claim: RouteClaim, durable: Durable,
        decision: Decision)
      returns (selection: Selection, handle: RouteClaimHandle?)
      requires Valid() && decision.account == Some(claim.account) && Has(claim)
      requires |claims| == |ClaimsFor(model, keys)|
      requires forall i :: 0 <= i < |claims| ==> Has(claims[i]) && claims[i].id == ClaimsFor(model, keys)[i]
      requires (forall id :: id in ClaimsFor(model, keys) ==> id in model.claims)
               && FirstOn(model, ClaimsFor(model, keys), claim.account) == Some(claim.id)
      modifies this, pool
      ensures Valid() && fresh(pool - old(pool))
      ensures handle != null ==> fresh(handle)
      ensures Settled(keys, durable, decision, selection, handle)
    {
      var conflict := ConflictsWith(claim, claims, ClaimsFor(model, keys));
      if conflict {
        return Refuse(decision, claim.account), null;
      }
      selection, handle := JoinAndIssue(claim, keys, decision);
    }

    /** No claim of the route is on the account: a durable owner needs none, other accounts' claims refuse it. */
    method OpenOrRefuse(keys: seq<Key>, claims: seq<RouteClaim>, durable: Durable, decision: Decision)
      returns (selection: Selection, handle: RouteClaimHandle?)
      requires Valid() && decision.account.Some?
      requires |claims| == |ClaimsFor(model, keys)|
      requires forall i :: 0 <= i < |claims| ==> Has(claims[i]) && claims[i].id == ClaimsFor(model, keys)[i]
      requires forall i :: 0 <= i < |claims| ==> claims[i].account != decision.account.value
      modifies this, pool
      ensures Valid() && fresh(pool - old(pool))
      ensures handle != null ==> fresh(handle)
      ensures Settled(keys, durable, decision, selection, handle)
    {
      if durable.Contains(decision.account.value) {
        return Selection(decision, None, false), null;
      }
      if claims != [] {
        return Refuse(decision, claims[0].account), null;
      }
      assert ClaimsFor(model, keys) == [];
      handle := Open(keys, decision);
      selection := Selection(decision, Some(handle.id), false);
    }

    method JoinAndIssue(claim: RouteClaim, keys: seq<Key>, decision: Decision)
      returns (selection: Selection, handle: RouteClaimHandle)
      requires Valid() && Has(claim) && !claim.committed && decision.account == Some(claim.account)
      modifies this, pool
      ensures Valid() && pool == old(pool) && model == Join(old(model), claim.id, keys)
      ensures fresh(handle) && issued == old(issued) + [handle]
              && handles == old(handles) + [Handle(claim.id, decision.account.value, false)]
      ensures handle.id == claim.id
      ensures var was := old(claim.Value());
              selection ==
                Selection(decision.(priorOwner := was.priorOwner, reason := if was.priorOwner != "" then was.reason
                 else REASON_PROVISIONAL_CLAIM), Some(claim.id), true)
    {
      JoinClaim(claim, keys);
      var reason := if claim.priorOwner != "" then claim.reason else REASON_PROVISIONAL_CLAIM;
      selection := Selection(decision.(priorOwner := claim.priorOwner, reason := reason), Some(claim.id), true);
      handle := Issue(claim);
    }

    method BeginAttached(keys: seq<Key>, account: Account, priorOwner: Account, reason: Reason)
      returns (claim: RouteClaim)
      requires Sound()
      modifies this`next, this`byKey, this`byID, this`model, this`pool
      ensures Sound() && Has(claim) && claim.account == account && fresh(claim) && pool == old(pool) + {claim}
      ensures var begun := Begin(old(model), account, priorOwner, reason);
              model == Attach(begun, begun.next, keys) && claim.id == begun.next
    {
      claim := BeginClaim(account, priorOwner, reason);
      AttachKeys(claim, keys);
    }

    method Open(keys: seq<Key>, decision: Decision) returns (handle: RouteClaimHandle)
      requires Valid() && decision.account.Some?
      modifies this, pool
      ensures Valid() && fresh(pool - old(pool))
      ensures var begun := Begin(old(model), decision.account.value, decision.priorOwner, decision.reason);
              && model == Attach(begun, begun.next, keys)
              && handles == old(handles) + [Handle(begun.next, decision.account.value, false)]
              && handle.id == begun.next
      ensures fresh(handle) && issued == old(issued) + [handle]
    {
      var claim := BeginAttached(keys, decision.account.value, decision.priorOwner, decision.reason);
      handle := Issue(claim);
    }
  }

  /** A handle acts at most once; `index` is its place among the handles issued. */
  class RouteClaimHandle {
    const registry: RouteClaimRegistry
    const id: nat
    const account: Account
    ghost const index: nat
    var spent: bool

    ghost function Value(): Handle
      reads this
    {
      Handle(id, account, spent)
    }

    ghost predicate Issued()
      reads this, registry, registry.pool, registry.issued
    {
      registry.Valid() && index < |registry.issued| && registry.issued[index] == this
    }

    constructor (registry: RouteClaimRegistry, id: nat, account: Account, ghost index: nat)
      ensures this.registry == registry && this.index == index && this.id == id && this.account == account && !spent
    {
      this.registry, this.id, this.account, this.index, spent := registry, id, account, index, false;
    }

    method Spend()
      requires Issued() && !spent
      modifies this`spent, registry`handles
      ensures Issued() && spent && registry.handles == ClaimRuns.Spend(old(registry.handles), index)
    {
      spent := true;
      registry.handles := ClaimRuns.Spend(registry.handles, index);
    }

    method Release()
      requires Issued()
      modifies this`spent, registry`byKey, registry`byID, registry`model, registry`handles, registry.pool
      ensures Issued() && registry.AsTable() == Step(old(registry.AsTable()), DoRelease(index))
    {
      if spent {
        return;
      }
      Spend();
      registry.ReleaseClaim(id, account);
    }

    method Commit(keys: seq<Key>)
      requires Issued()
      modifies this`spent, registry`byKey, registry`byID, registry`barriers, registry`model, registry`handles,
          registry.pool
      ensures Issued() && registry.AsTable() == Step(old(registry.AsTable()), DoCommit(index, keys))
    {
      if spent {
        return;
      }
      Spend();
      registry.CommitClaim(id, account, keys);
    }

    method Preserve() returns (keys: seq<Key>)
      requires Issued()
      modifies this`spent, registry`byKey, registry`byID, registry`barriers, registry`model, registry`handles
      ensures Issued() && registry.AsTable() == Step(old(registry.AsTable()), DoPreserve(index))
      ensures keys == if old(spent) then [] else RouteClaims.Preserve(old(registry.model), id, account).1
    {
      if spent {
        return [];
      }
      Spend();
      keys := registry.PreserveClaim(id, account);
    }

    /** A refused transfer still spends the handle. */
    method Transfer(to: Account, priorOwner: Account, reason: Reason) returns (moved: RouteClaimHandle?)
      requires Issued()
      modifies this`spent, registry`model, registry`issued, registry`handles, registry.pool
      ensures Issued() && registry.AsTable() == Step(old(registry.AsTable()), DoTransfer(index, to, priorOwner, reason))
      ensures moved != null <==> !old(spent) && to != "" && CanTransfer(old(registry.model), id, account)
      ensures moved != null ==> fresh(moved) && moved.Issued() && moved.id == id && moved.account == to && !moved.spent
    {
      if to == "" || spent {
        return null;
      }
      Spend();
      moved := registry.TransferClaim(id, account, to, priorOwner, reason);
    }

    method Active() returns (active: bool)
      requires Issued()
      ensures active == Live(registry.model, id, account)
    {
      active := id in registry.byID && registry.byID[id].account == account;
    }

    method AcceptSwitch() returns (accepted: bool)
      requires Issued()
      modifies registry`model, registry.pool
      ensures Issued() && registry.AsTable() == Step(old(registry.AsTable()), DoAcceptSwitch(index))
      ensures accepted == CanAcceptSwitch(old(registry.model), id, account)
    {
      accepted := registry.AcceptSwitchClaim(id, account);
    }
  }

  /** Appends the keys not seen yet. */
  method AddKeys(seen: seq<Key>, keys: seq<Key>) returns (r: seq<Key>)
    requires |seen| == |KeySet(seen)|
    ensures KeySet(r) == KeySet(seen) + KeySet(keys) && |r| == |KeySet(r)|
  {
    r := seen;
    for i := 0 to |keys|
      invariant KeySet(r) == KeySet(seen) + KeySet(keys[..i]) && |r| == |KeySet(r)|
    {
      assert keys[..i + 1] == keys[..i] + [keys[i]];
      if keys[i] !in r {
        assert KeySet(r + [keys[i]]) == KeySet(r) + {keys[i]};
        r := r + [keys[i]];
      }
    }
    assert keys[..|keys|] == keys;
  }

  lemma MoveElement(all: set<nat>, from: set<nat>, to: set<nat>, id: nat)
    requires all == from + to && from !! to && id in from
    ensures all == (from - {id}) + (to + {id}) && from - {id} !! to + {id} && |to + {id}| == |to| + 1
  {
  }

  lemma EvictNone(reg: Registry, account: Account)
    requires Partition(reg)
    ensures Evict(reg, {}, account) == reg
  {
  }

  lemma KeysOfOne(reg: Registry, id: nat)
    requires id in reg.claims
    ensures KeysOf(reg, {id}) == KeySet(reg.claims[id].keys)
  {
    assert forall k :: k in reg.claims[id].keys ==> k in KeysOf(reg, {id});
  }

  lemma KeysOfMore(reg: Registry, gone: set<nat>, id: nat)
    requires id in reg.claims
    ensures KeysOf(reg, gone + {id}) == KeysOf(reg, gone) + KeySet(reg.claims[id].keys)
  {
    forall k | k in KeysOf(reg, gone) ensures k in KeysOf(reg, gone + {id}) {
      var other :| other in gone && other in reg.claims && k in reg.claims[other].keys;
      assert other in gone + {id};
    }
    assert forall k :: k in reg.claims[id].keys ==> k in KeysOf(reg, gone + {id});
  }

  lemma EvictOne(reg: Registry, gone: set<nat>, id: nat, account: Account)
    requires Partition(reg) && id in reg.claims && id !in gone
    ensures Evict(Evict(reg, gone, account), {id}, account) == Evict(reg, gone + {id}, account)
    ensures KeysOf(reg, gone + {id}) == KeysOf(reg, gone) + KeySet(reg.claims[id].keys)
  {
    var some := Evict(reg, gone, account);
    KeysOfMore(reg, gone, id);
    FenceMore(reg, gone, id, account);
    DropTwice(reg.claims, gone, id);
    DropKeysTwice(reg.byKey, gone, id);
  }

  lemma FenceMore(reg: Registry, gone: set<nat>, id: nat, account: Account)
    requires Partition(reg) && id in reg.claims && id !in gone
    ensures var some := Evict(reg, gone, account);
            Fence(some.barriers, KeysOf(some, {id}), account) == Fence(reg.barriers, KeysOf(reg, gone + {id}), account)
  {
    KeysOfMore(reg, gone, id);
    KeysOfOne(Evict(reg, gone, account), id);
    FenceTwice(reg.barriers, KeysOf(reg, gone), KeySet(reg.claims[id].keys), account);
  }

  lemma DropTwice(claims: map<nat, Claim>, gone: set<nat>, id: nat)
    ensures var some := map other | other in claims && other !in gone :: claims[other];
            (map other | other in some && other !in {id} :: some[other]) ==
               (map other | other in claims && other !in gone + {id} :: claims[other])
  {
  }

  lemma DropKeysTwice(byKey: map<Key, nat>, gone: set<nat>, id: nat)
    ensures var some := map k | k in byKey && byKey[k] !in gone :: byKey[k];
            (map k | k in some && some[k] !in {id} :: some[k]) ==
               (map k | k in byKey && byKey[k] !in gone + {id} :: byKey[k])
  {
  }

  lemma FenceTwice(barriers: map<Key, Account>, some: set<Key>, more: set<Key>, account: Account)
    ensures Fence(Fence(barriers, some, account), more, account) == Fence(barriers, some + more, account)
  {
  }
}
