/** The three server operations that hold routeOwnership, on the objects they update. Run alone,
    each is a run of `RouteOwnership` sections: see `AcceptRunIsAccepted`, `FenceRunIsWalled` and
    `PreserveRunIsWalled` there. */
module ResponseRouting {
  import opened Wrappers
  import opened RouteClaims
  import opened RouteStore
  import opened RouteRegistry
  import opened RouteOwnership
  import opened ClaimRuns

  /** A connection's account and the handle that keeps its route there. */
  class ResponseAccount {
    const account: Account
    var claim: RouteClaimHandle?
    var moved: bool

    constructor (account: Account, claim: RouteClaimHandle?, moved: bool)
      ensures this.account == account && this.claim == claim && this.moved == moved
    {
      this.account, this.claim, this.moved := account, claim, moved;
    }
  }

  class RouteServer {
    const registry: RouteClaimRegistry
    const store: Store
    ghost var lost: set<Key> // keys whose last barrier the store refused

    constructor (registry: RouteClaimRegistry, store: Store)
      ensures this.registry == registry && this.store == store && lost == {}
    {
      this.registry, this.store, lost := registry, store, {};
    }

    ghost function WorldAt(clock: int): World
      reads this, registry, store
    {
      World(registry.AsTable(), store.rows, clock, Free, lost)
    }

    /** The connection's handle is this registry's, still unspent, and for the connection's account. */
    ghost predicate Serves(dial: ResponseAccount)
      reads dial, dial.claim, registry, registry.pool, registry.issued
    {
      && registry.Valid()
      && (dial.claim != null ==>
            && dial.claim.registry == registry && dial.claim.index < |registry.issued|
            && registry.issued[dial.claim.index] == dial.claim
            && !dial.claim.spent && dial.claim.account == dial.account)
    }

    /** Without barriers there is nothing to write; an empty key abandons the write. */
    predicate Persists(keys: set<Key>, commits: bool) {
      keys == {} || (commits && "" !in keys)
    }

    /** `routable` is what accountRoutable answers; `commits` is what the database does. */
    method AcceptResponseRoute(dial: ResponseAccount, route: Route, stamp: int, routable: bool, commits: bool,
        ghost clock: int)
      returns (allowed: bool, persisted: bool, logSwitch: bool)
      requires Serves(dial) && stamp <= clock
      modifies registry, registry.pool, store, dial`claim, dial.claim
      ensures registry.Valid()
      ensures allowed <==>
        routable && (old(dial.claim) != null ==> Live(old(registry.model), old(dial.claim).id, dial.account))
      ensures persisted <==>
        allowed && commits && stamp != 0 && dial.account != "" && dial.account in old(store.lastUsed)
      ensures dial.claim == if persisted then null else old(dial.claim)
      ensures logSwitch <==> allowed && dial.moved &&
                             (old(dial.claim) != null ==>
                                  CanAcceptSwitch(old(registry.model), old(dial.claim).id, dial.account))
      ensures WorldAt(clock) ==
              if !allowed then old(WorldAt(clock))
              else Accepted(old(WorldAt(clock)), if old(dial.claim) == null then None else Some(old(dial.claim.index)),
                       dial.account,
                          RouteKeys(route), stamp, persisted, dial.moved)
      ensures store.lastUsed.Keys == old(store.lastUsed).Keys
      ensures forall a :: a in store.lastUsed ==>
                store.lastUsed[a] == if persisted && a == dial.account && stamp > old(store.lastUsed)[a] then stamp
                                     else old(store.lastUsed)[a]
    {
      allowed, persisted, logSwitch := false, false, false;
      var handle := dial.claim;
      var active := true;
      if handle != null {
        active := handle.Active();
      }
      if !routable || !active {
        return;
      }
      allowed := true;
      persisted := store.RecordRoute(route, dial.account, stamp, commits);
      logSwitch := LogSwitch(dial);
      if persisted {
        SettleClaim(dial, RouteKeys(route));
      }
    }

    /** A moved connection is logged once among all those that share its claim. */
    method LogSwitch(dial: ResponseAccount) returns (logSwitch: bool)
      requires Serves(dial)
      modifies registry`model, registry.pool
      ensures Serves(dial)
      ensures logSwitch <==>
        dial.moved && (dial.claim != null ==> CanAcceptSwitch(old(registry.model), dial.claim.id, dial.account))
      ensures registry.AsTable() ==
              if dial.moved && dial.claim != null then Step(old(registry.AsTable()), DoAcceptSwitch(dial.claim.index))
              else old(registry.AsTable())
    {
      logSwitch := dial.moved;
      if dial.moved && dial.claim != null {
        logSwitch := dial.claim.AcceptSwitch();
      }
    }

    /** Commits the connection's claim, or clears the barriers itself where there is none. */
    method SettleClaim(dial: ResponseAccount, keys: seq<Key>)
      requires Serves(dial)
      modifies registry`byKey, registry`byID, registry`barriers, registry`model, registry`handles, registry.pool,
          dial`claim, dial.claim
      ensures registry.Valid() && dial.claim == null
      ensures registry.AsTable() ==
              Step(old(registry.AsTable()),
                  if old(dial.claim) != null then DoCommit(old(dial.claim.index), keys) else DoClearBarriers(keys))
    {
      if dial.claim != null {
        dial.claim.Commit(keys);
        dial.claim := null;
      } else {
        registry.ClearBarriers(keys);
      }
    }

    method PreserveResponseOwner(dial: ResponseAccount, now: int, commits: bool) returns (ok: bool)
      requires Serves(dial) && now != 0 && dial.account != ""
      modifies this`lost, registry, registry.pool, store, dial`claim, dial.claim
      ensures registry.Valid() && dial.claim == null
      ensures old(dial.claim) == null ==> ok && WorldAt(now) == old(WorldAt(now))
      ensures old(dial.claim) != null ==>
                (ok <==>
                     Persists(KeySet(RouteClaims.Preserve(old(registry.model), old(dial.claim).id, dial.account).1),
                         commits))
      ensures old(dial.claim) != null ==>
                WorldAt(now) == Walled(old(WorldAt(now)), DoPreserve(old(dial.claim.index)), dial.account,
                                       KeySet(RouteClaims.Preserve(old(registry.model), old(dial.claim).id,
                                           dial.account).1), ok)
    {
      if dial.claim == null {
        return true;
      }
      var handle := dial.claim;
      var keys := handle.Preserve();
      dial.claim := null;
      ok := PersistBarriers(dial.account, keys, now, commits);
    }

    /** Writes the barriers' owners; nothing is written where there is none. */
    method PersistBarriers(account: Account, keys: seq<Key>, now: int, commits: bool) returns (ok: bool)
      requires now != 0 && account != ""
      modifies this`lost, store
      ensures ok <==> Persists(KeySet(keys), commits)
      ensures store.lastUsed == old(store.lastUsed)
      ensures store.rows == if ok then Upsert(old(store.rows), now, account, KeySet(keys)) else old(store.rows)
      ensures lost == if ok then old(lost) - KeySet(keys) else old(lost) + KeySet(keys)
    {
      UpsertNothing(store.rows, now, account);
      ok := true;
      if keys != [] {
        assert keys[0] in KeySet(keys);
        ok := store.PreserveRouteOwners(now, account, keys, commits);
      }
      lost := if ok then lost - KeySet(keys) else lost + KeySet(keys);
    }

    method InvalidateAccount(account: Account, now: int, commits: bool) returns (claims: nat, ok: bool)
      requires registry.Valid() && now != 0 && account != ""
      modifies this`lost, registry, registry.pool, store
      ensures registry.Valid() && claims == |ClaimsOn(old(registry.model), account)|
      ensures ok <==> Persists(KeysOn(old(registry.model), account), commits)
      ensures WorldAt(now) ==
              Walled(old(WorldAt(now)), DoInvalidate(account), account, KeysOn(old(registry.model), account), ok)
    {
      var keys;
      claims, keys := registry.Invalidate(account);
      ok := PersistBarriers(account, keys, now, commits);
    }
  }
}
