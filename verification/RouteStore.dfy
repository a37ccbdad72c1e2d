/** The durable side of route ownership: one row per route key, last writer wins. */
module RouteStore {
  import opened RouteClaims

  /** `at` is the time the owner was recorded with, in nanoseconds; 0 is the zero time. */
  datatype Row = Row(account: Account, at: int)

  type Rows = map<Key, Row>

  /** A row yields to a write that is not older than it. */
  predicate Yields(rows: Rows, key: Key, at: int) {
    key in rows ==> at >= rows[key].at
  }

  function Upsert(rows: Rows, at: int, account: Account, keys: set<Key>): Rows {
    map k | k in rows.Keys + keys :: if k in keys && Yields(rows, k, at) then Row(account, at) else rows[k]
  }

  lemma UpsertOne(rows: Rows, at: int, account: Account, keys: set<Key>, key: Key)
    ensures Upsert(rows, at, account, keys + {key}) == Upsert(Upsert(rows, at, account, keys), at, account, {key})
  {
  }

  lemma UpsertNothing(rows: Rows, at: int, account: Account)
    ensures Upsert(rows, at, account, {}) == rows
  {
  }

  /** The tables a route write touches. */
  class Store {
    var rows: Rows
    var lastUsed: map<Account, int> // one entry per account row

    constructor (lastUsed: map<Account, int>)
      ensures rows == map[] && this.lastUsed == lastUsed
    {
      rows, this.lastUsed := map[], lastUsed;
    }

    /** Repeated keys are written once; an empty key abandons the whole transaction. */
    method UpsertRouteOwners(at: int, account: Account, keys: seq<Key>) returns (next: Rows, ok: bool)
      ensures ok <==> "" !in keys
      ensures ok ==> next == Upsert(rows, at, account, KeySet(keys))
    {
      next := rows;
      var seen: set<Key> := {};
      for i := 0 to |keys|
        invariant "" !in keys[..i]
        invariant seen == KeySet(keys[..i])
        invariant next == Upsert(rows, at, account, seen)
      {
        assert keys[..i + 1] == keys[..i] + [keys[i]];
        if keys[i] == "" {
          return rows, false;
        }
        if keys[i] in seen {
          continue;
        }
        UpsertOne(rows, at, account, seen, keys[i]);
        seen := seen + {keys[i]};
        if Yields(next, keys[i], at) {
          next := next[keys[i] := Row(account, at)];
        }
      }
      assert keys[..|keys|] == keys;
      ok := true;
    }

    /** `commits` is whether the database lets the transaction commit. */
    method PreserveRouteOwners(at: int, account: Account, keys: seq<Key>, commits: bool) returns (ok: bool)
      modifies this
      ensures ok <==> at != 0 && account != "" && "" !in keys && commits
      ensures rows == if ok then Upsert(old(rows), at, account, KeySet(keys)) else old(rows)
      ensures lastUsed == old(lastUsed)
    {
      if at == 0 || account == "" {
        return false;
      }
      var next, written := UpsertRouteOwners(at, account, keys);
      ok := written && commits;
      if ok {
        rows := next;
      }
    }

    /** Unlike a preserved owner, a recorded one needs its account. */
    method RecordRoute(route: Route, account: Account, at: int, commits: bool) returns (ok: bool)
      modifies this
      ensures ok <==> at != 0 && account != "" && account in old(lastUsed) && commits
      ensures rows == if ok then Upsert(old(rows), at, account, KeySet(RouteKeys(route))) else old(rows)
      ensures lastUsed.Keys == old(lastUsed).Keys
      ensures forall a :: a in lastUsed ==>
                lastUsed[a] == if ok && a == account && at > old(lastUsed)[a] then at else old(lastUsed)[a]
    {
      if at == 0 || account == "" || account !in lastUsed {
        return false;
      }
      var next, written := UpsertRouteOwners(at, account, RouteKeys(route));
      ok := written && commits;
      if ok {
        rows := next;
        lastUsed := lastUsed[account := if at > lastUsed[account] then at else lastUsed[account]];
      }
    }

    /** The owners of a route, thread first, without a repeated neighbour. */
    method RouteOwners(thread: Key, session: Key) returns (owners: seq<Account>)
      ensures owners == OwnersOf(rows, RouteKeys(Route(session, thread)))
    {
      owners := [];
      var keys := RouteKeys(Route(session, thread));
      for i := 0 to |keys|
        invariant owners == OwnersOf(rows, keys[..i])
        invariant i == 0 ==> owners == []
        invariant |owners| <= i
      {
        assert keys[..i + 1][..i] == keys[..i];
        if keys[i] !in rows {
          continue;
        }
        if owners == [] || owners[0] != rows[keys[i]].account {
          owners := owners + [rows[keys[i]].account];
        }
      }
      assert keys[..|keys|] == keys;
    }
  }

  function OwnersOf(rows: Rows, keys: seq<Key>): seq<Account> {
    if keys == [] then []
    else
      var owners := OwnersOf(rows, keys[..|keys| - 1]);
      var key := keys[|keys| - 1];
      if key in rows && (owners == [] || owners[0] != rows[key].account) then owners + [rows[key].account] else owners
  }

  /** The owners of a route's rows, the thread's first, each once. */
  lemma RouteOwnersAreDistinct(rows: Rows, route: Route)
    ensures var owners := OwnersOf(rows, RouteKeys(route));
            && (forall i, j :: 0 <= i < j < |owners| ==> owners[i] != owners[j])
            && (forall a :: a in owners <==> exists k :: k in RouteKeys(route) && k in rows && rows[k].account == a)
            && (route.thread != "" && route.thread in rows ==> owners != [] && owners[0] == rows[route.thread].account)
  {
    var keys := RouteKeys(route);
    assert OwnersOf(rows, []) == [];
    if keys != [] {
      FirstOwner(rows, keys[0]);
      assert keys[..1] == [keys[0]] && keys[..0] == [];
      assert |keys| == 1 ==> keys == [keys[0]];
    }
    forall a | a in OwnersOf(rows, keys) ensures exists k :: k in keys && k in rows && rows[k].account == a {
      OwnerHasRow(rows, keys, a);
    }
  }

  lemma FirstOwner(rows: Rows, key: Key)
    ensures OwnersOf(rows, [key]) == if key in rows then [rows[key].account] else []
  {
    assert [key][..0] == [];
    assert OwnersOf(rows, []) == [];
  }

  lemma {:induction false} OwnerHasRow(rows: Rows, keys: seq<Key>, a: Account)
    requires a in OwnersOf(rows, keys)
    ensures exists k :: k in keys && k in rows && rows[k].account == a
  {
    var front := keys[..|keys| - 1];
    if a in OwnersOf(rows, front) {
      OwnerHasRow(rows, front, a);
    } else {
      assert keys[|keys| - 1] in keys;
    }
  }
}
