/** The registry of live upstream sockets: account -> registration id -> the relay to call back. */
module ActiveSockets {
  import opened Wrappers

  type Account = string
  type Relay = nat // the relay whose callback is registered
  type Nested = map<Account, map<nat, Relay>>

  datatype Sockets = Sockets(next: nat, byAccount: Nested)

  const NO_SOCKETS := Sockets(0, map[])

  predicate Under(s: Sockets, account: Account, id: nat) {
    account in s.byAccount && id in s.byAccount[account]
  }

  function Lookup(s: Sockets, account: Account, id: nat): Option<Relay> {
    if Under(s, account, id) then Some(s.byAccount[account][id]) else None
  }

  function Group(byAccount: Nested, account: Account): map<nat, Relay> {
    if account in byAccount then byAccount[account] else map[]
  }

  /** Accounts with no socket left have no group. */
  function WithGroup(byAccount: Nested, account: Account, group: map<nat, Relay>): Nested {
    if group == map[] then byAccount - {account} else byAccount[account := group]
  }

  function Add(s: Sockets, account: Account, relay: Relay): Sockets {
    Sockets(s.next + 1, s.byAccount[account := Group(s.byAccount, account)[s.next + 1 := relay]])
  }

  /** A move within one account succeeds whether or not the socket is still registered there. */
  predicate Moves(s: Sockets, id: nat, source: Account, target: Account) {
    id != 0 && (source == target || Under(s, source, id))
  }

  function Move(s: Sockets, id: nat, source: Account, target: Account): Sockets {
    if !Moves(s, id, source, target) || source == target then s
    else
      var without := WithGroup(s.byAccount, source, s.byAccount[source] - {id});
      s.(byAccount := without[target := Group(without, target)[id := s.byAccount[source][id]]])
  }

  function Remove(s: Sockets, id: nat, account: Account): Sockets {
    if id == 0 then s
    else s.(byAccount := WithGroup(s.byAccount, account, Group(s.byAccount, account) - {id}))
  }

  function Detach(s: Sockets, account: Account): Sockets {
    s.(byAccount := s.byAccount - {account})
  }

  /** Ids are given out once, an id is registered under one account, and no group is empty. */
  ghost predicate Tidy(s: Sockets) {
    && (forall a {:trigger a in s.byAccount} :: a in s.byAccount ==> s.byAccount[a] != map[])
    && (forall a, id: nat {:trigger Under(s, a, id)} :: Under(s, a, id) ==> 1 <= id <= s.next)
    && (forall a, b, id: nat {:trigger Under(s, a, id), Under(s, b, id)} :: Under(s, a, id) && Under(s, b, id) ==>
           a == b)
  }

  /** Every operation keeps the registry tidy and changes the registrations it names, and no others. */
  lemma AddTidy(s: Sockets, account: Account, relay: Relay)
    requires Tidy(s)
    ensures Tidy(Add(s, account, relay))
    ensures forall a, id: nat {:trigger Lookup(Add(s, account, relay), a, id)} ::
              Lookup(Add(s, account, relay), a, id) == if id == s.next + 1 then
                (if a == account then Some(relay) else None) else Lookup(s, a, id)
  {
    var r := Add(s, account, relay);
    assert s.next + 1 in r.byAccount[account];
    forall a, id: nat {:trigger Under(r, a, id)}
      ensures Under(r, a, id) <==> if id == s.next + 1 then a == account else Under(s, a, id)
    {
      assert !Under(s, a, s.next + 1);
    }
  }

  lemma MoveTidy(s: Sockets, id: nat, source: Account, target: Account)
    requires Tidy(s) && Under(s, source, id) && source != target
    ensures Tidy(Move(s, id, source, target))
    ensures forall a, other: nat {:trigger Lookup(Move(s, id, source, target), a, other)} ::
              Lookup(Move(s, id, source, target), a, other) ==
              if other == id then (if a == target then Lookup(s, source, id) else None) else Lookup(s, a, other)
  {
    var r := Move(s, id, source, target);
    assert Under(s, source, id);
    assert id in r.byAccount[target];
    forall a, other: nat {:trigger Under(r, a, other)}
      ensures Under(r, a, other) <==> if other == id then a == target else Under(s, a, other) {
      assert other == id && Under(s, a, id) ==> a == source;
      var left := s.byAccount[source] - {id};
      var without := WithGroup(s.byAccount, source, left);
      assert other in Group(without, a) <==> Under(s, a, other) && (a == source ==> other != id);
    }
  }

  lemma RemoveTidy(s: Sockets, id: nat, account: Account)
    requires Tidy(s)
    ensures Tidy(Remove(s, id, account))
    ensures forall a, other: nat {:trigger Lookup(Remove(s, id, account), a, other)} ::
              Lookup(Remove(s, id, account), a, other) == if a == account && other == id then None
              else Lookup(s, a, other)
  {
    var r := Remove(s, id, account);
    var left := Group(s.byAccount, account) - {id};
    forall a, other: nat {:trigger Under(r, a, other)}
      ensures Under(r, a, other) <==> Under(s, a, other) && !(a == account && other == id) {
      assert other in left <==> Under(s, account, other) && other != id;
    }
  }

  lemma DetachTidy(s: Sockets, account: Account)
    requires Tidy(s)
    ensures Tidy(Detach(s, account))
    ensures forall a, id: nat {:trigger Lookup(Detach(s, account), a, id)} ::
              Lookup(Detach(s, account), a, id) == if a == account then None else Lookup(s, a, id)
  {
    var r := Detach(s, account);
    forall a, id: nat {:trigger Under(r, a, id)} ensures Under(r, a, id) <==> Under(s, a, id) && a != account {}
  }

  class ActiveWebSocketRegistry {
    var next: nat
    var byAccount: Nested

    constructor ()
      ensures AsSockets() == NO_SOCKETS
    {
      next, byAccount := 0, map[];
    }

    ghost function AsSockets(): Sockets
      reads this
    {
      Sockets(next, byAccount)
    }

    method AddSocket(account: Account, relay: Relay) returns (id: nat)
      modifies this
      ensures AsSockets() == Add(old(AsSockets()), account, relay)
      ensures id == old(next) + 1
    {
      next := next + 1;
      if account !in byAccount {
        byAccount := byAccount[account := map[]];
      }
      var group: map<nat, Relay> := byAccount[account][next := relay];
      byAccount := byAccount[account := group];
      id := next;
    }

    method MoveSocket(id: nat, source: Account, target: Account) returns (moved: bool)
      modifies this
      ensures moved == Moves(old(AsSockets()), id, source, target)
      ensures AsSockets() == Move(old(AsSockets()), id, source, target)
    {
      if id == 0 {
        return false;
      }
      if source == target {
        return true;
      }
      if source !in byAccount || id !in byAccount[source] {
        return false;
      }
      var relay := byAccount[source][id];
      var left := byAccount[source] - {id};
      byAccount := if left == map[] then byAccount - {source} else byAccount[source := left];
      if target !in byAccount {
        byAccount := byAccount[target := map[]];
      }
      var group: map<nat, Relay> := byAccount[target][id := relay];
      byAccount := byAccount[target := group];
      return true;
    }

    method RemoveSocket(id: nat, account: Account)
      modifies this
      ensures AsSockets() == Remove(old(AsSockets()), id, account)
    {
      if id == 0 {
        return;
      }
      var group := if account in byAccount then byAccount[account] - {id} else map[];
      if group == map[] {
        byAccount := byAccount - {account};
      } else {
        byAccount := byAccount[account := group];
      }
    }

    /** The detached callbacks, in no particular order: one for each of `ids`. */
    method DetachAccount(account: Account) returns (callbacks: seq<Relay>, ghost ids: seq<nat>)
      modifies this
      ensures AsSockets() == Detach(old(AsSockets()), account)
      ensures |ids| == |callbacks| && (forall i, j {:trigger ids[i], ids[j]} :: 0 <= i < j < |ids| ==> ids[i] != ids[j])
      ensures forall id :: id in ids <==> Under(old(AsSockets()), account, id)
      ensures forall i :: 0 <= i < |ids| ==>
        Under(old(AsSockets()), account, ids[i]) && callbacks[i] == old(byAccount)[account][ids[i]]
    {
      var group := if account in byAccount then byAccount[account] else map[];
      byAccount := byAccount - {account};
      callbacks, ids := [], [];
      var left := group.Keys;
      while left != {}
        invariant left <= group.Keys && |ids| == |callbacks|
        invariant forall i, j {:trigger ids[i], ids[j]} :: 0 <= i < j < |ids| ==> ids[i] != ids[j]
        invariant forall id :: id in ids <==> id in group && id !in left
        invariant forall i :: 0 <= i < |ids| ==> ids[i] in group && callbacks[i] == group[ids[i]]
      {
        var id :| id in left;
        left := left - {id};
        callbacks, ids := callbacks + [group[id]], ids + [id];
      }
    }
  }
}
