/** A relay and the socket registry as objects. Each method is one or two sections of a relay run
    back to back, and takes the depicted `SocketProtocol` system to the next one. */
module RelayObjects {
  import opened ActiveSockets
  import opened SocketProtocol

  class SocketRelay {
    const number: nat // the callback this relay registers
    var current: Account
    var socketID: nat
    var invalidations: seq<Account>
    var canceled: bool
    ghost var pc: Pc
    ghost var detached: multiset<Account>

    constructor (number: nat, initial: Account)
      ensures this.number == number && AsPeer() == Peer(initial, Starting, 0, [], multiset{}, false)
    {
      this.number, current, socketID, invalidations, canceled, pc, detached :=
        number, initial, 0, [], false, Starting, multiset{};
    }

    ghost function AsPeer(): Peer
      reads this
    {
      Peer(current, pc, socketID, invalidations, detached, canceled)
    }

    ghost predicate Depicted(registry: ActiveWebSocketRegistry, s: System)
      reads this, registry
    {
      registry.AsSockets() == s.sockets && number < |s.peers| && s.peers[number] == AsPeer()
    }

    method RegisterActiveSocket(registry: ActiveWebSocketRegistry, ghost s: System)
      requires Depicted(registry, s) && (pc.Starting? || pc.Rejoining?)
      modifies this, registry
      ensures Depicted(registry, Apply(s, Register(number)))
      ensures pc.Checking?
    {
      socketID := registry.AddSocket(current, number);
      pc := Checking;
    }

    /** The check that follows every registration: `routable` is what accountRoutable answers and
        `claimed` whether the relay's route claim is active. */
    method CheckAccount(registry: ActiveWebSocketRegistry, routable: bool, claimed: bool, ghost s: System)
      returns (serving: bool)
      requires Depicted(registry, s) && pc.Checking? && routable == (current in s.routable)
      modifies this
      ensures Depicted(registry, Apply(s, Check(number, claimed)))
      ensures serving == pc.Serving?
    {
      serving := routable && claimed;
      pc := if serving then Serving else Closing;
    }

    /** The account changes first, the registration follows, and is made again if it was lost. */
    method SwitchAccount(registry: ActiveWebSocketRegistry, next: Account, ghost s: System)
      requires Depicted(registry, s) && pc.Serving?
      modifies this, registry
      ensures Depicted(registry, Apply(Apply(Apply(s, Switch(number, next)), Move(number)), Register(number)))
      ensures pc.Checking? && current == next
    {
      var previous := current;
      ghost var switched := Apply(s, Switch(number, next));
      current, pc := next, Moving(previous);
      ghost var moving := Apply(switched, Move(number));
      var moved := registry.MoveSocket(socketID, previous, current);
      if moved {
        pc := Checking;
        assert Depicted(registry, moving);
      } else {
        pc := Rejoining;
        RegisterActiveSocket(registry, moving);
      }
    }

    /** One invalidation read by the relay's loop; news about another account is dropped. */
    method TakeInvalidation(registry: ActiveWebSocketRegistry, ghost s: System) returns (serving: bool)
      requires Depicted(registry, s) && pc.Serving? && invalidations != []
      modifies this
      ensures Depicted(registry, Apply(s, Take(number)))
      ensures serving == pc.Serving?
    {
      serving := invalidations[0] != current;
      invalidations := invalidations[1..];
      pc := if serving then Serving else Closing;
    }

    method CloseRelay(registry: ActiveWebSocketRegistry, ghost s: System)
      requires Depicted(registry, s) && pc.Closing?
      modifies this, registry
      ensures Depicted(registry, Apply(s, Unregister(number)))
    {
      canceled := true;
      registry.RemoveSocket(socketID, current);
      pc := Gone;
    }

    /** The registered callback: it waits for room in the queue unless the relay has ended. When it
        could do either, `preferEnd` says which. */
    method Notify(registry: ActiveWebSocketRegistry, account: Account, preferEnd: bool, ghost s: System)
      returns (delivered: bool)
      requires Depicted(registry, s) && account in detached
      requires |invalidations| < QUEUE_CAPACITY || canceled
      modifies this
      ensures Depicted(registry, Apply(s, Deliver(number, account, !delivered)))
      ensures !delivered ==> canceled
    {
      delivered := |invalidations| < QUEUE_CAPACITY && !(canceled && preferEnd);
      if delivered {
        invalidations := invalidations + [account];
      }
      detached := detached - multiset{account};
    }
  }
}
