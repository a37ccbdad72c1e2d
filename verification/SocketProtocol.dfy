/** Relays register their upstream socket first and check the account afterwards, so that an account
    that becomes unroutable cannot be missed. Registry sections, relay steps and invalidations
    interleave freely. */
module SocketProtocol {
  import opened Wrappers
  import opened ActiveSockets

  const QUEUE_CAPACITY := 4

  /** `Moving` holds the new account while the registration is still under `source`; `Rejoining`
      has lost that registration and registers again. */
  datatype Pc = Starting | Checking | Serving | Moving(source: Account) | Rejoining | Closing | Gone

  /** `detached` counts callbacks taken from the registry and not yet run, by account. */
  datatype Peer = Peer(current: Account, pc: Pc, socketID: nat, queue: seq<Account>, detached: multiset<Account>,
      canceled: bool)

  /** `sealed`: accounts detached since they last became unroutable, and unroutable ever since. */
  datatype System = System(sockets: Sockets, peers: seq<Peer>, routable: set<Account>, sealed: set<Account>)

  const BOOT := System(NO_SOCKETS, [], {}, {})

  datatype Event =
    | Connect(account: Account)
    | Register(c: nat)
    | Check(c: nat, claimed: bool)
    | Switch(c: nat, target: Account)
    | Move(c: nat)
    | Take(c: nat)
    | Cancel(c: nat)
    | Close(c: nat)
    | Unregister(c: nat)
    | Route(account: Account, allowed: bool)
    | Invalidate(account: Account)
    | Deliver(c: nat, account: Account, dropped: bool)

  function Home(p: Peer): Account {
    if p.pc.Moving? then p.pc.source else p.current
  }

  predicate Registered(sockets: Sockets, p: Peer, c: nat) {
    Lookup(sockets, Home(p), p.socketID) == Some(c)
  }

  function Set(s: System, c: nat, p: Peer): System
    requires c < |s.peers|
  {
    s.(peers := s.peers[c := p])
  }

  function Detached(s: System, account: Account): seq<Peer> {
    var group := Group(s.sockets.byAccount, account);
    seq(|s.peers|, c requires 0 <= c < |s.peers| =>
          if c in group.Values then s.peers[c].(detached := s.peers[c].detached + multiset{account}) else s.peers[c])
  }

  predicate At(s: System, e: Event) {
    match e
    case Register(c) => c < |s.peers| && (s.peers[c].pc.Starting? || s.peers[c].pc.Rejoining?)
    case Check(c, _) => c < |s.peers| && s.peers[c].pc.Checking?
    case Switch(c, _) => c < |s.peers| && s.peers[c].pc.Serving?
    case Move(c) => c < |s.peers| && s.peers[c].pc.Moving?
    case Take(c) => c < |s.peers| && s.peers[c].pc.Serving? && s.peers[c].queue != []
    case Cancel(c) => c < |s.peers|
    case Close(c) => c < |s.peers| && s.peers[c].pc.Serving?
    case Unregister(c) => c < |s.peers| && s.peers[c].pc.Closing?
    case Deliver(c, account, dropped) =>
      && c < |s.peers| && account in s.peers[c].detached
      && (if dropped then s.peers[c].canceled else |s.peers[c].queue| < QUEUE_CAPACITY)
    case _ => true
  }

  /** An event whose guard does not hold leaves the system as it is. */
  function Apply(s: System, e: Event): System {
    if !At(s, e) then s
    else
      match e
      case Connect(account) => s.(peers := s.peers + [Peer(account, Starting, 0, [], multiset{}, false)])
      case Register(c) =>
        Set(s.(sockets := Add(s.sockets, s.peers[c].current, c)), c,
            s.peers[c].(pc := Checking, socketID := s.sockets.next + 1))
      case Check(c, claimed) =>
        Set(s, c, s.peers[c].(pc := if s.peers[c].current in s.routable && claimed then Serving else Closing))
      case Switch(c, target) => Set(s, c, s.peers[c].(pc := Moving(s.peers[c].current), current := target))
      case Move(c) =>
        var p := s.peers[c];
        if Moves(s.sockets, p.socketID, p.pc.source, p.current) then
          Set(s.(sockets := ActiveSockets.Move(s.sockets, p.socketID, p.pc.source, p.current)), c, p.(pc := Checking))
        else Set(s, c, p.(pc := Rejoining))
      case Take(c) =>
        var p := s.peers[c];
        Set(s, c, p.(queue := p.queue[1..], pc := if p.queue[0] == p.current then Closing else Serving))
      case Cancel(c) => Set(s, c, s.peers[c].(canceled := true))
      case Close(c) => Set(s, c, s.peers[c].(pc := Closing))
      case Unregister(c) =>
        Set(s.(sockets := Remove(s.sockets, s.peers[c].socketID, s.peers[c].current)), c,
            s.peers[c].(pc := Gone, canceled := true))
      case Route(account, allowed) =>
        if allowed then s.(routable := s.routable + {account}, sealed := s.sealed - {account})
        else s.(routable := s.routable - {account})
      case Invalidate(account) =>
        s.(sockets := Detach(s.sockets, account), peers := Detached(s, account),
           sealed := if account in s.routable then s.sealed else s.sealed + {account})
      case Deliver(c, account, dropped) =>
        var p := s.peers[c].(detached := s.peers[c].detached - multiset{account});
        Set(s, c, if dropped then p else p.(queue := p.queue + [account]))
  }

  datatype Trace = Boot | Then(before: Trace, event: Event)

  function Replay(trace: Trace): System {
    match trace
    case Boot => BOOT
    case Then(before, event) => Apply(Replay(before), event)
  }

  predicate Notified(p: Peer) {
    Home(p) in p.detached || Home(p) in p.queue || p.canceled
  }

  /** Past its registration, a relay is registered or has the news on its way. */
  predicate Watched(sockets: Sockets, p: Peer, c: nat) {
    p.pc.Checking? || p.pc.Serving? || p.pc.Moving? ==> Registered(sockets, p, c) || Notified(p)
  }

  /** Every registration is the current one of a relay that has not gone. */
  ghost predicate Rooted(s: System) {
    && Tidy(s.sockets)
    && forall a, id: nat {:trigger Lookup(s.sockets, a, id)} :: Lookup(s.sockets, a, id).Some? ==>
         var c := Lookup(s.sockets, a, id).value;
         && c < |s.peers| && s.peers[c].socketID == id && Home(s.peers[c]) == a
         && !s.peers[c].pc.Starting? && !s.peers[c].pc.Rejoining? && !s.peers[c].pc.Gone?
  }

  /** No id is given to two relays. */
  ghost predicate Distinct(s: System) {
    && (forall c {:trigger s.peers[c]} :: 0 <= c < |s.peers| ==> s.peers[c].socketID <= s.sockets.next)
    && (forall c, d {:trigger s.peers[c], s.peers[d]} :: 0 <= c < d < |s.peers| ==>
          s.peers[c].socketID != s.peers[d].socketID || s.peers[c].socketID == 0)
  }

  ghost predicate Safe(s: System) {
    && Rooted(s) && Distinct(s) && s.sealed !! s.routable
    && (forall c {:trigger s.peers[c]} :: 0 <= c < |s.peers| ==> Watched(s.sockets, s.peers[c], c))
    && (forall c {:trigger s.peers[c]} ::
         0 <= c < |s.peers| && s.peers[c].pc.Serving? && s.peers[c].current in s.sealed ==>
              !Registered(s.sockets, s.peers[c], c))
  }

  lemma RegisterSafe(s: System, e: Event)
    requires Safe(s) && At(s, e) && e.Register?
    ensures Safe(Apply(s, e))
  {
    AddTidy(s.sockets, s.peers[e.c].current, e.c);
  }

  lemma MovedSafe(s: System, c: nat)
    requires Safe(s) && c < |s.peers| && s.peers[c].pc.Moving?
    requires s.peers[c].pc.source != s.peers[c].current
             && Lookup(s.sockets, s.peers[c].pc.source, s.peers[c].socketID) == Some(c)
    ensures var p := s.peers[c];
            Safe(Set(s.(sockets := ActiveSockets.Move(s.sockets, p.socketID, p.pc.source, p.current)), c,
                p.(pc := Checking)))
  {
    MoveTidy(s.sockets, s.peers[c].socketID, s.peers[c].pc.source, s.peers[c].current);
  }

  lemma LostSafe(s: System, c: nat)
    requires Safe(s) && c < |s.peers| && s.peers[c].pc.Moving?
    requires Lookup(s.sockets, s.peers[c].pc.source, s.peers[c].socketID) == None
    ensures Safe(Set(s, c, s.peers[c].(pc := Rejoining)))
  {
  }

  lemma MoveSafe(s: System, e: Event)
    requires Safe(s) && At(s, e) && e.Move?
    ensures Safe(Apply(s, e))
  {
    var p := s.peers[e.c];
    var found := Lookup(s.sockets, p.pc.source, p.socketID);
    assert found.Some? ==> found == Some(e.c);
    if p.pc.source == p.current && p.socketID != 0 {
      assert Watched(s.sockets, p, e.c);
      SetSafe(s, e.c, p.(pc := Checking));
    } else if found.Some? {
      MovedSafe(s, e.c);
    } else {
      LostSafe(s, e.c);
    }
  }

  lemma UnregisterSafe(s: System, e: Event)
    requires Safe(s) && At(s, e) && e.Unregister?
    ensures Safe(Apply(s, e))
  {
    RemoveTidy(s.sockets, s.peers[e.c].socketID, s.peers[e.c].current);
  }

  lemma InvalidateSafe(s: System, e: Event)
    requires Safe(s) && e.Invalidate?
    ensures Safe(Apply(s, e))
  {
    DetachTidy(s.sockets, e.account);
    var r := Apply(s, e);
    forall c | 0 <= c < |r.peers| ensures Watched(r.sockets, r.peers[c], c) {
      assert Watched(s.sockets, s.peers[c], c);
      if Registered(s.sockets, s.peers[c], c) && Home(s.peers[c]) == e.account {
        assert Group(s.sockets.byAccount, e.account)[s.peers[c].socketID] == c;
      }
    }
  }

  predicate Joined(pc: Pc) { !pc.Starting? && !pc.Rejoining? && !pc.Gone? }

  lemma SetSafe(s: System, c: nat, p: Peer)
    requires Safe(s) && c < |s.peers|
    requires p.socketID == s.peers[c].socketID && Home(p) == Home(s.peers[c])
             && (Joined(s.peers[c].pc) ==> Joined(p.pc))
    requires Watched(s.sockets, p, c)
    requires p.pc.Serving? && p.current in s.sealed ==> !Registered(s.sockets, p, c)
    ensures Safe(Set(s, c, p))
  {
  }

  /** A relay's own steps, and deliveries to it, touch no registration. */
  lemma PeerSafe(s: System, e: Event)
    requires Safe(s) && At(s, e) && (e.Check? || e.Switch? || e.Take? || e.Cancel? || e.Close? || e.Deliver?)
    ensures Safe(Apply(s, e))
  {
    assert Watched(s.sockets, s.peers[e.c], e.c);
    SetSafe(s, e.c, Apply(s, e).peers[e.c]);
  }

  lemma ApplySafe(s: System, e: Event)
    requires Safe(s)
    ensures Safe(Apply(s, e))
  {
    if At(s, e) {
      match e
      case Connect(_) =>
      case Register(_) => RegisterSafe(s, e);
      case Move(_) => MoveSafe(s, e);
      case Unregister(_) => UnregisterSafe(s, e);
      case Invalidate(_) => InvalidateSafe(s, e);
      case Route(_, _) =>
      case _ => PeerSafe(s, e);
    }
  }

  lemma {:induction false} AlwaysSafe(trace: Trace)
    ensures Safe(Replay(trace))
  {
    if trace.Then? {
      AlwaysSafe(trace.before);
      ApplySafe(Replay(trace.before), trace.event);
    }
  }

  /** No lost invalidation: a serving relay whose request is alive is registered under its account
      or has been notified, and once the account is unroutable and detached it has been notified. */
  lemma NoLostInvalidation(trace: Trace, c: nat)
    requires c < |Replay(trace).peers| && Replay(trace).peers[c].pc.Serving? && !Replay(trace).peers[c].canceled
    ensures var s := Replay(trace); var p := s.peers[c];
            && (Registered(s.sockets, s.peers[c], c) || p.current in p.detached || p.current in p.queue)
            && (p.current in s.sealed ==> p.current in p.detached || p.current in p.queue)
  {
    AlwaysSafe(trace);
    assert Watched(Replay(trace).sockets, Replay(trace).peers[c], c);
  }

  /** A relay that has gone holds no registration. */
  lemma GoneIsUnregistered(trace: Trace, a: Account, id: nat)
    ensures var found := Lookup(Replay(trace).sockets, a, id);
            found.Some? ==> found.value < |Replay(trace).peers| && !Replay(trace).peers[found.value].pc.Gone?
  {
    AlwaysSafe(trace);
  }

  function Run(s: System, events: seq<Event>): System
    decreases |events|
  {
    if events == [] then s else Run(Apply(s, events[0]), events[1..])
  }

  predicate Ended(p: Peer) {
    p.pc.Closing? || p.pc.Gone?
  }

  /** How many of the events are the relay reading its queue. */
  function Takes(events: seq<Event>, c: nat): nat {
    if events == [] then 0 else (if events[0] == Take(c) then 1 else 0) + Takes(events[1..], c)
  }

  /** The relay keeps its account: news about an account it has left would mean nothing. */
  predicate Stays(events: seq<Event>, c: nat) {
    forall i :: 0 <= i < |events| && events[i].Switch? ==> events[i].c != c
  }

  lemma EndedStays(s: System, c: nat, e: Event)
    requires c < |s.peers| && Ended(s.peers[c])
    ensures c < |Apply(s, e).peers| && Ended(Apply(s, e).peers[c])
  {
  }

  /** What any event does to a serving relay that keeps its account: its queue loses its head to the
      relay alone, and grows at its end. */
  lemma ServingStep(s: System, c: nat, e: Event)
    requires c < |s.peers| && s.peers[c].pc.Serving? && (e.Switch? ==> e.c != c)
    ensures c < |Apply(s, e).peers| && Apply(s, e).peers[c].current == s.peers[c].current
    ensures var p, q := s.peers[c], Apply(s, e).peers[c];
            if e == Take(c) && p.queue != [] then q.queue == p.queue[1..]
              && (if p.queue[0] == p.current then Ended(q) else q.pc.Serving?)
            else Ended(q) || (q.pc.Serving? && p.queue <= q.queue)
  {
  }

  lemma {:induction false} EndedForever(s: System, c: nat, events: seq<Event>)
    requires c < |s.peers| && Ended(s.peers[c])
    ensures c < |Run(s, events).peers| && Ended(Run(s, events).peers[c])
    decreases |events|
  {
    if events != [] {
      EndedStays(s, c, events[0]);
      EndedForever(Apply(s, events[0]), c, events[1..]);
    }
  }

  /** News in the queue is enough: whatever anyone else does meanwhile, a relay that reads as far as
      the news ends. */
  lemma {:induction false} QueuedRelayCloses(s: System, c: nat, at: nat, events: seq<Event>)
    requires c < |s.peers| && s.peers[c].pc.Serving?
    requires at < |s.peers[c].queue| && s.peers[c].queue[at] == s.peers[c].current
    requires Stays(events, c) && Takes(events, c) > at
    ensures c < |Run(s, events).peers| && Ended(Run(s, events).peers[c])
    decreases |events|
  {
    var e, rest := events[0], events[1..];
    ServingStep(s, c, e);
    if Ended(Apply(s, e).peers[c]) {
      EndedForever(Apply(s, e), c, rest);
    } else {
      assert forall i :: 0 <= i < |rest| ==> rest[i] == events[i + 1];
      QueuedRelayCloses(Apply(s, e), c, if e == Take(c) then at - 1 else at, rest);
    }
  }

  /** News on its way to a relay can always reach it: the relay makes room by reading, the goroutine
      that holds the news delivers it, and the relay reads on until it closes. The delivery is the one
      step that is not the relay's own. */
  lemma NotifiedRelayCloses(trace: Trace, c: nat) returns (events: seq<Event>)
    requires c < |Replay(trace).peers| && Replay(trace).peers[c].pc.Serving?
    requires Replay(trace).peers[c].current in Replay(trace).peers[c].detached
    ensures var p := Replay(trace).peers[c];
            events == if |p.queue| < QUEUE_CAPACITY then [Deliver(c, p.current, false)] + Reads(c, |p.queue| + 1)
                      else [Take(c), Deliver(c, p.current, false)] + Reads(c, QUEUE_CAPACITY)
    ensures c < |Run(Replay(trace), events).peers| && Ended(Run(Replay(trace), events).peers[c])
  {
    QueueFits(trace, c);
    var s := Replay(trace);
    var account, queue := s.peers[c].current, s.peers[c].queue;
    var delivery := Deliver(c, account, false);
    if |queue| < QUEUE_CAPACITY {
      DeliveredRelayCloses(s, c);
      events := [delivery] + Reads(c, |queue| + 1);
    } else {
      var taken := Apply(s, Take(c));
      events := [Take(c), delivery] + Reads(c, |queue|);
      assert events[1..] == [delivery] + Reads(c, |queue|);
      if queue[0] == account {
        EndedForever(taken, c, events[1..]);
      } else {
        DeliveredRelayCloses(taken, c);
      }
    }
  }

  lemma {:induction false} QueueFits(trace: Trace, c: nat)
    requires c < |Replay(trace).peers|
    ensures |Replay(trace).peers[c].queue| <= QUEUE_CAPACITY
  {
    if trace.Then? && c < |Replay(trace.before).peers| {
      QueueFits(trace.before, c);
    }
  }

  lemma DeliveredRelayCloses(s: System, c: nat)
    requires c < |s.peers| && s.peers[c].pc.Serving? && s.peers[c].current in s.peers[c].detached
    requires |s.peers[c].queue| < QUEUE_CAPACITY
    ensures var events := [Deliver(c, s.peers[c].current, false)] + Reads(c, |s.peers[c].queue| + 1);
            c < |Run(s, events).peers| && Ended(Run(s, events).peers[c])
  {
    var p, n := s.peers[c], |s.peers[c].queue|;
    var delivery := Deliver(c, p.current, false);
    var events := [delivery] + Reads(c, n + 1);
    assert events[1..] == Reads(c, n + 1);
    assert At(s, delivery);
    ReadsAreTakes(c, n + 1);
    QueuedRelayCloses(Apply(s, delivery), c, n, Reads(c, n + 1));
  }

  function Reads(c: nat, n: nat): (events: seq<Event>)
    ensures |events| == n && forall i :: 0 <= i < n ==> events[i] == Take(c)
  {
    if n == 0 then [] else [Take(c)] + Reads(c, n - 1)
  }

  lemma {:induction false} ReadsAreTakes(c: nat, n: nat)
    ensures Takes(Reads(c, n), c) == n && Stays(Reads(c, n), c)
  {
    if n > 0 {
      ReadsAreTakes(c, n - 1);
      assert Reads(c, n)[1..] == Reads(c, n - 1);
    }
  }
}
