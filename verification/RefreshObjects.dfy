/** The objects that callers, workers and shutdown share. Each method is one lock-held section and
    is proved to take the depicted `RefreshProtocol` system to the next one. */
module RefreshObjects {
  import opened Wrappers
  import opened RefreshProtocol

  /** A channel that is only ever closed, once. */
  class Signal {
    var closed: bool

    constructor ()
      ensures !closed
    {
      closed := false;
    }

    method Close()
      requires !closed
      modifies this
      ensures closed
    {
      closed := true;
    }
  }

  class RefreshOperations {
    var active: int
    var stopping: bool
    var idle: Signal?
    var failure: Option<Error>
    ghost var channels: seq<Signal> // every idle channel so far, the current one last

    ghost predicate Valid()
      reads this, channels
    {
      && (forall i, j {:trigger channels[i], channels[j]} :: 0 <= i < j < |channels| ==> channels[i] != channels[j])
      && idle == (if channels == [] then null else channels[|channels| - 1])
      && (forall i {:trigger channels[i]} :: 0 <= i < |channels| - 1 ==> channels[i].closed)
      && IdleFits(AsGroup())
    }

    ghost function AsGroup(): Group
      reads this, channels
    {
      Group(active, stopping, if |channels| == 0 then None else Some(|channels| - 1 as nat),
            set i: nat | i < |channels| && channels[i].closed, |channels|, failure)
    }

    constructor ()
      ensures Valid() && AsGroup() == NO_GROUP
    {
      active, stopping, idle, failure, channels := 0, false, null, None, [];
    }

    /** The first caller makes an idle channel that is already closed. */
    method Init()
      requires Valid()
      modifies this
      ensures Valid() && AsGroup() == RefreshProtocol.Init(old(AsGroup()))
      ensures idle != null && (old(channels) == [] ==> fresh(idle)) && (old(channels) != [] ==> idle == old(idle))
      ensures forall signal :: signal in old(channels) ==> signal in channels
      ensures forall signal :: signal in channels ==> signal in old(channels) || fresh(signal)
    {
      if idle == null {
        var channel := new Signal();
        channel.Close();
        idle, channels := channel, channels + [channel];
      }
    }

    method Open()
      requires Valid() && idle != null && active == 0
      modifies this
      ensures idle != null && !idle.closed && fresh(idle) && channels == old(channels) + [idle]
              && idle !in old(channels)
      ensures active == old(active) && stopping == old(stopping) && failure == old(failure)
    {
      var channel := new Signal();
      idle, channels := channel, channels + [channel];
    }

    method Start() returns (registered: bool)
      requires Valid()
      modifies this
      ensures Valid() && AsGroup() == RefreshProtocol.Start(old(AsGroup()))
      ensures registered == MayStart(old(AsGroup()))
      ensures forall signal :: signal in channels ==> signal in old(channels) || fresh(signal)
    {
      Init();
      if stopping {
        return false;
      }
      if active == 0 {
        Open();
      }
      active := active + 1;
      return true;
    }

    method Finish(completion: Option<Error>)
      requires Valid() && active > 0
      modifies this, idle
      ensures Valid() && AsGroup() == RefreshProtocol.Finish(old(AsGroup()), completion)
      ensures channels == old(channels)
    {
      if stopping && failure.None? {
        failure := completion;
      }
      active := active - 1;
      if active == 0 {
        idle.Close();
      }
    }

    method Stop() returns (channel: Signal)
      requires Valid()
      modifies this
      ensures Valid() && AsGroup() == RefreshProtocol.Stop(old(AsGroup()))
      ensures channel == idle
    {
      Init();
      stopping := true;
      channel := idle;
    }

    /** What `wait` returns once its channel is closed. */
    method CompletionFailure() returns (err: Option<Error>)
      requires Valid()
      ensures err == AsGroup().failure
    {
      err := failure;
    }
  }

  /** One exchange. `done` is closed when its outcome is published. */
  class AccountRefresh {
    const done: Signal
    var waiters: int
    var abandoned: bool
    var err: Option<Error>
    ghost const number: nat
    ghost const account: Account
    ghost const registered: bool
    ghost var phase: Phase
    ghost var interrupted: bool

    constructor (ghost number: nat, ghost account: Account, ghost registered: bool)
      ensures this.number == number && this.account == account && this.registered == registered
      ensures fresh(done) && Valid() && AsOp() == Opened(account, registered)
    {
      done := new Signal();
      waiters, abandoned, err := 0, false, None;
      this.number, this.account, this.registered := number, account, registered;
      phase, interrupted := Exchanging, false;
    }

    ghost function AsOp(): Op
      reads this
    {
      Op(account, waiters, abandoned, interrupted, phase, err, registered)
    }

    ghost predicate Valid()
      reads this, done
    {
      done.closed <==> AsOp().Done()
    }

    ghost predicate DepictedIn(s: System)
      reads this, done
    {
      Valid() && number < |s.ops| && s.ops[number] == AsOp()
    }

    method Cancel()
      modifies this
      ensures interrupted == (old(interrupted) || phase.Exchanging?)
      ensures AsOp() == old(AsOp()).(interrupted := interrupted)
    {
      interrupted := interrupted || phase.Exchanging?;
    }

    /** The worker's own cancel once the exchange has answered. */
    method EndExchange(ghost s: System)
      requires DepictedIn(s) && phase.Exchanging?
      modifies this
      ensures DepictedIn(Apply(s, RefreshProtocol.EndExchange(number)))
    {
      phase := Completing;
    }

    /** The worker leaves the shutdown group, after publication. */
    method Release(group: RefreshOperations?, completion: Option<Error>, ghost s: System)
      requires DepictedIn(s) && phase.Published? && registered == (group != null)
      requires group != null ==> group.Valid() && group.AsGroup() == s.group && group.active > 0
      requires group != null && group.idle != null ==> group.idle != done
      modifies this, group, if group != null then {group.idle} else {}
      ensures DepictedIn(Apply(s, RefreshProtocol.Release(number, completion)))
      ensures group != null ==>
        group.Valid() && group.AsGroup() == Apply(s, RefreshProtocol.Release(number, completion)).group
    {
      phase := Released;
      if group != null {
        group.Finish(completion);
      }
    }
  }

  /** What the section at the top of the loop in refreshOwned decides. */
  datatype Entry =
    | WaitForAbandoned(operation: AccountRefresh)
    | Join(operation: AccountRefresh)
    | Answer(answer: Return)

  class RefreshingAccount {
    const id: Account
    var inflight: AccountRefresh?

    constructor (id: Account)
      ensures this.id == id && inflight == null
    {
      this.id, inflight := id, null;
    }

    ghost predicate DepictedIn(s: System)
      reads this, inflight, if inflight != null then {inflight.done} else {}
    {
      && (inflight == null <==> id !in s.inflight)
      && (inflight != null ==>
            inflight.account == id && inflight.DepictedIn(s) && s.inflight[id] == inflight.number
              && !inflight.phase.Published?
            && !inflight.phase.Released?)
    }

    /** `ended` is the runtime's lifetime, `reauth` whether the account needs a new sign-in. */
    method Enter(group: RefreshOperations?, ended: bool, reauth: bool, ghost s: System, ghost c: nat)
      returns (entry: Entry)
      requires DepictedIn(s) && At(s, c) && s.callers[c] == Caller(id, Ready)
      requires group != null ==> group.Valid() && group.AsGroup() == s.group
      modifies this, inflight, group
      ensures var r := Apply(s, RefreshProtocol.Enter(c, false, ended, reauth, group != null));
              && DepictedIn(r)
              && (group != null ==> group.Valid() && group.AsGroup() == r.group)
              && match entry
                 case WaitForAbandoned(operation) => operation == inflight
                   && r.callers[c].pc == Blocked(operation.number)
                 case Join(operation) => operation == inflight && r.callers[c].pc == Waiting(operation.number)
                 case Answer(answer) => r.callers[c].pc == Back(answer)
    {
      if inflight != null {
        if inflight.abandoned {
          return WaitForAbandoned(inflight);
        }
        inflight.waiters := inflight.waiters + 1;
        return Join(inflight);
      }
      if ended {
        return Answer(LifetimeEnded);
      }
      if reauth {
        return Answer(NeedsReauth);
      }
      if group != null {
        var registered := group.Start();
        if !registered {
          return Answer(Refused);
        }
      }
      var operation := new AccountRefresh(|s.ops|, id, group != null);
      operation.waiters := 1;
      inflight := operation;
      return Join(operation);
    }

    /** A caller stops waiting; the last one to go abandons an operation that is still in flight. */
    method Leave(operation: AccountRefresh, ghost s: System, ghost c: nat)
      requires DepictedIn(s) && operation.DepictedIn(s) && operation.account == id
      requires At(s, c) && s.callers[c].pc.Leaving? && s.callers[c].pc.op == operation.number
      requires inflight != null && inflight.number == operation.number ==> inflight == operation
      modifies operation
      ensures DepictedIn(Apply(s, RefreshProtocol.Leave(c))) && operation.DepictedIn(Apply(s, RefreshProtocol.Leave(c)))
    {
      operation.waiters := operation.waiters - 1;
      if operation.waiters == 0 && inflight == operation {
        operation.abandoned := true;
        operation.Cancel();
      }
    }

    /** The outcome, the cleared pointer and the closed channel appear together. */
    method Publish(operation: AccountRefresh, err: Option<Error>, ghost s: System)
      requires inflight == operation && DepictedIn(s) && operation.phase.Completing?
      modifies this, operation, operation.done
      ensures DepictedIn(Apply(s, RefreshProtocol.Publish(operation.number, err)))
      ensures operation.DepictedIn(Apply(s, RefreshProtocol.Publish(operation.number, err)))
    {
      operation.err := err;
      inflight := null;
      operation.phase := Published;
      operation.done.Close();
    }
  }
}
