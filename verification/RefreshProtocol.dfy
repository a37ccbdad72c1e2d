/** Shared credential refresh: callers join one exchange per account, an exchange nobody waits for
    is abandoned and cancelled, and shutdown joins every registered worker. The lock-held sections
    of callers, workers and shutdown interleave freely. */
module RefreshProtocol {
  import opened Wrappers
  import opened Counting

  type Account = string
  type Error = string

  // ---------- one refresh operation

  /** The worker of an operation: exchanging tokens, completing, published, and no longer registered. */
  datatype Phase = Exchanging | Completing | Published | Released

  /** `interrupted` is set when the exchange is cancelled while it is still running;
      `registered` when the operation counts against the shutdown group. */
  datatype Op = Op(
    account: Account, waiters: int, abandoned: bool, interrupted: bool,
    phase: Phase, err: Option<Error>, registered: bool)
  {
    predicate Done() { phase.Published? || phase.Released? }
    predicate Busy() { registered && !phase.Released? }
  }

  function Opened(account: Account, registered: bool): Op {
    Op(account, 0, false, false, Exchanging, None, registered)
  }

  function Joined(op: Op): Op { op.(waiters := op.waiters + 1) }

  /** A caller stops waiting; `current` is whether the account still points at the operation. */
  function Left(op: Op, current: bool): Op {
    var left := op.(waiters := op.waiters - 1);
    if left.waiters == 0 && current then left.(abandoned := true, interrupted := op.interrupted || op.phase.Exchanging?)
    else left
  }

  // ---------- the shutdown group

  /** `idle` is the current idle channel by number, `made` how many channels exist. */
  datatype Group = Group(active: int, stopping: bool, idle: Option<nat>, closed: set<nat>, made: nat,
      failure: Option<Error>)

  const NO_GROUP := Group(0, false, None, {}, 0, None)

  function Init(g: Group): Group {
    if g.idle.None? then g.(idle := Some(g.made), closed := g.closed + {g.made}, made := g.made + 1) else g
  }

  predicate MayStart(g: Group) { !g.stopping }

  function Start(g: Group): Group {
    var ready := Init(g);
    if ready.stopping then ready
    else
      var open := if ready.active == 0 then ready.(idle := Some(ready.made), made := ready.made + 1) else ready;
      open.(active := open.active + 1)
  }

  function Finish(g: Group, err: Option<Error>): Group
    requires g.idle.Some?
  {
    var noted := if g.stopping && g.failure.None? then g.(failure := err) else g;
    var fewer := noted.(active := noted.active - 1);
    if fewer.active == 0 then fewer.(closed := fewer.closed + {fewer.idle.value}) else fewer
  }

  function Stop(g: Group): Group { Init(g).(stopping := true) }

  // ---------- callers, workers and shutdown together

  datatype Return =
    | ContextEnded
    | LifetimeEnded
    | NeedsReauth
    | Refused
    | Outcome(op: nat, err: Option<Error>)

  /** Where a caller of refreshOwned is: at the top of its loop, waiting for an abandoned operation
      to end, waiting as a member, about to leave with an answer, or back with it. */
  datatype Pc =
    | Ready
    | Blocked(op: nat)
    | Waiting(op: nat)
    | Leaving(op: nat, answer: Return)
    | Back(answer: Return)

  datatype Caller = Caller(account: Account, pc: Pc)

  datatype Join = AwaitIdle(channel: nat) | JoinDone

  datatype System = System(
    inflight: map<Account, nat>, ops: seq<Op>, callers: seq<Caller>,
    group: Group, joins: seq<Join>, late: seq<Option<Error>>) // `late`: completions after stop, in order

  const BOOT := System(map[], [], [], NO_GROUP, [], [])

  datatype Event =
    | Arrive(account: Account)
    | Enter(c: nat, expired: bool, ended: bool, reauth: bool, grouped: bool)
    | Unblock(c: nat, expired: bool)
    | Wake(c: nat, expired: bool)
    | Leave(c: nat)
    | EndExchange(op: nat)
    | Publish(op: nat, err: Option<Error>)
    | Release(op: nat, completion: Option<Error>)
    | BeginJoin
    | EndJoin(j: nat)

  predicate At(s: System, c: nat) { c < |s.callers| }

  function Goto(s: System, c: nat, pc: Pc): System
    requires At(s, c)
  {
    s.(callers := s.callers[c := s.callers[c].(pc := pc)])
  }

  /** The section of refreshOwned under the account lock. */
  function EnterLocked(s: System, c: nat, ended: bool, reauth: bool, grouped: bool): System
    requires At(s, c)
  {
    var account := s.callers[c].account;
    if account in s.inflight && s.inflight[account] < |s.ops| then
      var o := s.inflight[account];
      if s.ops[o].abandoned then Goto(s, c, Blocked(o))
      else Goto(s.(ops := s.ops[o := Joined(s.ops[o])]), c, Waiting(o))
    else if ended then Goto(s, c, Back(LifetimeEnded))
    else if reauth then Goto(s, c, Back(NeedsReauth))
    else if grouped && !MayStart(s.group) then Goto(s.(group := Start(s.group)), c, Back(Refused))
    else
      Goto(s.(ops := s.ops + [Joined(Opened(account, grouped))], inflight := s.inflight[account := |s.ops|],
              group := if grouped then Start(s.group) else s.group), c, Waiting(|s.ops|))
  }

  predicate Current(s: System, o: nat)
    requires o < |s.ops|
  {
    s.ops[o].account in s.inflight && s.inflight[s.ops[o].account] == o
  }

  /** An event whose guard does not hold leaves the system as it is. */
  function Apply(s: System, e: Event): System {
    match e
    case Arrive(account) => s.(callers := s.callers + [Caller(account, Ready)])
    case Enter(c, expired, ended, reauth, grouped) =>
      if !At(s, c) || !s.callers[c].pc.Ready? then s
      else if expired then Goto(s, c, Back(ContextEnded))
      else EnterLocked(s, c, ended, reauth, grouped)
    case Unblock(c, expired) =>
      if !At(s, c) || !s.callers[c].pc.Blocked? || s.callers[c].pc.op >= |s.ops| then s
      else if expired then Goto(s, c, Back(ContextEnded))
      else if s.ops[s.callers[c].pc.op].Done() then Goto(s, c, Ready)
      else s
    case Wake(c, expired) =>
      if !At(s, c) || !s.callers[c].pc.Waiting? || s.callers[c].pc.op >= |s.ops| then s
      else
        var o := s.callers[c].pc.op;
        if expired then Goto(s, c, Leaving(o, ContextEnded))
        else if s.ops[o].Done() then Goto(s, c, Leaving(o, Outcome(o, s.ops[o].err)))
        else s
    case Leave(c) =>
      if !At(s, c) || !s.callers[c].pc.Leaving? || s.callers[c].pc.op >= |s.ops| then s
      else
        var o := s.callers[c].pc.op;
        Goto(s.(ops := s.ops[o := Left(s.ops[o], Current(s, o))]), c, Back(s.callers[c].pc.answer))
    case EndExchange(o) =>
      if o >= |s.ops| || !s.ops[o].phase.Exchanging? then s
      else s.(ops := s.ops[o := s.ops[o].(phase := Completing)])
    case Publish(o, err) =>
      if o >= |s.ops| || !s.ops[o].phase.Completing? then s
      else s.(ops := s.ops[o := s.ops[o].(phase := Published, err := err)], inflight := s.inflight - {s.ops[o].account})
    case Release(o, completion) =>
      if o >= |s.ops| || !s.ops[o].phase.Published? then s
      else
        var released := s.(ops := s.ops[o := s.ops[o].(phase := Released)]);
        if !s.ops[o].registered || s.group.idle.None? then released
        else released.(group := Finish(s.group, completion),
                 late := if s.group.stopping then s.late + [completion] else s.late)
    case BeginJoin =>
      var stopped := Stop(s.group);
      s.(group := stopped, joins := s.joins + [if stopped.idle.Some? then AwaitIdle(stopped.idle.value) else JoinDone])
    case EndJoin(j) =>
      if j >= |s.joins| || !s.joins[j].AwaitIdle? || s.joins[j].channel !in s.group.closed then s
      else s.(joins := s.joins[j := JoinDone])
  }

  datatype Trace = Boot | Then(before: Trace, event: Event)

  function Replay(trace: Trace): System {
    match trace
    case Boot => BOOT
    case Then(before, event) => Apply(Replay(before), event)
  }

  function Extend(s: System, events: seq<Event>): System {
    if events == [] then s else Apply(Extend(s, events[..|events| - 1]), events[|events| - 1])
  }

  // ---------- single flight

  function Member(o: nat): Caller -> bool {
    (c: Caller) => (c.pc.Waiting? || c.pc.Leaving?) && c.pc.op == o
  }

  /** The account points at its one unfinished operation. */
  ghost predicate OneFlight(s: System) {
    && (forall a {:trigger a in s.inflight} :: a in s.inflight ==>
          s.inflight[a] < |s.ops| && s.ops[s.inflight[a]].account == a && !s.ops[s.inflight[a]].Done())
    && (forall o {:trigger s.ops[o]} :: 0 <= o < |s.ops| && !s.ops[o].Done() ==> Current(s, o))
  }

  ghost predicate WaitersCounted(s: System) {
    forall o {:trigger s.ops[o]} :: 0 <= o < |s.ops| ==> s.ops[o].waiters == Count(s.callers, Member(o))
  }

  ghost predicate Attended(s: System) {
    forall o {:trigger s.ops[o]} :: 0 <= o < |s.ops| ==>
      && (s.ops[o].abandoned ==> s.ops[o].waiters == 0)
      && (!s.ops[o].Done() && !s.ops[o].abandoned ==> s.ops[o].waiters >= 1)
      && (s.ops[o].interrupted ==> s.ops[o].abandoned)
      && (s.ops[o].abandoned && s.ops[o].phase.Exchanging? ==> s.ops[o].interrupted)
  }

  /** An answer from an operation is its published one, and the operation was never abandoned. */
  predicate Truthful(s: System, answer: Return) {
    answer.Outcome? ==>
      answer.op < |s.ops| && s.ops[answer.op].Done() && !s.ops[answer.op].abandoned
        && answer.err == s.ops[answer.op].err
  }

  ghost predicate CallersFit(s: System) {
    forall c {:trigger s.callers[c]} :: 0 <= c < |s.callers| ==>
      match s.callers[c].pc
      case Ready => true
      case Blocked(o) => o < |s.ops| && s.ops[o].abandoned
      case Waiting(o) => o < |s.ops|
      case Leaving(o, answer) => o < |s.ops| && Truthful(s, answer)
      case Back(answer) => Truthful(s, answer)
  }

  ghost predicate Flying(s: System) {
    OneFlight(s) && WaitersCounted(s) && Attended(s) && CallersFit(s)
  }

  lemma GotoCounts(s: System, c: nat, pc: Pc, o: nat)
    requires At(s, c)
    ensures Count(Goto(s, c, pc).callers, Member(o)) ==
            Count(s.callers, Member(o)) -
              (if Member(o)(s.callers[c]) then 1 else 0) + (if Member(o)(s.callers[c].(pc := pc)) then 1 else 0)
  {
    CountUpdate(s.callers, c, s.callers[c].(pc := pc), Member(o));
  }

  lemma MemberCounts(s: System, c: nat, o: nat)
    requires At(s, c) && Member(o)(s.callers[c])
    ensures Count(s.callers, Member(o)) >= 1
  {
    CountPositive(s.callers, c, Member(o));
  }

  lemma NoMembersYet(s: System)
    requires CallersFit(s)
    ensures Count(s.callers, Member(|s.ops|)) == 0
  {
    CountZero(s.callers, Member(|s.ops|));
  }

  lemma ArriveFlies(s: System, e: Event)
    requires Flying(s) && e.Arrive?
    ensures Flying(Apply(s, e))
  {
    forall o | 0 <= o < |s.ops|
      ensures Count(s.callers + [Caller(e.account, Ready)], Member(o)) == Count(s.callers, Member(o)) {
      CountAppend(s.callers, Caller(e.account, Ready), Member(o));
    }
  }

  /** A caller that moves without joining or leaving an operation changes nobody's count. */
  lemma MoveFlies(s: System, c: nat, pc: Pc)
    requires Flying(s) && At(s, c)
    requires forall o :: Member(o)(s.callers[c]) <==> Member(o)(s.callers[c].(pc := pc))
    requires CallersFit(Goto(s, c, pc))
    ensures Flying(Goto(s, c, pc))
  {
    forall o | 0 <= o < |s.ops| ensures Count(Goto(s, c, pc).callers, Member(o)) == Count(s.callers, Member(o)) {
      GotoCounts(s, c, pc, o);
    }
  }

  lemma JoinFlies(s: System, c: nat, o: nat)
    requires Flying(s) && At(s, c) && s.callers[c].pc.Ready? && o < |s.ops| && !s.ops[o].abandoned
    ensures Flying(Goto(s.(ops := s.ops[o := Joined(s.ops[o])]), c, Waiting(o)))
  {
    var r := Goto(s.(ops := s.ops[o := Joined(s.ops[o])]), c, Waiting(o));
    forall other | 0 <= other < |s.ops|
      ensures Count(r.callers, Member(other)) == Count(s.callers, Member(other)) + if other == o then 1 else 0
    {
      GotoCounts(s, c, Waiting(o), other);
    }
  }

  lemma OpenFlies(s: System, c: nat, account: Account, grouped: bool, group: Group)
    requires Flying(s) && At(s, c) && s.callers[c].pc.Ready? && account !in s.inflight
    ensures Flying(Goto(s.(ops := s.ops + [Joined(Opened(account, grouped))],
              inflight := s.inflight[account := |s.ops|], group := group), c, Waiting(|s.ops|)))
  {
    var n := |s.ops|;
    var r :=
      Goto(s.(ops := s.ops + [Joined(Opened(account, grouped))], inflight := s.inflight[account := n], group := group),
          c, Waiting(n));
    NoMembersYet(s);
    forall o | 0 <= o <= n
      ensures Count(r.callers, Member(o)) == Count(s.callers, Member(o)) + if o == n then 1 else 0
    {
      GotoCounts(s, c, Waiting(n), o);
    }
    forall o | 0 <= o < |r.ops| && !r.ops[o].Done() ensures Current(r, o) {
      if o < n {
        assert s.ops[o] == r.ops[o] && Current(s, o);
      }
    }
  }

  lemma EnterFlies(s: System, e: Event)
    requires Flying(s) && e.Enter?
    ensures Flying(Apply(s, e))
  {
    if At(s, e.c) && s.callers[e.c].pc.Ready? {
      var account := s.callers[e.c].account;
      if e.expired {
        MoveFlies(s, e.c, Back(ContextEnded));
      } else if account in s.inflight {
        var o := s.inflight[account];
        if s.ops[o].abandoned {
          MoveFlies(s, e.c, Blocked(o));
        } else {
          JoinFlies(s, e.c, o);
        }
      } else if e.ended {
        MoveFlies(s, e.c, Back(LifetimeEnded));
      } else if e.reauth {
        MoveFlies(s, e.c, Back(NeedsReauth));
      } else if e.grouped && !MayStart(s.group) {
        MoveFlies(s, e.c, Back(Refused));
      } else {
        OpenFlies(s, e.c, account, e.grouped, if e.grouped then Start(s.group) else s.group);
      }
    }
  }

  lemma WaitFlies(s: System, e: Event)
    requires Flying(s) && (e.Unblock? || e.Wake?)
    ensures Flying(Apply(s, e))
  {
    var r := Apply(s, e);
    if r != s {
      var o := s.callers[e.c].pc.op;
      if e.Wake? {
        MemberCounts(s, e.c, o);
      }
      MoveFlies(s, e.c, r.callers[e.c].pc);
    }
  }

  lemma LeaveCounts(s: System, c: nat)
    requires Flying(s) && At(s, c) && s.callers[c].pc.Leaving?
    ensures var o := s.callers[c].pc.op; s.ops[o].waiters >= 1 && !s.ops[o].abandoned
    ensures WaitersCounted(Apply(s, Leave(c)))
  {
    var o := s.callers[c].pc.op;
    var r := Apply(s, Leave(c));
    MemberCounts(s, c, o);
    forall other | 0 <= other < |s.ops|
      ensures Count(r.callers, Member(other)) == Count(s.callers, Member(other)) - if other == o then 1 else 0
    {
      GotoCounts(s, c, r.callers[c].pc, other);
    }
  }

  lemma LeaveFlies(s: System, c: nat)
    requires Flying(s)
    ensures Flying(Apply(s, Leave(c)))
  {
    var r := Apply(s, Leave(c));
    if r != s {
      var o := s.callers[c].pc.op;
      LeaveCounts(s, c);
      assert r.ops == s.ops[o := Left(s.ops[o], Current(s, o))];
      assert r.ops[o].abandoned ==> !s.ops[o].Done();
      assert CallersFit(r);
    }
  }

  lemma EndExchangeFlies(s: System, e: Event)
    requires Flying(s) && e.EndExchange?
    ensures Flying(Apply(s, e))
  {
  }

  lemma PublishFlies(s: System, e: Event)
    requires Flying(s) && e.Publish?
    ensures Flying(Apply(s, e))
  {
    var r := Apply(s, e);
    if r != s {
      assert Current(s, e.op);
      forall o | 0 <= o < |r.ops| && !r.ops[o].Done() ensures Current(r, o) {
        assert Current(s, o) && s.ops[o].account != s.ops[e.op].account;
      }
    }
  }

  lemma ReleaseFlies(s: System, e: Event)
    requires Flying(s) && e.Release?
    ensures Flying(Apply(s, e))
  {
  }

  lemma ApplyFlies(s: System, e: Event)
    requires Flying(s)
    ensures Flying(Apply(s, e))
  {
    match e
    case Arrive(_) => ArriveFlies(s, e);
    case Enter(_, _, _, _, _) => EnterFlies(s, e);
    case Unblock(_, _) => WaitFlies(s, e);
    case Wake(_, _) => WaitFlies(s, e);
    case Leave(c) => LeaveFlies(s, c);
    case BeginJoin =>
    case EndJoin(_) =>
    case EndExchange(_) => EndExchangeFlies(s, e);
    case Publish(_, _) => PublishFlies(s, e);
    case Release(_, _) => ReleaseFlies(s, e);
  }

  /** Single flight, in every reachable system. */
  lemma {:induction false} RefreshesAreShared(trace: Trace)
    ensures Flying(Replay(trace))
  {
    if trace.Then? {
      RefreshesAreShared(trace.before);
      ApplyFlies(Replay(trace.before), trace.event);
    }
  }

  /** At most one unfinished operation per account, and an exchange is interrupted exactly when its
      last caller has left it, never while one is on it. */
  lemma WaitersAreServed(trace: Trace, o: nat, other: nat, c: nat)
    requires var s := Replay(trace); o < |s.ops| && other < |s.ops| && c < |s.callers|
    ensures var s := Replay(trace);
            && (!s.ops[o].Done() && !s.ops[other].Done() && s.ops[o].account == s.ops[other].account ==> o == other)
            && (Member(o)(s.callers[c]) ==> !s.ops[o].abandoned && !s.ops[o].interrupted)
            && (s.ops[o].phase.Exchanging? ==> (s.ops[o].interrupted <==> Count(s.callers, Member(o)) == 0))
            && (s.callers[c].pc.Back? && s.callers[c].pc.answer.Outcome? ==> Truthful(s, s.callers[c].pc.answer))
  {
    RefreshesAreShared(trace);
    var s := Replay(trace);
    if Member(o)(s.callers[c]) {
      MemberCounts(s, c, o);
    }
  }

  lemma ExtendFlies(s: System, events: seq<Event>)
    requires Flying(s)
    ensures Flying(Extend(s, events))
  {
    if events != [] {
      ExtendFlies(s, events[..|events| - 1]);
      ApplyFlies(Extend(s, events[..|events| - 1]), events[|events| - 1]);
    }
  }

  lemma ApplyKeepsAbandoned(s: System, e: Event, o: nat)
    requires Flying(s) && o < |s.ops| && s.ops[o].abandoned
    ensures o < |Apply(s, e).ops| && Apply(s, e).ops[o].abandoned
  {
  }

  /** An abandoned operation is never joined again and nobody ever returns its result. */
  lemma {:induction false} AbandonedForever(s: System, events: seq<Event>, o: nat)
    requires Flying(s) && o < |s.ops| && s.ops[o].abandoned
    ensures var r := Extend(s, events);
            && o < |r.ops| && r.ops[o].abandoned && r.ops[o].waiters == 0
            && forall c :: 0 <= c < |r.callers| && r.callers[c].pc.Back? && r.callers[c].pc.answer.Outcome? ==>
                 r.callers[c].pc.answer.op != o
  {
    ExtendFlies(s, events);
    if events != [] {
      AbandonedForever(s, events[..|events| - 1], o);
      ExtendFlies(s, events[..|events| - 1]);
      ApplyKeepsAbandoned(Extend(s, events[..|events| - 1]), events[|events| - 1], o);
    }
  }

  // ---------- shutdown

  function Working(): Op -> bool { (op: Op) => op.Busy() }

  ghost function FirstError(errors: seq<Option<Error>>): Option<Error> {
    if errors == [] then None
    else if FirstError(errors[..|errors| - 1]).Some? then FirstError(errors[..|errors| - 1])
    else errors[|errors| - 1]
  }

  /** The idle channel is closed exactly when nothing registered is running. */
  ghost predicate IdleFits(g: Group) {
    && g.active >= 0
    && (forall channel {:trigger channel in g.closed} :: channel in g.closed ==> channel < g.made)
    && (if g.idle.None? then g.active == 0 && !g.stopping
        else g.idle.value < g.made && (g.idle.value in g.closed <==> g.active == 0))
  }

  ghost predicate JoinsFit(joins: seq<Join>, g: Group) {
    && (joins != [] ==> g.stopping)
    && forall j {:trigger joins[j]} :: 0 <= j < |joins| ==>
         if joins[j].JoinDone? then g.active == 0 else g.idle == Some(joins[j].channel)
  }

  ghost predicate GroupFits(s: System) {
    && IdleFits(s.group) && JoinsFit(s.joins, s.group)
    && s.group.active == Count(s.ops, Working())
    && s.group.failure == FirstError(s.late) && (!s.group.stopping ==> s.late == [])
  }

  lemma OpenGroupFits(s: System, account: Account, grouped: bool)
    requires GroupFits(s) && (grouped ==> MayStart(s.group))
    ensures GroupFits(s.(ops := s.ops + [Joined(Opened(account, grouped))],
              group := if grouped then Start(s.group) else s.group))
  {
    CountAppend(s.ops, Joined(Opened(account, grouped)), Working());
  }

  lemma EnterGroupFits(s: System, e: Event)
    requires Flying(s) && GroupFits(s) && e.Enter?
    ensures GroupFits(Apply(s, e))
  {
    if At(s, e.c) && s.callers[e.c].pc.Ready? && !e.expired {
      var account := s.callers[e.c].account;
      if account in s.inflight {
        var o := s.inflight[account];
        CountUpdate(s.ops, o, Joined(s.ops[o]), Working());
      } else if !e.ended && !e.reauth && (e.grouped ==> MayStart(s.group)) {
        OpenGroupFits(s, account, e.grouped);
      }
    }
  }

  lemma OpGroupFits(s: System, e: Event)
    requires Flying(s) && GroupFits(s) && (e.Leave? || e.EndExchange? || e.Publish?)
    ensures GroupFits(Apply(s, e))
  {
    var r := Apply(s, e);
    if r != s {
      var o := if e.Leave? then s.callers[e.c].pc.op else e.op;
      assert r.ops == s.ops[o := r.ops[o]];
      CountUpdate(s.ops, o, r.ops[o], Working());
    }
  }

  /** The worker that finishes last closes the channel, which is open until then. */
  lemma ReleaseGroupFits(s: System, o: nat, completion: Option<Error>)
    requires Flying(s) && GroupFits(s) && o < |s.ops| && s.ops[o].phase.Published?
    ensures GroupFits(Apply(s, Release(o, completion)))
    ensures s.ops[o].registered ==> s.group.idle.Some? && s.group.idle.value !in s.group.closed
  {
    var released := s.ops[o].(phase := Released);
    CountUpdate(s.ops, o, released, Working());
    if s.ops[o].registered {
      CountPositive(s.ops, o, Working());
      assert (s.late + [completion])[..|s.late|] == s.late;
    }
  }

  lemma JoinGroupFits(s: System, e: Event)
    requires GroupFits(s) && (e.BeginJoin? || e.EndJoin?)
    ensures GroupFits(Apply(s, e))
  {
  }

  lemma ApplyGroupFits(s: System, e: Event)
    requires Flying(s) && GroupFits(s)
    ensures GroupFits(Apply(s, e))
  {
    match e
    case Arrive(_) =>
    case Enter(_, _, _, _, _) => EnterGroupFits(s, e);
    case Unblock(_, _) =>
    case Wake(_, _) =>
    case Release(o, completion) => if o < |s.ops| && s.ops[o].phase.Published? { ReleaseGroupFits(s, o, completion); }
    case BeginJoin => JoinGroupFits(s, e);
    case EndJoin(_) => JoinGroupFits(s, e);
    case _ => OpGroupFits(s, e);
  }

  lemma {:induction false} GroupAlwaysFits(trace: Trace)
    ensures GroupFits(Replay(trace))
  {
    if trace.Then? {
      GroupAlwaysFits(trace.before);
      RefreshesAreShared(trace.before);
      ApplyGroupFits(Replay(trace.before), trace.event);
    }
  }

  lemma {:induction false} ExtendGroupFits(s: System, events: seq<Event>)
    requires Flying(s) && GroupFits(s)
    ensures Flying(Extend(s, events)) && GroupFits(Extend(s, events))
  {
    if events != [] {
      ExtendGroupFits(s, events[..|events| - 1]);
      ApplyFlies(Extend(s, events[..|events| - 1]), events[|events| - 1]);
      ApplyGroupFits(Extend(s, events[..|events| - 1]), events[|events| - 1]);
    }
  }

  lemma ApplyKeepsStop(s: System, e: Event)
    requires GroupFits(s) && s.group.stopping
    ensures Apply(s, e).group.stopping && Apply(s, e).group.idle == s.group.idle
    ensures forall j :: 0 <= j < |s.joins| && s.joins[j].JoinDone? ==>
      j < |Apply(s, e).joins| && Apply(s, e).joins[j].JoinDone?
  {
  }

  /** Once `wait` has returned, no registered worker is running and none ever starts; its channel
      is the one that every later `wait` uses. */
  lemma {:induction false} ShutdownJoins(trace: Trace, events: seq<Event>, j: nat)
    requires j < |Replay(trace).joins| && Replay(trace).joins[j].JoinDone?
    ensures var s := Extend(Replay(trace), events);
            && s.group.stopping && s.group.idle == Replay(trace).group.idle
            && j < |s.joins| && s.joins[j].JoinDone?
            && forall o :: 0 <= o < |s.ops| ==> !s.ops[o].Busy()
  {
    RefreshesAreShared(trace);
    GroupAlwaysFits(trace);
    ExtendGroupFits(Replay(trace), events);
    if events != [] {
      ShutdownJoins(trace, events[..|events| - 1], j);
      ExtendGroupFits(Replay(trace), events[..|events| - 1]);
      ApplyKeepsStop(Extend(Replay(trace), events[..|events| - 1]), events[|events| - 1]);
    }
    var s := Extend(Replay(trace), events);
    forall o | 0 <= o < |s.ops| ensures !s.ops[o].Busy() {
      if s.ops[o].Busy() {
        CountPositive(s.ops, o, Working());
      }
    }
  }
}
