/** Concrete runs of the ownership protocol: one in which an acceptance's stamp loses the race for
    its durable row, and one in which a claim that returns to its first account breaks the mirror. */
module OwnershipRuns {
  import opened Wrappers
  import opened Counting
  import opened RouteClaims
  import opened RouteStore
  import opened ClaimRuns
  import opened RouteOwnership

  function On(account: Account, key: Key, refs: int, committed: bool): Claim {
    Claim(account, "", "fresh", [key], refs, false, committed)
  }

  function Opening(key: Key, durable: Account, account: Account): Op {
    Select([key], Durable(durable, ""), Decision(Some(account), "", "", "fresh"))
  }

  lemma AttachOne(reg: Registry, id: nat, key: Key)
    requires Partition(reg) && id in reg.claims && !reg.claims[id].committed
    ensures Attach(reg, id, [key]) == Take(reg, id, key)
    ensures ClaimsFor(reg, [key]) == if key in reg.byKey then [reg.byKey[key]] else []
  {
    assert [key][..0] == [];
  }

  lemma OpensRegistry(reg: Registry, key: Key, account: Account)
    requires Partition(reg) && key !in reg.byKey
    ensures var id := reg.next + 1;
            Attach(Begin(reg, account, "", "fresh"), id, [key]) ==
            Registry(id, reg.byKey[key := id], reg.claims[id := On(account, key, 1, false)], reg.barriers)
  {
    var begun := Begin(reg, account, "", "fresh");
    AttachOne(begun, begun.next, key);
    assert [] + [key] == [key];
  }

  /** A conversation whose key nobody holds opens a claim, unless its durable owner is picked. */
  lemma OpensClaim(t: Table, key: Key, durable: Account, account: Account)
    requires Partition(t.reg) && key !in t.reg.byKey && account != "" && account != durable
    ensures var id := t.reg.next + 1;
            Step(t, Opening(key, durable, account)) ==
            Table(Registry(id, t.reg.byKey[key := id], t.reg.claims[id := On(account, key, 1, false)], t.reg.barriers),
                  t.handles + [Handle(id, account, false)])
  {
    assert [key][..0] == [];
    assert ClaimsFor(t.reg, [key]) == [];
    OpensRegistry(t.reg, key, account);
  }

  lemma JoinsRegistry(reg: Registry, key: Key, account: Account, refs: int)
    requires Partition(reg) && key in reg.byKey && reg.claims[reg.byKey[key]] == On(account, key, refs, false)
    ensures Join(reg, reg.byKey[key], [key]) ==
            reg.(claims := reg.claims[reg.byKey[key] := On(account, key, refs + 1, false)])
    ensures ClaimsFor(reg, [key]) == [reg.byKey[key]] && FirstOn(reg, [reg.byKey[key]], account) == Some(reg.byKey[key])
  {
    AttachOne(reg, reg.byKey[key], key);
  }

  /** The next connection of the conversation joins that claim. */
  lemma JoinsClaim(t: Table, key: Key, durable: Account, account: Account, refs: int)
    requires Partition(t.reg) && key in t.reg.byKey && t.reg.claims[t.reg.byKey[key]] == On(account, key, refs, false)
    ensures var id := t.reg.byKey[key];
            Step(t, Opening(key, durable, account)) ==
            Table(t.reg.(claims := t.reg.claims[id := On(account, key, refs + 1, false)]),
                t.handles + [Handle(id, account, false)])
  {
    var id := t.reg.byKey[key];
    JoinsRegistry(t.reg, key, account, refs);
    assert !Conflicts(t.reg, id, [id]);
  }

  // ---------- extending a run

  function Selected(trace: Trace, op: Op): Trace { Then(trace, Section(op)) }

  function AcceptedBy(trace: Trace, h: nat, account: Account, key: Key, stamp: int, moved: bool): Trace {
    Then(Then(Then(Then(trace, AcceptBegin(Some(h), account, [key], stamp)), AcceptRecord(true)), AcceptLog(moved)),
        AcceptFinish)
  }

  function Invalidated(trace: Trace, account: Account): Trace {
    Then(Then(Then(trace, Stamp), InvalidateSection(account)), PreserveWrite(true))
  }

  lemma Extends(trace: Trace, e: Event)
    requires NoClaimReturns(trace) && (e.Section? ==> !e.op.DoTransfer?)
    ensures NoClaimReturns(Then(trace, e))
  {
  }

  /** Selections may come at any time. */
  lemma SelectExtends(trace: Trace, op: Op)
    requires op.Select? && NoClaimReturns(trace)
    ensures Replay(Selected(trace, op)) == Replay(trace).(table := Step(Replay(trace).table, op))
    ensures NoClaimReturns(Selected(trace, op))
  {
    Extends(trace, Section(op));
  }

  lemma ReplayAccepted(trace: Trace, h: nat, account: Account, key: Key, stamp: int, moved: bool)
    ensures Replay(AcceptedBy(trace, h, account, key, stamp, moved)) ==
            AcceptRun(Replay(trace), Some(h), account, [key], stamp, true, moved)
  {
    var begun := Then(trace, AcceptBegin(Some(h), account, [key], stamp));
    var recorded := Then(begun, AcceptRecord(true));
    var logged := Then(recorded, AcceptLog(moved));
    assert Replay(begun) == Apply(Replay(trace), AcceptBegin(Some(h), account, [key], stamp));
    assert Replay(recorded) == Apply(Replay(begun), AcceptRecord(true));
    assert Replay(logged) == Apply(Replay(recorded), AcceptLog(moved));
  }

  lemma AcceptExtends(trace: Trace, h: nat, account: Account, key: Key, stamp: int, moved: bool)
    requires NoClaimReturns(trace)
    ensures NoClaimReturns(AcceptedBy(trace, h, account, key, stamp, moved))
  {
    var begun := Then(trace, AcceptBegin(Some(h), account, [key], stamp));
    Extends(trace, AcceptBegin(Some(h), account, [key], stamp));
    Extends(begun, AcceptRecord(true));
    Extends(Then(begun, AcceptRecord(true)), AcceptLog(moved));
    Extends(Then(Then(begun, AcceptRecord(true)), AcceptLog(moved)), AcceptFinish);
  }

  lemma ReplayInvalidated(trace: Trace, account: Account)
    ensures Replay(Invalidated(trace, account)) == FenceRun(Replay(trace), InvalidateSection(account), true)
  {
    var stamped := Then(trace, Stamp);
    var fenced := Then(stamped, InvalidateSection(account));
    assert Replay(stamped) == Apply(Replay(trace), Stamp);
    assert Replay(fenced) == Apply(Replay(stamped), InvalidateSection(account));
  }

  lemma InvalidateExtends(trace: Trace, account: Account)
    requires NoClaimReturns(trace)
    ensures NoClaimReturns(Invalidated(trace, account))
  {
    Extends(trace, Stamp);
    Extends(Then(trace, Stamp), InvalidateSection(account));
    Extends(Then(Then(trace, Stamp), InvalidateSection(account)), PreserveWrite(true));
  }

  /** Invalidating an account that claims just one key leaves the key's barrier and its row. */
  lemma Fences(w: World, key: Key, account: Account)
    requires Partition(w.table.reg) && w.owner.Free? && KeysOn(w.table.reg, account) == {key}
             && Yields(w.rows, key, w.clock)
    ensures FenceRun(w, InvalidateSection(account), true) ==
            w.(table := Step(w.table, DoInvalidate(account)), rows := w.rows[key := Row(account, w.clock)],
                lost := w.lost - {key})
  {
    FenceRunIsWalled(w, account, true);
    assert Upsert(w.rows, w.clock, account, {key}) == w.rows[key := Row(account, w.clock)];
  }

  // ---------- the tables on the way

  /** The claim of `a`'s connections on the key. */
  function Alone(key: Key, a: Account, refs: int, committed: bool): Registry {
    Registry(1, if committed then map[] else map[key := 1], map[1 := On(a, key, refs, committed)], map[])
  }

  /** The committed claim on `a`, and the claim on `b` that now holds the key. */
  function Both(key: Key, a: Account, b: Account): Registry {
    Registry(2, map[key := 2], map[1 := On(a, key, 1, true), 2 := On(b, key, 1, false)], map[])
  }

  /** The barrier on the key, and the claim on `b` that holds it. */
  function Guarded(key: Key, a: Account, b: Account, refs: int): Registry {
    Registry(2, map[key := 2], map[2 := On(b, key, refs, false)], map[key := a])
  }

  lemma AloneFits(key: Key, a: Account, refs: int, committed: bool)
    ensures Partition(Alone(key, a, refs, committed))
  {
  }

  lemma BothFits(key: Key, a: Account, b: Account)
    ensures Partition(Both(key, a, b))
  {
  }

  lemma GuardedFits(key: Key, a: Account, b: Account, refs: int)
    ensures Partition(Guarded(key, a, b, refs))
  {
  }

  lemma OpensAlone(key: Key, a: Account)
    requires a != ""
    ensures Step(START, Opening(key, "", a)) == Table(Alone(key, a, 1, false), [Handle(1, a, false)])
  {
    OpensClaim(START, key, "", a);
    assert START.handles + [Handle(1, a, false)] == [Handle(1, a, false)];
  }

  lemma JoinsAlone(key: Key, a: Account)
    ensures Partition(Alone(key, a, 1, false))
    ensures Step(Table(Alone(key, a, 1, false), [Handle(1, a, false)]), Opening(key, "", a)) ==
            Table(Alone(key, a, 2, false), [Handle(1, a, false), Handle(1, a, false)])
  {
    AloneFits(key, a, 1, false);
    JoinsClaim(Table(Alone(key, a, 1, false), [Handle(1, a, false)]), key, "", a, 1);
    assert [Handle(1, a, false)] + [Handle(1, a, false)] == [Handle(1, a, false), Handle(1, a, false)];
    assert Alone(key, a, 1, false).claims[1 := On(a, key, 2, false)] == map[1 := On(a, key, 2, false)];
  }

  lemma CommitsAlone(key: Key, a: Account)
    ensures Partition(Alone(key, a, 2, false))
    ensures Step(Table(Alone(key, a, 2, false), [Handle(1, a, false), Handle(1, a, false)]), DoCommit(0, [key])) ==
            Table(Alone(key, a, 1, true), [Handle(1, a, true), Handle(1, a, false)])
  {
    AloneFits(key, a, 2, false);
  }

  lemma OpensBoth(key: Key, a: Account, b: Account)
    requires b != "" && a != b
    ensures Partition(Alone(key, a, 1, true))
    ensures Step(Table(Alone(key, a, 1, true), [Handle(1, a, true), Handle(1, a, false)]), Opening(key, a, b)) ==
            Table(Both(key, a, b), [Handle(1, a, true), Handle(1, a, false), Handle(2, b, false)])
  {
    AloneFits(key, a, 1, true);
    var t := Table(Alone(key, a, 1, true), [Handle(1, a, true), Handle(1, a, false)]);
    OpensClaim(t, key, a, b);
    assert t.handles + [Handle(2, b, false)] == [Handle(1, a, true), Handle(1, a, false), Handle(2, b, false)];
    assert map[1 := On(a, key, 1, true)][2 := On(b, key, 1, false)] ==
           map[1 := On(a, key, 1, true), 2 := On(b, key, 1, false)];
  }

  /** The committed claim fences the key although the key is held by the claim on `b`. */
  lemma FencesBoth(key: Key, a: Account, b: Account)
    requires a != b
    ensures Partition(Both(key, a, b)) && KeysOn(Both(key, a, b), a) == {key}
    ensures Invalidate(Both(key, a, b), a) == Guarded(key, a, b, 1)
  {
    BothFits(key, a, b);
    assert key in Both(key, a, b).claims[1].keys;
    assert ClaimsOn(Both(key, a, b), a) == {1};
    assert KeysOf(Both(key, a, b), {1}) == {key};
  }

  lemma FencesAlone(key: Key, a: Account)
    ensures Partition(Alone(key, a, 1, false)) && KeysOn(Alone(key, a, 1, false), a) == {key}
    ensures Invalidate(Alone(key, a, 1, false), a) == Registry(1, map[], map[], map[key := a])
  {
    AloneFits(key, a, 1, false);
    assert key in Alone(key, a, 1, false).claims[1].keys;
    assert ClaimsOn(Alone(key, a, 1, false), a) == {1};
  }

  lemma OpensGuarded(key: Key, a: Account, b: Account)
    requires b != "" && a != b
    ensures Partition(Registry(1, map[], map[], map[key := a]))
    ensures Step(Table(Registry(1, map[], map[], map[key := a]), [Handle(1, a, false)]), Opening(key, a, b)) ==
            Table(Guarded(key, a, b, 1), [Handle(1, a, false), Handle(2, b, false)])
  {
    var t := Table(Registry(1, map[], map[], map[key := a]), [Handle(1, a, false)]);
    OpensClaim(t, key, a, b);
    assert t.handles + [Handle(2, b, false)] == [Handle(1, a, false), Handle(2, b, false)];
  }

  lemma OneMoreRef(key: Key, a: Account, b: Account)
    ensures var reg := Guarded(key, a, b, 1);
            reg.(claims := reg.claims[2 := On(b, key, 2, false)]) == Guarded(key, a, b, 2)
  {
    assert map[2 := On(b, key, 1, false)][2 := On(b, key, 2, false)] == map[2 := On(b, key, 2, false)];
  }

  lemma ThirdHandle(x: Handle, y: Handle)
    ensures [x, y] + [y] == [x, y, y]
  {
  }

  lemma JoinsGuarded(key: Key, a: Account, b: Account)
    ensures Partition(Guarded(key, a, b, 1))
    ensures Step(Table(Guarded(key, a, b, 1), [Handle(1, a, false), Handle(2, b, false)]), Opening(key, a, b)) ==
            Table(Guarded(key, a, b, 2), [Handle(1, a, false), Handle(2, b, false), Handle(2, b, false)])
  {
    GuardedFits(key, a, b, 1);
    JoinsClaim(Table(Guarded(key, a, b, 1), [Handle(1, a, false), Handle(2, b, false)]), key, a, b, 1);
    OneMoreRef(key, a, b);
    ThirdHandle(Handle(1, a, false), Handle(2, b, false));
  }

  // ---------- the stamp that loses

  /** Two connections share a claim on `a`, and one of them is accepted. */
  lemma AcceptedRun(key: Key, a: Account) returns (trace: Trace)
    requires a != ""
    ensures NoClaimReturns(trace)
    ensures Replay(trace) ==
            World(Table(Alone(key, a, 1, true), [Handle(1, a, true), Handle(1, a, false)]), map[key := Row(a, 0)], 0,
                Free, {})
  {
    var shared := SharedRun(key, a);
    trace := AcceptedBy(shared, 0, a, key, 0, false);
    AcceptExtends(shared, 0, a, key, 0, false);
    ReplayAccepted(shared, 0, a, key, 0, false);
    AcceptRunIsAccepted(Replay(shared), Some(0), a, [key], 0, true, false);
    CommitsAlone(key, a);
    assert Upsert(map[], 0, a, KeySet([key])) == map[key := Row(a, 0)];
  }

  lemma SharedRun(key: Key, a: Account) returns (trace: Trace)
    requires a != ""
    ensures NoClaimReturns(trace)
    ensures Replay(trace) ==
            World(Table(Alone(key, a, 2, false), [Handle(1, a, false), Handle(1, a, false)]), map[], 0, Free, {})
  {
    var op := Opening(key, "", a);
    OpensAlone(key, a);
    SelectExtends(Boot, op);
    JoinsAlone(key, a);
    SelectExtends(Selected(Boot, op), op);
    trace := Selected(Selected(Boot, op), op);
  }

  /** The conversation moves on to `b`, and at 1 `a` is invalidated. */
  lemma OvertakenRun(key: Key, a: Account, b: Account) returns (trace: Trace)
    requires a != "" && b != "" && a != b
    ensures NoClaimReturns(trace)
    ensures Replay(trace) ==
            World(Table(Guarded(key, a, b, 1), [Handle(1, a, true), Handle(1, a, false), Handle(2, b, false)]),
                map[key := Row(a, 1)], 1, Free, {})
  {
    var late := LateRun(key, a, b);
    trace := Invalidated(late, a);
    InvalidateExtends(late, a);
    ReplayInvalidated(late, a);
    FencesOvertaken(key, a, b);
  }

  lemma FencesOvertaken(key: Key, a: Account, b: Account)
    requires a != b
    ensures Partition(Both(key, a, b))
    ensures var handles := [Handle(1, a, true), Handle(1, a, false), Handle(2, b, false)];
            var w := World(Table(Both(key, a, b), handles), map[key := Row(a, 0)], 1, Free, {});
            FenceRun(w, InvalidateSection(a), true) ==
            World(Table(Guarded(key, a, b, 1), handles), map[key := Row(a, 1)], 1, Free, {})
  {
    FencesBoth(key, a, b);
    var handles := [Handle(1, a, true), Handle(1, a, false), Handle(2, b, false)];
    Fences(World(Table(Both(key, a, b), handles), map[key := Row(a, 0)], 1, Free, {}), key, a);
    assert map[key := Row(a, 0)][key := Row(a, 1)] == map[key := Row(a, 1)];
  }

  lemma LateRun(key: Key, a: Account, b: Account) returns (trace: Trace)
    requires a != "" && b != "" && a != b
    ensures NoClaimReturns(trace)
    ensures Replay(trace) ==
            World(Table(Both(key, a, b), [Handle(1, a, true), Handle(1, a, false), Handle(2, b, false)]),
                map[key := Row(a, 0)], 1, Free, {})
  {
    var accepted := AcceptedRun(key, a);
    OpensBoth(key, a, b);
    SelectExtends(accepted, Opening(key, a, b));
    Extends(Selected(accepted, Opening(key, a, b)), Tick);
    trace := Then(Selected(accepted, Opening(key, a, b)), Tick);
  }

  /** A run in which the stamp loses the race: the response of `b`, stamped at 0, is accepted after
      the invalidation of `a` at 1. The row of the conversation still names `a`, and the barrier
      that said so is gone. */
  lemma StampLoses(key: Key, a: Account, b: Account) returns (before: Trace)
    requires a != "" && b != "" && a != b
    ensures NoClaimReturns(AcceptedBy(before, 2, b, key, 0, true))
    ensures ActiveHandle(Replay(before).table, 2) && Replay(before).table.handles[2].account == b
    ensures Replay(before).table.reg.barriers == map[key := a]
    ensures var w := Replay(AcceptedBy(before, 2, b, key, 0, true));
            w.owner.Free? && w.rows == map[key := Row(a, 1)] && key !in w.table.reg.barriers
  {
    before := OvertakenRun(key, a, b);
    AcceptExtends(before, 2, b, key, 0, true);
    ReplayAccepted(before, 2, b, key, 0, true);
    AcceptanceOwnsRow(Replay(before), Some(2), b, [key], 0, true, key);
    AcceptRunIsAccepted(Replay(before), Some(2), b, [key], 0, true, true);
    assert Upsert(map[key := Row(a, 1)], 0, b, KeySet([key])) == map[key := Row(a, 1)];
  }

  // ---------- the claim that returns

  /** `a` is invalidated under an open claim, and two connections go on together on `b`. */
  lemma BarrieredRun(key: Key, a: Account, b: Account) returns (trace: Trace)
    requires a != "" && b != "" && a != b
    ensures NoClaimReturns(trace)
    ensures Replay(trace) ==
            World(Table(Guarded(key, a, b, 2), [Handle(1, a, false), Handle(2, b, false), Handle(2, b, false)]),
                map[key := Row(a, 0)], 0, Free, {})
  {
    var fenced := FencedRun(key, a);
    var op := Opening(key, a, b);
    OpensGuarded(key, a, b);
    SelectExtends(fenced, op);
    JoinsGuarded(key, a, b);
    SelectExtends(Selected(fenced, op), op);
    trace := Selected(Selected(fenced, op), op);
  }

  lemma FencedRun(key: Key, a: Account) returns (trace: Trace)
    requires a != ""
    ensures NoClaimReturns(trace)
    ensures Replay(trace) ==
            World(Table(Registry(1, map[], map[], map[key := a]), [Handle(1, a, false)]), map[key := Row(a, 0)], 0,
                Free, {})
  {
    var claimed := ClaimedRun(key, a);
    trace := Invalidated(claimed, a);
    InvalidateExtends(claimed, a);
    ReplayInvalidated(claimed, a);
    FencesClaimed(key, a);
  }

  lemma ClaimedRun(key: Key, a: Account) returns (trace: Trace)
    requires a != ""
    ensures NoClaimReturns(trace)
    ensures Replay(trace) == World(Table(Alone(key, a, 1, false), [Handle(1, a, false)]), map[], 0, Free, {})
  {
    OpensAlone(key, a);
    SelectExtends(Boot, Opening(key, "", a));
    trace := Selected(Boot, Opening(key, "", a));
  }

  lemma FencesClaimed(key: Key, a: Account)
    ensures Partition(Alone(key, a, 1, false))
    ensures FenceRun(World(Table(Alone(key, a, 1, false), [Handle(1, a, false)]), map[], 0, Free, {}),
              InvalidateSection(a), true) ==
            World(Table(Registry(1, map[], map[], map[key := a]), [Handle(1, a, false)]), map[key := Row(a, 0)], 0,
                Free, {})
  {
    FencesAlone(key, a);
    Fences(World(Table(Alone(key, a, 1, false), [Handle(1, a, false)]), map[], 0, Free, {}), key, a);
  }

  /** One of the two moves the claim away and back and is accepted; before the barrier is cleared the
      other releases its handle. */
  function Returned(trace: Trace, key: Key, b: Account, away: Account): Trace {
    var moved := Selected(Selected(trace, DoTransfer(1, away, "", "")), DoTransfer(3, b, "", ""));
    var recorded := Then(Then(moved, AcceptBegin(Some(4), "", [key], 0)), AcceptRecord(true));
    Then(Then(Then(recorded, Section(DoRelease(2))), AcceptLog(false)), AcceptFinish)
  }

  lemma ReplayReturned(trace: Trace, key: Key, b: Account, away: Account)
    ensures var back :=
              Apply(Apply(Replay(trace), Section(DoTransfer(1, away, "", ""))), Section(DoTransfer(3, b, "", "")));
            var recorded := Apply(Apply(back, AcceptBegin(Some(4), "", [key], 0)), AcceptRecord(true));
            Replay(Returned(trace, key, b, away)) ==
            Apply(Apply(Apply(recorded, Section(DoRelease(2))), AcceptLog(false)), AcceptFinish)
  {
    var moved := Selected(Selected(trace, DoTransfer(1, away, "", "")), DoTransfer(3, b, "", ""));
    var recorded := Then(Then(moved, AcceptBegin(Some(4), "", [key], 0)), AcceptRecord(true));
    assert Replay(moved) ==
           Apply(Replay(Selected(trace, DoTransfer(1, away, "", ""))), Section(DoTransfer(3, b, "", "")));
    assert Replay(recorded) == Apply(Replay(Then(moved, AcceptBegin(Some(4), "", [key], 0))), AcceptRecord(true));
    var logged := Then(Then(recorded, Section(DoRelease(2))), AcceptLog(false));
    assert Replay(logged) == Apply(Replay(Then(recorded, Section(DoRelease(2)))), AcceptLog(false));
  }

  /** A run from the start that breaks the mirror: no claim had returned before, and nothing was lost. */
  lemma MirrorBreaks(key: Key, a: Account, b: Account, away: Account) returns (before: Trace)
    requires a != "" && b != "" && a != b && away != ""
    ensures NoClaimReturns(before) && Replay(before).lost == {} && Good(Replay(before))
    ensures var w := Replay(Returned(before, key, b, away)); w.owner.Free? && !Mirrored(w)
    ensures !NoClaimReturns(Returned(before, key, b, away)) && !AlwaysEndsClean(Returned(before, key, b, away))
  {
    before := BarrieredRun(key, a, b);
    StaysGood(before);
    BarrieredFits(Replay(before), key, a, b);
    ReturningClaimBreaksMirror(Replay(before), 1, 2, away, key);
    ReplayReturned(before, key, b, away);
    MirroredExactly(Returned(before, key, b, away));
    if NoClaimReturns(Returned(before, key, b, away)) {
      NoReturnHoldsClaim(Returned(before, key, b, away));
      HoldingEndsClean(Returned(before, key, b, away));
    }
  }

  /** The connection at 0 moves the shared claim away; the one at 1 stays behind. */
  lemma MovesShared(key: Key, a: Account, away: Account)
    requires away != "" && a != away
    ensures Partition(Alone(key, a, 2, false))
    ensures var shared := Table(Alone(key, a, 2, false), [Handle(1, a, false), Handle(1, a, false)]);
            var t := Step(shared, DoTransfer(0, away, "", ""));
            && t.handles == [Handle(1, a, true), Handle(1, a, false), Handle(1, away, false)]
            && CanTransfer(t.reg, 1, away)
  {
    AloneFits(key, a, 2, false);
    var t := Table(Alone(key, a, 2, false), [Handle(1, a, false), Handle(1, a, false)]);
    assert CanTransfer(t.reg, 1, a);
    TransferMoves(t, 0, away);
  }

  lemma WaitsBehind(t: Table, a: Account, away: Account)
    requires a != "" && CanTransfer(t.reg, 1, away)
    requires t.handles == [Handle(1, a, true), Handle(1, a, false), Handle(1, away, false)]
    ensures !MovesToNewAccount(t, DoTransfer(2, a, "", ""))
  {
    CountPositive(Spend(t.handles, 2), 1, Holds(1, a));
  }

  /** A returning claim need not break it: here one returns, and the mirror holds all along. */
  lemma ReturnSpares(key: Key, a: Account, away: Account) returns (trace: Trace)
    requires a != "" && away != "" && a != away
    ensures !NoClaimReturns(trace) && AlwaysMirrored(trace)
  {
    var shared := SharedRun(key, a);
    NoReturnHoldsClaim(shared);
    HoldingEndsClean(shared);
    MovesShared(key, a, away);
    var moved := Selected(shared, DoTransfer(0, away, "", ""));
    WaitsBehind(Replay(moved).table, a, away);
    trace := Selected(moved, DoTransfer(2, a, "", ""));
    MirroredExactly(trace);
  }

  lemma BarrieredFits(w: World, key: Key, a: Account, b: Account)
    requires a != b
             && w.table == Table(Guarded(key, a, b, 2), [Handle(1, a, false), Handle(2, b, false), Handle(2, b, false)])
    ensures CanTransfer(w.table.reg, 2, b) && Unspent(w.table, 1) && Unspent(w.table, 2) && |w.table.handles| == 3
    ensures key in w.table.reg.barriers && w.table.reg.barriers[key] != b
  {
  }
}
