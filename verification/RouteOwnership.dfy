/** The route ownership protocol: acceptances, invalidations and preservations hold the
    routeOwnership lock across several registry and database sections, while selections and
    releases take the registry mutex only and may come between any two of them. */
module RouteOwnership {
  import opened Wrappers
  import opened RouteClaims
  import opened RouteStore
  import opened ClaimRuns

  /** Who holds routeOwnership, and how far it has come. */
  datatype Owner =
    | Free
    | Accepting(h: Option<nat>, account: Account, keys: seq<Key>, at: int) // route checked, row not written
    | Recorded(h: Option<nat>, account: Account, keys: seq<Key>, persisted: bool) // switch not yet logged
    | Finishing(h: Option<nat>, keys: seq<Key>, persisted: bool) // claim not yet committed
    | Stamped(at: int) // about to invalidate or preserve
    | Preserving(at: int, account: Account, fenced: set<Key>) // barriers set, rows not written

  /** `lost` are the keys whose last barrier the database refused. */
  datatype World = World(table: Table, rows: Rows, clock: int, owner: Owner, lost: set<Key>)

  datatype Event =
    | Tick
    | Section(op: Op) // a registry section outside the acceptance and invalidation paths
    | AcceptBegin(claim: Option<nat>, account: Account, route: seq<Key>, stamp: int)
    | AcceptRecord(committed: bool)
    | AcceptLog(moved: bool)
    | AcceptFinish
    | Stamp
    | InvalidateSection(account: Account)
    | PreserveSection(h: nat)
    | PreserveWrite(committed: bool)

  /** The handle an acceptance in progress is using. */
  function InUse(owner: Owner): Option<nat> {
    match owner
    case Accepting(h, _, _, _) => h
    case Recorded(h, _, _, _) => h
    case Finishing(h, _, _) => h
    case _ => None
  }

  /** Selections and releases need no routeOwnership; a transfer does. A connection releases only its own handle. */
  predicate MayRun(w: World, op: Op) {
    match op
    case Select(_, _, _) => true
    case DoRelease(h) => InUse(w.owner) != Some(h)
    case DoTransfer(_, _, _, _) => w.owner.Free?
    case _ => false
  }

  predicate ActiveHandle(t: Table, h: nat) {
    Unspent(t, h) && Live(t.reg, t.handles[h].id, t.handles[h].account)
  }

  /** An event the lock or a check does not allow leaves the world as it is. */
  function Apply(w: World, e: Event): (r: World)
    requires Partition(w.table.reg)
    ensures Partition(r.table.reg)
  {
    match e
    case Tick => w.(clock := w.clock + 1)
    case Section(op) => if MayRun(w, op) then w.(table := Step(w.table, op)) else w
    case AcceptBegin(claim, account, route, stamp) =>
      if !w.owner.Free? || stamp > w.clock then w
      else if claim.None? then w.(owner := Accepting(None, account, route, stamp))
      else if !ActiveHandle(w.table, claim.value) then w
      else w.(owner := Accepting(claim, w.table.handles[claim.value].account, route, stamp))
    case AcceptRecord(committed) =>
      if !w.owner.Accepting? then w
      else
        w.(rows := if committed then Upsert(w.rows, w.owner.at, w.owner.account, KeySet(w.owner.keys)) else w.rows,
           owner := Recorded(w.owner.h, w.owner.account, w.owner.keys, committed))
    case AcceptLog(moved) =>
      if !w.owner.Recorded? then w
      else
        w.(table := if moved && w.owner.h.Some? then Step(w.table, DoAcceptSwitch(w.owner.h.value)) else w.table,
           owner := Finishing(w.owner.h, w.owner.keys, w.owner.persisted))
    case AcceptFinish =>
      if !w.owner.Finishing? then w
      else
        w.(table := if !w.owner.persisted then w.table
                    else if w.owner.h.Some? then Step(w.table, DoCommit(w.owner.h.value, w.owner.keys))
                    else Step(w.table, DoClearBarriers(w.owner.keys)),
           owner := Free)
    case Stamp => if w.owner.Free? then w.(owner := Stamped(w.clock)) else w
    case InvalidateSection(account) =>
      if !w.owner.Stamped? then w
      else
        w.(table := Step(w.table, DoInvalidate(account)),
           owner := Preserving(w.owner.at, account, KeysOn(w.table.reg, account)))
    case PreserveSection(h) =>
      if !w.owner.Stamped? || !Unspent(w.table, h) then w
      else
        var handle := w.table.handles[h];
        w.(table := Step(w.table, DoPreserve(h)),
           owner := Preserving(w.owner.at, handle.account, KeySet(Preserve(w.table.reg, handle.id, handle.account).1)))
    case PreserveWrite(committed) =>
      if !w.owner.Preserving? then w
      else if committed then
        w.(rows := Upsert(w.rows, w.owner.at, w.owner.account, w.owner.fenced), owner := Free,
            lost := w.lost - w.owner.fenced)
      else w.(owner := Free, lost := w.lost + w.owner.fenced)
  }

  /** A run of the server. */
  datatype Trace = Boot | Then(before: Trace, event: Event)

  const BOOT := World(START, map[], 0, Free, {})

  function Replay(trace: Trace): (w: World)
    ensures Partition(w.table.reg)
  {
    match trace
    case Boot => BOOT
    case Then(before, event) => Apply(Replay(before), event)
  }

  /** No transfer of the run moves a claim to an account another unspent handle of it is still on. */
  ghost predicate NoClaimReturns(trace: Trace) {
    match trace
    case Boot => true
    case Then(before, event) => NoClaimReturns(before) && MovesOn(Replay(before), event)
  }

  ghost predicate MovesOn(w: World, e: Event) {
    e.Section? && MayRun(w, e.op) ==> MovesToNewAccount(w.table, e.op)
  }

  // ---------- the invariant

  /** The key's barrier is about to be written, or about to be cleared. */
  predicate InFlight(owner: Owner, key: Key, account: Account) {
    match owner
    case Preserving(_, holder, fenced) => key in fenced && account == holder
    case Recorded(_, _, keys, persisted) => persisted && key in keys
    case Finishing(_, keys, persisted) => persisted && key in keys
    case _ => false
  }

  ghost predicate Mirrored(w: World) {
    forall k :: k in w.table.reg.barriers && k !in w.lost && !InFlight(w.owner, k, w.table.reg.barriers[k]) ==>
      k in w.rows && w.rows[k].account == w.table.reg.barriers[k]
  }

  ghost predicate Fenced(w: World) {
    w.owner.Preserving? ==>
      forall k :: k in w.owner.fenced ==> k in w.table.reg.barriers && w.table.reg.barriers[k] == w.owner.account
  }

  ghost predicate Timely(w: World) {
    && (forall k :: k in w.rows ==> w.rows[k].at <= w.clock)
    && (w.owner.Stamped? || w.owner.Preserving? ==> forall k :: k in w.rows ==> w.rows[k].at <= w.owner.at)
    && (w.owner.Stamped? || w.owner.Preserving? || w.owner.Accepting? ==> w.owner.at <= w.clock)
  }

  ghost predicate Good(w: World) {
    && Partition(w.table.reg) && IdsIssued(w.table) && Counted(w.table)
    && (InUse(w.owner).Some? ==> ActiveHandle(w.table, InUse(w.owner).value))
    && Timely(w) && Fenced(w) && Mirrored(w)
  }

  lemma SectionKeepsGood(w: World, op: Op)
    requires Good(w) && MayRun(w, op) && MovesToNewAccount(w.table, op)
    ensures Good(w.(table := Step(w.table, op)))
  {
    StepIds(w.table, op);
    StepKeepsCounts(w.table, op);
    if op.Select? && Step(w.table, op).handles != w.table.handles {
      SelectIssues(w.table, op);
    }
    if op.DoRelease? && Unspent(w.table, op.h) && InUse(w.owner).Some? {
      UseSparesOtherHolders(w.table, op, InUse(w.owner).value);
    }
  }

  lemma AcceptBeginKeepsGood(w: World, e: Event)
    requires Good(w) && e.AcceptBegin?
    ensures Good(Apply(w, e))
  {
  }

  lemma AcceptRecordKeepsGood(w: World, e: Event)
    requires Good(w) && e.AcceptRecord?
    ensures Good(Apply(w, e))
  {
  }

  lemma AcceptLogKeepsGood(w: World, e: Event)
    requires Good(w) && e.AcceptLog?
    ensures Good(Apply(w, e))
  {
    if w.owner.Recorded? && e.moved && w.owner.h.Some? {
      StepIds(w.table, DoAcceptSwitch(w.owner.h.value));
      StepKeepsCounts(w.table, DoAcceptSwitch(w.owner.h.value));
    }
  }

  lemma AcceptFinishKeepsGood(w: World)
    requires Good(w)
    ensures Good(Apply(w, AcceptFinish))
  {
    if w.owner.Finishing? && w.owner.persisted {
      var op := if w.owner.h.Some? then DoCommit(w.owner.h.value, w.owner.keys) else DoClearBarriers(w.owner.keys);
      StepIds(w.table, op);
      StepKeepsCounts(w.table, op);
    }
  }

  lemma InvalidateKeepsGood(w: World, e: Event)
    requires Good(w) && e.InvalidateSection?
    ensures Good(Apply(w, e))
  {
    StepIds(w.table, DoInvalidate(e.account));
    StepKeepsCounts(w.table, DoInvalidate(e.account));
  }

  lemma PreserveKeepsGood(w: World, e: Event)
    requires Good(w) && e.PreserveSection?
    ensures Good(Apply(w, e))
  {
    StepIds(w.table, DoPreserve(e.h));
    StepKeepsCounts(w.table, DoPreserve(e.h));
  }

  lemma WriteKeepsGood(w: World, e: Event)
    requires Good(w) && e.PreserveWrite?
    ensures Good(Apply(w, e))
  {
  }

  lemma ApplyKeepsGood(w: World, e: Event)
    requires Good(w) && MovesOn(w, e)
    ensures Good(Apply(w, e))
  {
    match e
    case Section(op) => if MayRun(w, op) { SectionKeepsGood(w, op); }
    case AcceptBegin(_, _, _, _) => AcceptBeginKeepsGood(w, e);
    case AcceptRecord(_) => AcceptRecordKeepsGood(w, e);
    case AcceptLog(_) => AcceptLogKeepsGood(w, e);
    case AcceptFinish => AcceptFinishKeepsGood(w);
    case InvalidateSection(_) => InvalidateKeepsGood(w, e);
    case PreserveSection(_) => PreserveKeepsGood(w, e);
    case PreserveWrite(_) => WriteKeepsGood(w, e);
    case Tick =>
    case Stamp =>
  }

  /** In runs without returning claims every acceptance in progress holds its claim. */
  lemma {:induction false} StaysGood(trace: Trace)
    requires NoClaimReturns(trace)
    ensures Good(Replay(trace))
  {
    if trace.Then? {
      StaysGood(trace.before);
      ApplyKeepsGood(Replay(trace.before), trace.event);
    }
  }

  // ---------- the mirror, in every run

  /** What needs no condition on the run. */
  ghost predicate Steady(w: World) {
    Partition(w.table.reg) && Timely(w) && Fenced(w)
  }

  /** The acceptance about to end has a claim to commit, or never had one. */
  predicate HoldsClaim(w: World) {
    w.owner.Finishing? && w.owner.h.Some? ==> ActiveHandle(w.table, w.owner.h.value)
  }

  /** Where the claim is gone, committing returns early and clears no barrier. That does no harm only if
      every barrier left on the acceptance's keys agrees with its row. */
  predicate EndsClean(w: World, e: Event) {
    e.AcceptFinish? && w.owner.Finishing? && w.owner.persisted && !HoldsClaim(w) ==>
      forall k :: k in w.owner.keys && k in w.table.reg.barriers && k !in w.lost ==>
        k in w.rows && w.rows[k].account == w.table.reg.barriers[k]
  }

  lemma FinishMirrors(w: World)
    requires Steady(w) && Mirrored(w)
    ensures Steady(Apply(w, AcceptFinish)) && (Mirrored(Apply(w, AcceptFinish)) <==> EndsClean(w, AcceptFinish))
  {
    var r := Apply(w, AcceptFinish);
    if w.owner.Finishing? && w.owner.persisted && !HoldsClaim(w) {
      assert r.table.reg.barriers == w.table.reg.barriers;
    }
  }

  lemma SectionMirrors(w: World, e: Event)
    requires Steady(w) && Mirrored(w) && e.Section?
    ensures Steady(Apply(w, e)) && Mirrored(Apply(w, e))
  {
    assert Apply(w, e) == w.(table := Apply(w, e).table);
    assert Apply(w, e).table.reg.barriers == w.table.reg.barriers;
  }

  lemma RecordMirrors(w: World, e: Event)
    requires Steady(w) && Mirrored(w) && e.AcceptRecord?
    ensures Steady(Apply(w, e)) && Mirrored(Apply(w, e))
  {
  }

  lemma InvalidateMirrors(w: World, e: Event)
    requires Steady(w) && Mirrored(w) && e.InvalidateSection?
    ensures Steady(Apply(w, e)) && Mirrored(Apply(w, e))
  {
  }

  lemma PreserveMirrors(w: World, e: Event)
    requires Steady(w) && Mirrored(w) && e.PreserveSection?
    ensures Steady(Apply(w, e)) && Mirrored(Apply(w, e))
  {
  }

  lemma WriteMirrors(w: World, e: Event)
    requires Steady(w) && Mirrored(w) && e.PreserveWrite?
    ensures Steady(Apply(w, e)) && Mirrored(Apply(w, e))
  {
  }

  /** From a mirrored world, one event leads to a mirrored world exactly when it ends clean. */
  lemma MirrorsExactly(w: World, e: Event)
    requires Steady(w) && Mirrored(w)
    ensures Steady(Apply(w, e)) && (Mirrored(Apply(w, e)) <==> EndsClean(w, e))
  {
    match e
    case AcceptFinish => FinishMirrors(w);
    case Section(_) => SectionMirrors(w, e);
    case AcceptRecord(_) => RecordMirrors(w, e);
    case InvalidateSection(_) => InvalidateMirrors(w, e);
    case PreserveSection(_) => PreserveMirrors(w, e);
    case PreserveWrite(_) => WriteMirrors(w, e);
    case AcceptBegin(_, _, _, _) =>
    case AcceptLog(_) =>
    case Tick =>
    case Stamp =>
  }

  ghost predicate AlwaysMirrored(trace: Trace) {
    Mirrored(Replay(trace)) && (trace.Then? ==> AlwaysMirrored(trace.before))
  }

  predicate AlwaysEndsClean(trace: Trace) {
    trace.Then? ==> AlwaysEndsClean(trace.before) && EndsClean(Replay(trace.before), trace.event)
  }

  /** The mirror holds all along a run exactly when every acceptance of the run ends clean. */
  lemma {:induction false} MirroredExactly(trace: Trace)
    ensures AlwaysMirrored(trace) <==> AlwaysEndsClean(trace)
    ensures AlwaysMirrored(trace) ==> Steady(Replay(trace))
  {
    if trace.Then? {
      MirroredExactly(trace.before);
      if AlwaysMirrored(trace.before) {
        MirrorsExactly(Replay(trace.before), trace.event);
      }
    }
  }

  /** Every acceptance of the run that ends with its row written still holds its claim. */
  predicate AlwaysHoldsClaim(trace: Trace) {
    trace.Then? ==>
      && AlwaysHoldsClaim(trace.before)
      && (trace.event.AcceptFinish? && Replay(trace.before).owner.Finishing? && Replay(trace.before).owner.persisted ==>
            HoldsClaim(Replay(trace.before)))
  }

  lemma {:induction false} NoReturnHoldsClaim(trace: Trace)
    requires NoClaimReturns(trace)
    ensures AlwaysHoldsClaim(trace)
  {
    if trace.Then? {
      NoReturnHoldsClaim(trace.before);
      StaysGood(trace.before);
    }
  }

  lemma {:induction false} HoldingEndsClean(trace: Trace)
    requires AlwaysHoldsClaim(trace)
    ensures AlwaysEndsClean(trace)
  {
    if trace.Then? {
      HoldingEndsClean(trace.before);
    }
  }

  /** While every acceptance holds its claim to its end, a barrier and the durable row of its key name
      the same account, except while the holder of routeOwnership is between its registry and database
      sections and for keys whose last barrier the database refused. */
  lemma BarriersAreMirrored(trace: Trace)
    requires AlwaysHoldsClaim(trace)
    ensures Mirrored(Replay(trace))
    ensures var w := Replay(trace);
            w.owner.Free? ==>
              forall k :: k in w.table.reg.barriers && k !in w.lost ==>
                k in w.rows && w.rows[k].account == w.table.reg.barriers[k]
  {
    HoldingEndsClean(trace);
    MirroredExactly(trace);
  }

  ghost predicate AllWritesCommit(trace: Trace) {
    trace.Then? ==> AllWritesCommit(trace.before) && (trace.event.PreserveWrite? ==> trace.event.committed)
  }

  /** The exception for refused keys is empty while the database takes every barrier. */
  lemma {:induction false} NothingLost(trace: Trace)
    requires AllWritesCommit(trace)
    ensures Replay(trace).lost == {}
  {
    if trace.Then? {
      NothingLost(trace.before);
    }
  }

  /** What a returning claim does to the mirror: between writing the row and clearing the barrier
      the claim is released from under the acceptance by a holder the count has forgotten. */
  lemma ReturningClaimBreaksMirror(w: World, h: nat, g: nat, away: Account, key: Key)
    requires Good(w) && w.owner.Free? && key !in w.lost
    requires Unspent(w.table, h) && Unspent(w.table, g) && h != g
    requires w.table.handles[h].id == w.table.handles[g].id && w.table.handles[h].account == w.table.handles[g].account
    requires CanTransfer(w.table.reg, w.table.handles[h].id, w.table.handles[h].account)
    requires away != "" && w.table.handles[h].account != ""
    requires key in w.table.reg.barriers && w.table.reg.barriers[key] != w.table.handles[h].account
    ensures var n := |w.table.handles|;
            Apply(Apply(w, Section(DoTransfer(h, away, "", ""))),
                Section(DoTransfer(n, w.table.handles[h].account, "", ""))) ==
            w.(table := ThereAndBack(w.table, h, away))
    ensures var done := Abandoned(w.(table := ThereAndBack(w.table, h, away)), |w.table.handles| + 1, g, key);
            done.owner.Free? && !Mirrored(done)
  {
    MovesThereAndBack(w, h, away);
    BackOnAccount(w.table, h, g, away);
    AbandonedAcceptance(w.(table := ThereAndBack(w.table, h, away)), |w.table.handles| + 1, g, key);
  }

  /** The claim of `h` moves away, and its new handle moves it back. */
  function ThereAndBack(t: Table, h: nat, away: Account): (back: Table)
    requires Partition(t.reg) && h < |t.handles|
    ensures Partition(back.reg)
  {
    Step(Step(t, DoTransfer(h, away, "", "")), DoTransfer(|t.handles|, t.handles[h].account, "", ""))
  }

  lemma MovesThereAndBack(w: World, h: nat, away: Account)
    requires Partition(w.table.reg) && w.owner.Free? && h < |w.table.handles|
    ensures Apply(Apply(w, Section(DoTransfer(h, away, "", ""))),
              Section(DoTransfer(|w.table.handles|, w.table.handles[h].account, "", ""))) ==
            w.(table := ThereAndBack(w.table, h, away))
  {
  }

  lemma BackOnAccount(t: Table, h: nat, g: nat, away: Account)
    requires Partition(t.reg) && Unspent(t, h) && Unspent(t, g) && h != g
    requires t.handles[h].id == t.handles[g].id && t.handles[h].account == t.handles[g].account
    requires CanTransfer(t.reg, t.handles[h].id, t.handles[h].account)
    requires away != "" && t.handles[h].account != ""
    ensures var back, n := ThereAndBack(t, h, away), |t.handles|;
            && back.reg.barriers == t.reg.barriers && Unspent(back, g)
            && |back.handles| == n + 2 && back.handles[n + 1].account == t.handles[h].account
            && ActiveHandle(back, n + 1)
            && !Live(Step(back, DoRelease(g)).reg, back.handles[n + 1].id, back.handles[n + 1].account)
  {
    ReturningClaimIsLost(t, h, g, away);
    TransferMoves(t, h, away);
    TransferMoves(Step(t, DoTransfer(h, away, "", "")), |t.handles|, t.handles[h].account);
  }

  /** `h` is accepted for the key; before its claim is committed, `g` is released. */
  function Abandoned(w: World, h: nat, g: nat, key: Key): (done: World)
    requires Partition(w.table.reg)
    ensures Partition(done.table.reg)
  {
    var recorded := Apply(Apply(w, AcceptBegin(Some(h), "", [key], w.clock)), AcceptRecord(true));
    Apply(Apply(Apply(recorded, Section(DoRelease(g))), AcceptLog(false)), AcceptFinish)
  }

  lemma AbandonedAcceptance(w: World, h: nat, g: nat, key: Key)
    requires Partition(w.table.reg) && Timely(w) && w.owner.Free? && key !in w.lost
    requires ActiveHandle(w.table, h) && g != h && Unspent(w.table, g)
    requires !Live(Step(w.table, DoRelease(g)).reg, w.table.handles[h].id, w.table.handles[h].account)
    requires key in w.table.reg.barriers && w.table.reg.barriers[key] != w.table.handles[h].account
    ensures var done := Abandoned(w, h, g, key); done.owner.Free? && !Mirrored(done)
  {
    var account := w.table.handles[h].account;
    var recorded := Apply(Apply(w, AcceptBegin(Some(h), "", [key], w.clock)), AcceptRecord(true));
    assert recorded ==
           w.(rows := Upsert(w.rows, w.clock, account, KeySet([key])),
               owner := Recorded(Some(h), account, [key], true));
    var released := Apply(recorded, Section(DoRelease(g)));
    assert released == recorded.(table := Step(w.table, DoRelease(g)));
    var logged := Apply(released, AcceptLog(false));
    assert logged == released.(owner := Finishing(Some(h), [key], true));
    var done := Apply(logged, AcceptFinish);
    assert done.table.reg == released.table.reg && done.table.reg.barriers == w.table.reg.barriers;
    assert done.rows[key].account == account;
  }

  // ---------- what an acceptance leaves behind

  /** One acceptance with nothing in between, from the check to the release of routeOwnership. */
  function AcceptRun(w: World, claim: Option<nat>, account: Account, keys: seq<Key>, stamp: int, committed: bool,
      moved: bool): (r: World)
    requires Partition(w.table.reg)
    ensures Partition(r.table.reg)
  {
    Apply(Apply(Apply(Apply(w, AcceptBegin(claim, account, keys, stamp)), AcceptRecord(committed)), AcceptLog(moved)),
        AcceptFinish)
  }

  /** One invalidation or preservation with nothing in between. */
  function FenceRun(w: World, section: Event, committed: bool): (r: World)
    requires Partition(w.table.reg)
    ensures Partition(r.table.reg)
  {
    Apply(Apply(Apply(w, Stamp), section), PreserveWrite(committed))
  }

  /** The same acceptance in one step. */
  function Accepted(w: World, claim: Option<nat>, account: Account, keys: seq<Key>, stamp: int, committed: bool,
      moved: bool): (r: World)
    requires Partition(w.table.reg)
    ensures Partition(r.table.reg)
  {
    var logged := if moved && claim.Some? then Step(w.table, DoAcceptSwitch(claim.value)) else w.table;
    var table := if !committed then logged
                 else Step(logged, if claim.Some? then DoCommit(claim.value, keys) else DoClearBarriers(keys));
    w.(table := table, rows := if committed then Upsert(w.rows, stamp, account, KeySet(keys)) else w.rows)
  }

  lemma AcceptRunIsAccepted(w: World, claim: Option<nat>, account: Account, keys: seq<Key>, stamp: int, committed: bool,
      moved: bool)
    requires Partition(w.table.reg) && w.owner.Free? && stamp <= w.clock
    requires claim.Some? ==> ActiveHandle(w.table, claim.value) && w.table.handles[claim.value].account == account
    ensures AcceptRun(w, claim, account, keys, stamp, committed, moved) ==
            Accepted(w, claim, account, keys, stamp, committed, moved)
  {
    var begun := Apply(w, AcceptBegin(claim, account, keys, stamp));
    assert begun == w.(owner := Accepting(claim, account, keys, stamp));
    var recorded := Apply(begun, AcceptRecord(committed));
    assert recorded.table == w.table && recorded.owner == Recorded(claim, account, keys, committed);
    var logged := Apply(recorded, AcceptLog(moved));
    assert logged.rows == recorded.rows && logged.owner == Finishing(claim, keys, committed);
  }

  /** The same invalidation or preservation in one step: `op` is its registry section. */
  function Walled(w: World, op: Op, account: Account, fenced: set<Key>, committed: bool): (r: World)
    requires Partition(w.table.reg)
    ensures Partition(r.table.reg)
  {
    w.(table := Step(w.table, op),
       rows := if committed then Upsert(w.rows, w.clock, account, fenced) else w.rows,
       lost := if committed then w.lost - fenced else w.lost + fenced)
  }

  lemma FenceRunIsWalled(w: World, account: Account, committed: bool)
    requires Partition(w.table.reg) && w.owner.Free?
    ensures FenceRun(w, InvalidateSection(account), committed) ==
            Walled(w, DoInvalidate(account), account, KeysOn(w.table.reg, account), committed)
  {
    var fenced := Apply(Apply(w, Stamp), InvalidateSection(account));
    assert fenced.owner == Preserving(w.clock, account, KeysOn(w.table.reg, account));
  }

  lemma PreserveRunIsWalled(w: World, h: nat, committed: bool)
    requires Partition(w.table.reg) && w.owner.Free? && Unspent(w.table, h)
    ensures var handle := w.table.handles[h];
            FenceRun(w, PreserveSection(h), committed) ==
            Walled(w, DoPreserve(h), handle.account, KeySet(Preserve(w.table.reg, handle.id, handle.account).1),
                committed)
  {
    var handle := w.table.handles[h];
    var fenced := Apply(Apply(w, Stamp), PreserveSection(h));
    assert fenced.owner ==
           Preserving(w.clock, handle.account, KeySet(Preserve(w.table.reg, handle.id, handle.account).1));
  }

  /** The accepted account owns the durable row of its route exactly when no later write got there
      between taking the timestamp and taking the lock; the barrier goes in either case. */
  lemma AcceptanceOwnsRow(w: World, claim: Option<nat>, account: Account, keys: seq<Key>, stamp: int, moved: bool,
      key: Key)
    requires Partition(w.table.reg) && w.owner.Free? && stamp <= w.clock && key in keys
    requires claim.Some? ==> ActiveHandle(w.table, claim.value) && w.table.handles[claim.value].account == account
    ensures var r := AcceptRun(w, claim, account, keys, stamp, true, moved);
            && key !in r.table.reg.barriers && key in r.rows
            && (r.rows[key].account == account <==> Yields(w.rows, key, stamp) || w.rows[key].account == account)
  {
    AcceptRunIsAccepted(w, claim, account, keys, stamp, true, moved);
  }

  /** What the acceptance in progress began with: its account, keys and stamp, and the rows it found. */
  datatype Begun = Begun(account: Account, keys: seq<Key>, at: int, rows: Rows)

  const NOT_BEGUN := Begun("", [], 0, map[])

  function BegunIn(trace: Trace): Begun {
    match trace
    case Boot => NOT_BEGUN
    case Then(before, event) =>
      var w := Replay(trace);
      if Replay(before).owner.Free? && w.owner.Accepting? then Begun(w.owner.account, w.owner.keys, w.owner.at, w.rows)
      else BegunIn(before)
  }

  /** Only the acceptance itself writes rows before it is over, whatever comes in between. */
  lemma {:induction false} RowsAreHeld(trace: Trace)
    ensures var w := Replay(trace);
            var b := BegunIn(trace);
            match w.owner
            case Accepting(_, account, keys, at) => b == Begun(account, keys, at, w.rows)
            case Recorded(_, account, keys, persisted) =>
              b.account == account && b.keys == keys
              && w.rows == if persisted then Upsert(b.rows, b.at, account, KeySet(keys)) else b.rows
            case Finishing(_, keys, persisted) =>
              b.keys == keys && w.rows == if persisted then Upsert(b.rows, b.at, b.account, KeySet(keys)) else b.rows
            case _ => true
  {
    if trace.Then? {
      RowsAreHeld(trace.before);
    }
  }

  /** The same with selections, releases and ticks in between, in any run: an acceptance whose row was
      written owns a key's row exactly when the row it found there was no later than the stamp or was
      its own, and it leaves a barrier on a key exactly when there is one and its claim has gone. */
  lemma InterleavedAcceptance(trace: Trace, key: Key)
    requires Replay(trace).owner.Finishing? && Replay(trace).owner.persisted
    requires key in Replay(trace).owner.keys
    ensures var r := Replay(Then(trace, AcceptFinish));
            var b := BegunIn(trace);
            && r.owner.Free? && key in r.rows
            && (r.rows[key].account == b.account <==> Yields(b.rows, key, b.at) || b.rows[key].account == b.account)
            && (key in r.table.reg.barriers <==> key in Replay(trace).table.reg.barriers && !HoldsClaim(Replay(trace)))
  {
    RowsAreHeld(trace);
  }
}
