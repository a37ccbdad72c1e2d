/** Every run of the claim registry: handles are issued by selections and transfers, used at most
    once, and the sections that hold the registry mutex come in any order. */
module ClaimRuns {
  import opened Wrappers
  import opened Counting
  import opened RouteClaims

  /** A handle acts once: `spent` is the state of its sync.Once. */
  datatype Handle = Handle(id: nat, account: Account, spent: bool)

  /** The registry and every handle it has issued, in issue order. */
  datatype Table = Table(reg: Registry, handles: seq<Handle>)

  const START := Table(EMPTY, [])

  /** A section under the registry mutex. Handles are named by their position in issue order. */
  datatype Op =
    | Select(keys: seq<Key>, durable: Durable, decision: Decision)
    | DoRelease(h: nat)
    | DoCommit(h: nat, keys: seq<Key>)
    | DoPreserve(h: nat)
    | DoTransfer(h: nat, to: Account, priorOwner: Account, reason: Reason)
    | DoAcceptSwitch(h: nat)
    | DoClearBarriers(keys: seq<Key>)
    | DoInvalidate(account: Account)

  predicate Unspent(t: Table, h: nat) {
    h < |t.handles| && !t.handles[h].spent
  }

  function Spend(handles: seq<Handle>, h: nat): seq<Handle>
    requires h < |handles|
  {
    handles[h := handles[h].(spent := true)]
  }

  function Step(t: Table, op: Op): (r: Table)
    requires Partition(t.reg)
    ensures Partition(r.reg)
  {
    match op
    case Select(keys, durable, decision) =>
      if keys == [] then t
      else
        var (reg, selection) := SelectWith(t.reg, keys, durable, decision);
        if selection.claim.None? then Table(reg, t.handles)
        else Table(reg, t.handles + [Handle(selection.claim.value, decision.account.value, false)])
    case DoRelease(h) =>
      if !Unspent(t, h) then t
      else Table(Release(t.reg, t.handles[h].id, t.handles[h].account), Spend(t.handles, h))
    case DoCommit(h, keys) =>
      if !Unspent(t, h) then t
      else Table(Commit(t.reg, t.handles[h].id, t.handles[h].account, keys), Spend(t.handles, h))
    case DoPreserve(h) =>
      if !Unspent(t, h) then t
      else Table(Preserve(t.reg, t.handles[h].id, t.handles[h].account).0, Spend(t.handles, h))
    case DoTransfer(h, to, priorOwner, reason) =>
      if !Unspent(t, h) || to == "" then t
      else
        var handle := t.handles[h];
        var reg := Transfer(t.reg, handle.id, handle.account, to, priorOwner, reason);
        Table(reg, Spend(t.handles, h) +
          (if CanTransfer(t.reg, handle.id, handle.account) then [Handle(handle.id, to, false)] else []))
    case DoAcceptSwitch(h) =>
      if h >= |t.handles| then t
      else Table(AcceptSwitch(t.reg, t.handles[h].id, t.handles[h].account), t.handles)
    case DoClearBarriers(keys) => Table(ClearBarriers(t.reg, keys), t.handles)
    case DoInvalidate(account) => Table(Invalidate(t.reg, account), t.handles)
  }

  function Run(t: Table, ops: seq<Op>): (r: Table)
    requires Partition(t.reg)
    ensures Partition(r.reg)
  {
    if ops == [] then t else Step(Run(t, ops[..|ops| - 1]), ops[|ops| - 1])
  }

  // ---------- reference counts

  function Holds(id: nat, account: Account): Handle -> bool {
    (handle: Handle) => !handle.spent && handle.id == id && handle.account == account
  }

  /** How many unspent handles are on the claim `id` while it is on `account`. */
  ghost function Holders(handles: seq<Handle>, id: nat, account: Account): nat {
    Count(handles, Holds(id, account))
  }

  ghost predicate IdsIssued(t: Table) {
    forall h :: 0 <= h < |t.handles| ==> 1 <= t.handles[h].id <= t.reg.next
  }

  ghost predicate Counted(t: Table) {
    forall id :: id in t.reg.claims ==>
      t.reg.claims[id].refs >= 1 && t.reg.claims[id].refs >= Holders(t.handles, id, t.reg.claims[id].account)
  }

  ghost predicate Exact(t: Table) {
    forall id :: id in t.reg.claims ==> t.reg.claims[id].refs == Holders(t.handles, id, t.reg.claims[id].account)
  }

  /** The transfer moves the claim to an account no other unspent handle of it is waiting on. */
  ghost predicate MovesToNewAccount(t: Table, op: Op) {
    op.DoTransfer? && Unspent(t, op.h) && op.to != ""
      && CanTransfer(t.reg, t.handles[op.h].id, t.handles[op.h].account) ==>
      Holders(Spend(t.handles, op.h), t.handles[op.h].id, op.to) == 0
  }

  /** A transfer that is refused although the handle is on a live claim. */
  ghost predicate FailsTransfer(t: Table, op: Op) {
    op.DoTransfer? && Unspent(t, op.h) && op.to != "" &&
    Live(t.reg, t.handles[op.h].id, t.handles[op.h].account) &&
    !CanTransfer(t.reg, t.handles[op.h].id, t.handles[op.h].account)
  }

  lemma SpendHolders(handles: seq<Handle>, h: nat, id: nat, account: Account)
    requires h < |handles|
    ensures Holders(Spend(handles, h), id, account) ==
            Holders(handles, id, account) - if Holds(id, account)(handles[h]) then 1 else 0
  {
    CountUpdate(handles, h, handles[h].(spent := true), Holds(id, account));
  }

  lemma IssueHolders(handles: seq<Handle>, handle: Handle, id: nat, account: Account)
    ensures Holders(handles + [handle], id, account) ==
            Holders(handles, id, account) + if Holds(id, account)(handle) then 1 else 0
  {
    CountAppend(handles, handle, Holds(id, account));
  }

  lemma HolderCounts(handles: seq<Handle>, h: nat)
    requires h < |handles| && !handles[h].spent
    ensures Holders(handles, handles[h].id, handles[h].account) >= 1
  {
    CountPositive(handles, h, Holds(handles[h].id, handles[h].account));
  }

  lemma NoHolderYet(t: Table, id: nat, account: Account)
    requires IdsIssued(t) && id > t.reg.next
    ensures Holders(t.handles, id, account) == 0
  {
    CountZero(t.handles, Holds(id, account));
  }

  /** A selection that returns a handle: the claim it counts, and the handle it issues. */
  lemma SelectIssues(t: Table, op: Op)
    requires Partition(t.reg) && op.Select? && Step(t, op).handles != t.handles
    ensures var r := Step(t, op);
            |r.handles| == |t.handles| + 1 && r.handles[..|t.handles|] == t.handles &&
            var handle := r.handles[|t.handles|];
            !handle.spent && handle.account == op.decision.account.value
              && Claimed(t.reg, r.reg, op.keys, handle.id, op.decision)
  {
    SelectClaims(t.reg, op.keys, op.durable, op.decision);
  }

  lemma StepIds(t: Table, op: Op)
    requires Partition(t.reg) && IdsIssued(t)
    ensures IdsIssued(Step(t, op))
  {
    if op.Select? && Step(t, op).handles != t.handles {
      SelectIssues(t, op);
    }
  }

  lemma SelectKeepsCounts(t: Table, op: Op)
    requires Partition(t.reg) && IdsIssued(t) && Counted(t) && op.Select?
    ensures Counted(Step(t, op))
    ensures Exact(t) ==> Exact(Step(t, op))
  {
    var r := Step(t, op);
    if r.handles != t.handles {
      SelectIssues(t, op);
      var handle := r.handles[|t.handles|];
      assert r.handles == t.handles + [handle];
      IssueKeepsCounts(t, r, handle);
    }
  }

  lemma IssueKeepsCounts(t: Table, r: Table, handle: Handle)
    requires IdsIssued(t) && Counted(t)
    requires r.handles == t.handles + [handle] && !handle.spent
    requires r.reg.claims.Keys == t.reg.claims.Keys + {handle.id}
    requires r.reg.claims[handle.id].account == handle.account
    requires if handle.id in t.reg.claims
             then r.reg.claims[handle.id].refs == t.reg.claims[handle.id].refs + 1
                    && t.reg.claims[handle.id].account == handle.account
             else handle.id > t.reg.next && r.reg.claims[handle.id].refs == 1
    requires forall id :: id in t.reg.claims && id != handle.id ==> r.reg.claims[id] == t.reg.claims[id]
    ensures Counted(r)
    ensures Exact(t) ==> Exact(r)
  {
    forall id | id in r.reg.claims
      ensures Holders(r.handles, id, r.reg.claims[id].account) ==
              Holders(t.handles, id, r.reg.claims[id].account) + if id == handle.id then 1 else 0
    {
      IssueHolders(t.handles, handle, id, r.reg.claims[id].account);
    }
    if handle.id !in t.reg.claims {
      NoHolderYet(t, handle.id, handle.account);
    }
  }

  /** Spending a handle takes at most one from the references of the claim it is on. */
  lemma SpendKeepsCounts(t: Table, r: Table, h: nat)
    requires Counted(t) && Unspent(t, h) && r.handles == Spend(t.handles, h)
    requires forall id :: id in r.reg.claims ==>
               && id in t.reg.claims && r.reg.claims[id].account == t.reg.claims[id].account
               && r.reg.claims[id].refs >= 1
               && t.reg.claims[id].refs - (if Holds(id, r.reg.claims[id].account)(t.handles[h]) then 1 else 0) <=
                    r.reg.claims[id].refs
    ensures Counted(r)
    ensures Exact(t) ==>
              (Exact(r) <==> forall id :: id in r.reg.claims ==>
                 t.reg.claims[id].refs - (if Holds(id, r.reg.claims[id].account)(t.handles[h]) then 1 else 0) ==
                   r.reg.claims[id].refs)
  {
    forall id | id in r.reg.claims
      ensures Holders(r.handles, id, r.reg.claims[id].account) ==
              Holders(t.handles, id, r.reg.claims[id].account) -
                if Holds(id, r.reg.claims[id].account)(t.handles[h]) then 1 else 0
    {
      SpendHolders(t.handles, h, id, r.reg.claims[id].account);
    }
  }

  lemma ReleaseKeepsCounts(t: Table, op: Op)
    requires Partition(t.reg) && Counted(t) && op.DoRelease? && Unspent(t, op.h)
    ensures Counted(Step(t, op))
    ensures Exact(t) ==> Exact(Step(t, op))
  {
    SpendKeepsCounts(t, Step(t, op), op.h);
  }

  lemma CommitKeepsCounts(t: Table, op: Op)
    requires Partition(t.reg) && Counted(t) && op.DoCommit? && Unspent(t, op.h)
    ensures Counted(Step(t, op))
    ensures Exact(t) ==> Exact(Step(t, op))
  {
    SpendKeepsCounts(t, Step(t, op), op.h);
  }

  lemma PreserveKeepsCounts(t: Table, op: Op)
    requires Partition(t.reg) && Counted(t) && op.DoPreserve? && Unspent(t, op.h)
    ensures Counted(Step(t, op))
    ensures Exact(t) ==> Exact(Step(t, op))
  {
    SpendKeepsCounts(t, Step(t, op), op.h);
  }

  lemma TransferCounts(t: Table, op: Op)
    requires Partition(t.reg) && Counted(t) && op.DoTransfer? && Unspent(t, op.h) && op.to != ""
    requires CanTransfer(t.reg, t.handles[op.h].id, t.handles[op.h].account)
    ensures Counted(Step(t, op)) <==> MovesToNewAccount(t, op)
    ensures MovesToNewAccount(t, op) && Exact(t) ==> Exact(Step(t, op))
  {
    var r := Step(t, op);
    var moved := t.handles[op.h];
    var spent := Spend(t.handles, op.h);
    var issued := Handle(moved.id, op.to, false);
    forall id | id in r.reg.claims
      ensures Holders(r.handles, id, r.reg.claims[id].account) ==
              if id == moved.id then Holders(spent, id, op.to) + 1 else Holders(t.handles, id, r.reg.claims[id].account)
    {
      SpendHolders(t.handles, op.h, id, r.reg.claims[id].account);
      IssueHolders(spent, issued, id, r.reg.claims[id].account);
    }
  }

  lemma FailedTransferCounts(t: Table, op: Op)
    requires Partition(t.reg) && Counted(t) && op.DoTransfer? && Unspent(t, op.h) && op.to != ""
    requires !CanTransfer(t.reg, t.handles[op.h].id, t.handles[op.h].account)
    ensures Counted(Step(t, op))
    ensures Exact(t) ==> (Exact(Step(t, op)) <==> !FailsTransfer(t, op))
  {
    assert Spend(t.handles, op.h) + [] == Spend(t.handles, op.h);
    SpendKeepsCounts(t, Step(t, op), op.h);
  }

  lemma StepKeepsCounts(t: Table, op: Op)
    requires Partition(t.reg) && IdsIssued(t) && Counted(t) && MovesToNewAccount(t, op)
    ensures Counted(Step(t, op))
    ensures Exact(t) && !FailsTransfer(t, op) ==> Exact(Step(t, op))
  {
    match op
    case Select(_, _, _) => SelectKeepsCounts(t, op);
    case DoTransfer(h, to, _, _) =>
      if Unspent(t, h) && to != "" {
        if CanTransfer(t.reg, t.handles[h].id, t.handles[h].account) {
          TransferCounts(t, op);
        } else {
          FailedTransferCounts(t, op);
        }
      }
    case DoAcceptSwitch(_) =>
    case DoClearBarriers(_) =>
    case DoInvalidate(_) =>
    case DoRelease(h) => if Unspent(t, h) { ReleaseKeepsCounts(t, op); }
    case DoCommit(h, _) => if Unspent(t, h) { CommitKeepsCounts(t, op); }
    case DoPreserve(h) => if Unspent(t, h) { PreserveKeepsCounts(t, op); }
  }

  /** No transfer of the run moves a claim to an account another unspent handle of it is still on. */
  ghost predicate NeverReturns(ops: seq<Op>) {
    forall i :: 0 <= i < |ops| ==> MovesToNewAccount(Run(START, ops[..i]), ops[i])
  }

  ghost predicate NoTransferFails(ops: seq<Op>) {
    forall i :: 0 <= i < |ops| ==> !FailsTransfer(Run(START, ops[..i]), ops[i])
  }

  /** Along every run that never moves a claim back, a live claim counts all its unspent handles. */
  lemma {:induction false} CountsAlways(ops: seq<Op>)
    requires NeverReturns(ops)
    ensures IdsIssued(Run(START, ops)) && Counted(Run(START, ops))
    ensures NoTransferFails(ops) ==> Exact(Run(START, ops))
  {
    if ops != [] {
      var before := ops[..|ops| - 1];
      forall i | 0 <= i < |before| ensures before[..i] == ops[..i] {
      }
      CountsAlways(before);
      StepIds(Run(START, before), ops[|ops| - 1]);
      StepKeepsCounts(Run(START, before), ops[|ops| - 1]);
    }
  }

  /** The counts are right all along a run exactly when no transfer of the run moves a claim back. */
  lemma CountsExactlyWithoutReturn(ops: seq<Op>)
    ensures (forall i :: 0 <= i <= |ops| ==> Counted(Run(START, ops[..i]))) <==> NeverReturns(ops)
  {
    if NeverReturns(ops) {
      forall i | 0 <= i <= |ops| ensures Counted(Run(START, ops[..i])) {
        PrefixNeverReturns(ops, i);
        CountsAlways(ops[..i]);
      }
    }
    if forall i :: 0 <= i <= |ops| ==> Counted(Run(START, ops[..i])) {
      forall i | 0 <= i < |ops| ensures MovesToNewAccount(Run(START, ops[..i]), ops[i]) {
        assert Counted(Run(START, ops[..i + 1]));
        CountedMovesOn(ops, i);
      }
    }
  }

  lemma PrefixNeverReturns(ops: seq<Op>, n: nat)
    requires NeverReturns(ops) && n <= |ops|
    ensures NeverReturns(ops[..n])
  {
    forall i | 0 <= i < n ensures ops[..n][..i] == ops[..i] {
    }
  }

  lemma CountedMovesOn(ops: seq<Op>, i: nat)
    requires i < |ops| && Counted(Run(START, ops[..i])) && Counted(Run(START, ops[..i + 1]))
    ensures MovesToNewAccount(Run(START, ops[..i]), ops[i])
    ensures Exact(Run(START, ops[..i])) && Exact(Run(START, ops[..i + 1])) ==>
              !FailsTransfer(Run(START, ops[..i]), ops[i])
  {
    var t, op := Run(START, ops[..i]), ops[i];
    assert ops[..i + 1][..i] == ops[..i];
    if op.DoTransfer? && Unspent(t, op.h) && op.to != "" {
      if CanTransfer(t.reg, t.handles[op.h].id, t.handles[op.h].account) {
        TransferCounts(t, op);
      } else {
        FailedTransferCounts(t, op);
      }
    }
  }

  /** They are exact all along a run exactly when, besides, no transfer of a live claim fails. */
  lemma ExactWithoutReturnOrFailure(ops: seq<Op>)
    ensures (forall i :: 0 <= i <= |ops| ==> Counted(Run(START, ops[..i])) && Exact(Run(START, ops[..i]))) <==>
            NeverReturns(ops) && NoTransferFails(ops)
  {
    if NeverReturns(ops) && NoTransferFails(ops) {
      forall i | 0 <= i <= |ops| ensures Counted(Run(START, ops[..i])) && Exact(Run(START, ops[..i])) {
        PrefixNeverReturns(ops, i);
        assert forall j :: 0 <= j < i ==> ops[..i][..j] == ops[..j];
        CountsAlways(ops[..i]);
      }
    }
    if forall i :: 0 <= i <= |ops| ==> Counted(Run(START, ops[..i])) && Exact(Run(START, ops[..i])) {
      forall i | 0 <= i < |ops|
        ensures MovesToNewAccount(Run(START, ops[..i]), ops[i]) && !FailsTransfer(Run(START, ops[..i]), ops[i])
      {
        assert Counted(Run(START, ops[..i])) && Exact(Run(START, ops[..i]));
        assert Counted(Run(START, ops[..i + 1])) && Exact(Run(START, ops[..i + 1]));
        CountedMovesOn(ops, i);
      }
    }
  }

  /** Releasing or committing one handle leaves the claim to every other unspent holder. */
  lemma UseSparesOtherHolders(t: Table, op: Op, g: nat)
    requires Partition(t.reg) && Counted(t) && (op.DoRelease? || op.DoCommit?) && Unspent(t, op.h) && Unspent(t, g)
             && g != op.h
    requires Live(t.reg, t.handles[g].id, t.handles[g].account)
    ensures Live(Step(t, op).reg, t.handles[g].id, t.handles[g].account)
  {
    var id, account := t.handles[g].id, t.handles[g].account;
    SpendHolders(t.handles, op.h, id, account);
    HolderCounts(Spend(t.handles, op.h), g);
  }

  /** With exact counts no claim outlives its last holder. */
  lemma ExactHasHolder(t: Table, id: nat) returns (h: nat)
    requires Counted(t) && Exact(t) && id in t.reg.claims
    ensures Unspent(t, h) && t.handles[h].id == id && t.handles[h].account == t.reg.claims[id].account
  {
    h := CountWitness(t.handles, Holds(id, t.reg.claims[id].account));
  }

  /** A successful transfer: the moved claim counts the handle it returns and nobody else. */
  lemma TransferMoves(t: Table, h: nat, to: Account)
    requires Partition(t.reg) && Unspent(t, h) && to != "" && CanTransfer(t.reg, t.handles[h].id, t.handles[h].account)
    ensures var r := Step(t, DoTransfer(h, to, "", ""));
            && r.handles == Spend(t.handles, h) + [Handle(t.handles[h].id, to, false)]
            && CanTransfer(r.reg, t.handles[h].id, to) && r.reg.claims[t.handles[h].id].refs == 1
  {
  }

  /** The counts do break when a claim comes back: the second transfer drops the reference of a
      holder left behind on the first account, whose release then removes the claim from under
      the handle that was just issued. */
  lemma ReturningClaimIsLost(t: Table, h: nat, g: nat, away: Account)
    requires Partition(t.reg) && Unspent(t, h) && Unspent(t, g) && h != g
    requires t.handles[h].id == t.handles[g].id && t.handles[h].account == t.handles[g].account
    requires CanTransfer(t.reg, t.handles[h].id, t.handles[h].account)
    requires away != "" && t.handles[h].account != ""
    ensures var n := |t.handles|;
            var back := Step(Step(t, DoTransfer(h, away, "", "")), DoTransfer(n, t.handles[h].account, "", ""));
            var lost := Step(back, DoRelease(g));
            && Unspent(back, n + 1) && Live(back.reg, back.handles[n + 1].id, back.handles[n + 1].account)
            && Unspent(lost, n + 1) && !Live(lost.reg, lost.handles[n + 1].id, lost.handles[n + 1].account)
  {
    var n := |t.handles|;
    TransferMoves(t, h, away);
    var moved := Step(t, DoTransfer(h, away, "", ""));
    TransferMoves(moved, n, t.handles[h].account);
  }

  /** Two connections that share a claim, which is all `ReturningClaimIsLost` needs. */
  lemma SharedClaimIsReachable(key: Key, account: Account)
    requires account != ""
    ensures var op := Select([key], Durable("", ""), Decision(Some(account), "", "", "fresh"));
            var t := Step(Step(START, op), op);
            t.handles == [Handle(1, account, false), Handle(1, account, false)] && CanTransfer(t.reg, 1, account)
  {
    var op := Select([key], Durable("", ""), Decision(Some(account), "", "", "fresh"));
    assert [key][..0] == [];
    var one := Step(START, op);
    assert ClaimsFor(EMPTY, [key]) == [];
    assert one.reg.byKey[key] == 1;
    assert ClaimsFor(one.reg, [key]) == [1];
    SelectIssues(one, op);
  }

  // ---------- removed claims and settled claims

  ghost predicate Dead(t: Table, id: nat) {
    id <= t.reg.next && id !in t.reg.claims
  }

  /** Accepted once, or gone. */
  ghost predicate Closed(t: Table, id: nat) {
    id <= t.reg.next && (id in t.reg.claims ==> t.reg.claims[id].accepted)
  }

  /** Accepted or committed on `account`, or gone. */
  ghost predicate Settled(t: Table, id: nat, account: Account) {
    id <= t.reg.next &&
    (id in t.reg.claims ==>
         t.reg.claims[id].account == account && (t.reg.claims[id].accepted || t.reg.claims[id].committed))
  }

  predicate AcceptsSwitch(t: Table, op: Op, id: nat) {
    op.DoAcceptSwitch? && op.h < |t.handles| && t.handles[op.h].id == id
      && CanAcceptSwitch(t.reg, id, t.handles[op.h].account)
  }

  lemma SelectKeepsStatus(t: Table, op: Op, id: nat, account: Account)
    requires Partition(t.reg) && op.Select?
    ensures Dead(t, id) ==> Dead(Step(t, op), id)
    ensures Closed(t, id) ==> Closed(Step(t, op), id)
    ensures Settled(t, id, account) ==> Settled(Step(t, op), id, account)
  {
    if Step(t, op).handles != t.handles {
      SelectIssues(t, op);
    }
  }

  lemma StepKeepsStatus(t: Table, op: Op, id: nat, account: Account)
    requires Partition(t.reg)
    ensures Dead(t, id) ==> Dead(Step(t, op), id)
    ensures Closed(t, id) ==> Closed(Step(t, op), id)
    ensures Settled(t, id, account) ==> Settled(Step(t, op), id, account)
    ensures AcceptsSwitch(t, op, id) ==> !Closed(t, id) && Closed(Step(t, op), id)
  {
    if op.Select? {
      SelectKeepsStatus(t, op, id, account);
    }
  }

  /** Ids are never reused: no handle on a removed claim is ever active again. */
  lemma {:induction false} DeadStaysDead(t: Table, ops: seq<Op>, id: nat)
    requires Partition(t.reg) && Dead(t, id)
    ensures Dead(Run(t, ops), id)
    ensures forall h :: 0 <= h < |Run(t, ops).handles| && Run(t, ops).handles[h].id == id ==>
              !Live(Run(t, ops).reg, id, Run(t, ops).handles[h].account)
  {
    if ops != [] {
      DeadStaysDead(t, ops[..|ops| - 1], id);
      StepKeepsStatus(Run(t, ops[..|ops| - 1]), ops[|ops| - 1], id, "");
    }
  }

  /** An accepted or committed claim keeps its account for the rest of its life. */
  lemma {:induction false} SettledKeepsAccount(t: Table, ops: seq<Op>, id: nat, account: Account)
    requires Partition(t.reg) && Settled(t, id, account)
    ensures Settled(Run(t, ops), id, account)
  {
    if ops != [] {
      SettledKeepsAccount(t, ops[..|ops| - 1], id, account);
      StepKeepsStatus(Run(t, ops[..|ops| - 1]), ops[|ops| - 1], id, account);
    }
  }

  /** How often acceptSwitch answers true for the claim `id`, over all its handles. */
  ghost function Accepts(t: Table, ops: seq<Op>, id: nat): nat
    requires Partition(t.reg)
  {
    if ops == [] then 0
    else
      Accepts(t, ops[..|ops| - 1], id) +
      if AcceptsSwitch(Run(t, ops[..|ops| - 1]), ops[|ops| - 1], id) then 1 else 0
  }

  lemma {:induction false} AcceptsAtMostOnce(t: Table, ops: seq<Op>, id: nat)
    requires Partition(t.reg)
    ensures Accepts(t, ops, id) <= 1
    ensures Accepts(t, ops, id) == 1 ==> Closed(Run(t, ops), id)
  {
    if ops != [] {
      AcceptsAtMostOnce(t, ops[..|ops| - 1], id);
      StepKeepsStatus(Run(t, ops[..|ops| - 1]), ops[|ops| - 1], id, "");
    }
  }

  // ---------- the reference a failed transfer leaks

  /** One reference of the settled claim `id` belongs to no handle. */
  ghost predicate Leaked(t: Table, id: nat) {
    id in t.reg.claims && (t.reg.claims[id].accepted || t.reg.claims[id].committed) &&
    t.reg.claims[id].refs > Holders(t.handles, id, t.reg.claims[id].account)
  }

  predicate Removes(t: Table, op: Op, id: nat) {
    || (op.DoInvalidate? && id in t.reg.claims && t.reg.claims[id].account == op.account)
    || (op.DoPreserve? && op.h < |t.handles| && t.handles[op.h].id == id)
  }

  lemma FailedTransferLeaks(t: Table, op: Op)
    requires Partition(t.reg) && Counted(t) && FailsTransfer(t, op)
    ensures Leaked(Step(t, op), t.handles[op.h].id)
  {
    assert Spend(t.handles, op.h) + [] == Spend(t.handles, op.h);
    SpendHolders(t.handles, op.h, t.handles[op.h].id, t.handles[op.h].account);
  }

  lemma LeakPersists(t: Table, op: Op, id: nat)
    requires Partition(t.reg) && Leaked(t, id) && !Removes(t, op, id)
    ensures Leaked(Step(t, op), id)
  {
    var r := Step(t, op);
    var account := t.reg.claims[id].account;
    if op.Select? && r.handles != t.handles {
      SelectIssues(t, op);
      assert r.handles == t.handles + [r.handles[|t.handles|]];
      IssueHolders(t.handles, r.handles[|t.handles|], id, account);
    }
    if (op.DoRelease? || op.DoCommit? || op.DoPreserve? || op.DoTransfer?) && Unspent(t, op.h) {
      SpendHolders(t.handles, op.h, id, account);
      if op.DoTransfer? {
        var spent := Spend(t.handles, op.h);
        assert spent + [] == spent;
        IssueHolders(spent, Handle(t.handles[op.h].id, op.to, false), id, account);
      }
    }
  }

  /** A claim that lost a reference to a failed transfer survives every release and commit. */
  lemma {:induction false} LeakedClaimSurvives(t: Table, ops: seq<Op>, id: nat)
    requires Partition(t.reg) && Leaked(t, id)
    requires forall i :: 0 <= i < |ops| ==> !Removes(Run(t, ops[..i]), ops[i], id)
    ensures Leaked(Run(t, ops), id)
  {
    if ops != [] {
      var before := ops[..|ops| - 1];
      forall i | 0 <= i < |before| ensures before[..i] == ops[..i] {
      }
      LeakedClaimSurvives(t, before, id);
      LeakPersists(Run(t, before), ops[|ops| - 1], id);
    }
  }
}
