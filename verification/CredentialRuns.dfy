/** Runs of one account's credentials: its refreshes, the reloads of its row, and the writes of other
    processes, in any order. */
module CredentialRuns {
  import opened Credentials

  /** How far the account's refresh has come; there is at most one. */
  datatype Phase =
    | Idle
    | Exchanging(started: AccountState) // the tokens are on their way
    | Settling(started: AccountState, completion: Completion) // the row is written, memory not settled

  datatype System = System(memory: AccountState, row: AccountState, phase: Phase)

  datatype Event =
    | Begin
    | Complete(exchange: Exchange, now: int, fate: Fate) // reads and writes the row, and memory follows
    | Settle
    | Reload
    | Elsewhere(row: AccountState) // another process writes the row

  /** An event that cannot happen leaves the system as it is; no process stores older credentials. */
  function Apply(s: System, e: Event): System {
    match e
    case Begin => if s.phase.Idle? && s.memory.reauth == "" then s.(phase := Exchanging(s.memory)) else s
    case Complete(exchange, now, fate) =>
      if !s.phase.Exchanging? then s
      else
        var c := Completing(s.row, s.phase.started, exchange, now, fate);
        var stored := Reaches(exchange) && fate == Commits;
        System(if stored then Merged(s.memory, c.next) else s.memory, if stored then c.next else s.row,
            Settling(s.phase.started, c))
    case Settle =>
      if !s.phase.Settling? then s
      else
        var c := s.phase.completion;
        s.(memory := SettledState(s.memory, s.phase.started, c.next, c.problem, c.permanent), phase := Idle)
    case Reload => s.(memory := Merged(s.memory, s.row))
    case Elsewhere(row) => if row.lastRefresh < s.row.lastRefresh then s else s.(row := row)
  }

  function Run(row: AccountState, events: seq<Event>): System {
    if events == [] then System(row, row, Idle) else Apply(Run(row, events[..|events| - 1]), events[|events| - 1])
  }

  /** A refresh that has been stored and not yet settled. */
  predicate Unsettled(s: System) {
    s.phase.Settling? && s.phase.completion.problem.None?
  }

  predicate Fits(s: System) {
    && s.memory.lastRefresh <= s.row.lastRefresh
    && (Unsettled(s) ==> s.phase.completion.next.lastRefresh <= s.memory.lastRefresh)
  }

  lemma ApplyFits(s: System, e: Event)
    requires Fits(s)
    ensures Fits(Apply(s, e)) && Apply(s, e).row.lastRefresh >= s.row.lastRefresh
  {
  }

  /** In every run memory is never ahead of the row, and a stored refresh is in memory or was
      overtaken there by something newer. */
  lemma {:induction false} MemoryFollows(row: AccountState, events: seq<Event>)
    ensures Fits(Run(row, events))
  {
    if events != [] {
      MemoryFollows(row, events[..|events| - 1]);
      ApplyFits(Run(row, events[..|events| - 1]), events[|events| - 1]);
    }
  }

  /** So whatever memory has forgotten, the next reload brings back. */
  lemma ReloadRestores(row: AccountState, events: seq<Event>)
    ensures var s := Run(row, events + [Reload]);
            s.memory.tokens == s.row.tokens && s.memory.lastRefresh == s.row.lastRefresh
  {
    MemoryFollows(row, events);
    assert (events + [Reload])[..|events|] == events;
  }

  // ---------- when memory gets older

  /** Settling now would put back the refresh it stored over something newer. */
  predicate Forgets(s: System) {
    && Unsettled(s)
    && s.phase.completion.next.lastRefresh < s.memory.lastRefresh
    && s.memory.tokens.refresh in {s.phase.started.tokens.refresh, s.phase.completion.next.tokens.refresh}
  }

  lemma OlderExactly(s: System, e: Event)
    ensures Apply(s, e).memory.lastRefresh < s.memory.lastRefresh <==> e.Settle? && Forgets(s)
  {
    if e.Settle? && s.phase.Settling? {
      var c := s.phase.completion;
      SettleForgets(s.memory, s.phase.started, c.next, c.problem, c.permanent);
    }
  }

  function At(row: AccountState, events: seq<Event>, i: nat): System
    requires i <= |events|
  {
    Run(row, events[..i])
  }

  lemma OneMoreEvent(row: AccountState, events: seq<Event>, i: nat)
    requires i < |events|
    ensures At(row, events, i + 1) == Apply(At(row, events, i), events[i])
  {
    assert events[..i + 1][..i] == events[..i];
  }

  predicate NeverForgets(row: AccountState, events: seq<Event>) {
    forall i {:trigger At(row, events, i)} :: 0 <= i < |events| && events[i].Settle? ==> !Forgets(At(row, events, i))
  }

  predicate NeverOlder(row: AccountState, events: seq<Event>) {
    forall i, j {:trigger At(row, events, i), At(row, events, j)} :: 0 <= i <= j <= |events| ==>
      At(row, events, i).memory.lastRefresh <= At(row, events, j).memory.lastRefresh
  }

  /** Memory never gets older in a run exactly when no refresh settles over newer credentials that
      share a refresh token with it. */
  lemma MemoryNeverOlder(row: AccountState, events: seq<Event>)
    ensures NeverOlder(row, events) <==> NeverForgets(row, events)
  {
    if NeverForgets(row, events) {
      forall i, j | 0 <= i <= j <= |events|
        ensures At(row, events, i).memory.lastRefresh <= At(row, events, j).memory.lastRefresh
      {
        OlderNever(row, events, i, j);
      }
    } else {
      var i :| 0 <= i < |events| && events[i].Settle? && Forgets(At(row, events, i));
      OneMoreEvent(row, events, i);
      OlderExactly(At(row, events, i), events[i]);
      assert At(row, events, i).memory.lastRefresh > At(row, events, i + 1).memory.lastRefresh;
    }
  }

  lemma {:induction false} OlderNever(row: AccountState, events: seq<Event>, i: nat, j: nat)
    requires NeverForgets(row, events) && i <= j <= |events|
    ensures At(row, events, i).memory.lastRefresh <= At(row, events, j).memory.lastRefresh
  {
    if i < j {
      OlderNever(row, events, i, j - 1);
      OneMoreEvent(row, events, j - 1);
      OlderExactly(At(row, events, j - 1), events[j - 1]);
    }
  }

  /** In the phase the run ends in, a reload took over what memory holds. */
  predicate OvertakenAt(row: AccountState, events: seq<Event>, k: nat, s: System) {
    && k < |events| && events[k].Reload?
    && (forall m {:trigger At(row, events, m)} :: k <= m <= |events| ==> At(row, events, m).phase == s.phase)
    && At(row, events, k).row.tokens == s.memory.tokens && At(row, events, k).row.lastRefresh == s.memory.lastRefresh
  }

  /** A stored refresh is what memory holds, unless a reload came between: only then can it forget. */
  lemma {:induction false} OvertakenByReload(row: AccountState, events: seq<Event>)
    requires Unsettled(Run(row, events))
    ensures var s := Run(row, events); var next := s.phase.completion.next;
            (s.memory.tokens == next.tokens && s.memory.lastRefresh == next.lastRefresh)
            || exists k :: OvertakenAt(row, events, k, s)
  {
    if events != [] {
      var n := |events| - 1;
      var front, before, s := events[..n], Run(row, events[..n]), Run(row, events);
      MemoryFollows(row, front);
      assert events[..n + 1] == events;
      if events[n].Reload? {
        assert OvertakenAt(row, events, n, s);
      } else if before.phase == s.phase {
        OvertakenByReload(row, front);
        if k: nat :| OvertakenAt(row, front, k, before) {
          assert forall m | 0 <= m <= n :: front[..m] == events[..m];
          forall m | k <= m <= |events| ensures At(row, events, m).phase == s.phase {
            assert m <= n ==> At(row, events, m) == At(row, front, m);
          }
          assert OvertakenAt(row, events, k, s);
        }
      }
    }
  }

  /** Such a run: the refresh stores its tokens at 1, another process refreshes at 2 and gets the same
      refresh token, and memory ends at 1 although the row is at 2. */
  lemma RefreshForgets(tokens: Tokens, mode: RoutingMode)
    ensures var row := AccountState(tokens, false, mode, false, 0, "");
            var events := [Begin, Complete(Issued(tokens), 1, Commits), Elsewhere(row.(lastRefresh := 2)), Reload];
            && At(row, events, 4).memory.lastRefresh == 2 && Forgets(At(row, events, 4))
            && Apply(At(row, events, 4), Settle).memory.lastRefresh == 1
            && Apply(At(row, events, 4), Settle).row.lastRefresh == 2
  {
    var row := AccountState(tokens, false, mode, false, 0, "");
    var events := [Begin, Complete(Issued(tokens), 1, Commits), Elsewhere(row.(lastRefresh := 2)), Reload];
    assert events[..0] == [];
    OneMoreEvent(row, events, 0);
    OneMoreEvent(row, events, 1);
    OneMoreEvent(row, events, 2);
    OneMoreEvent(row, events, 3);
  }
}
