/** Merging refreshed credentials with those another refresh or another process has stored. */
module Credentials {
  import opened Wrappers

  datatype Tokens = Tokens(id: string, access: string, refresh: string)

  datatype RoutingMode = Normal | Priority | Unknown(text: string) {
    function Normalized(): RoutingMode { if this == Priority then Priority else Normal }
  }

  datatype AccountState = AccountState(
    tokens: Tokens, paused: bool, mode: RoutingMode, allowCredits: bool, lastRefresh: int, reauth: string)

  /** What a token exchange comes back with; absent tokens are empty. */
  datatype Exchange = Issued(tokens: Tokens) | Declined(reason: string, permanent: bool)

  // ---------- the merges

  /** applyPersisted: newer or equally new credentials are taken over, preferences always. Changed
      credentials clear the need for a new sign-in, whatever the row says. */
  function Merged(current: AccountState, row: AccountState): AccountState {
    var taken :=
      if row.lastRefresh < current.lastRefresh then current
      else current.(tokens := row.tokens, lastRefresh := row.lastRefresh,
               reauth := if row.tokens != current.tokens then "" else row.reauth);
    taken.(paused := row.paused, mode := row.mode.Normalized(), allowCredits := row.allowCredits)
  }

  /** persistAccountState: the row after a refresh; a newer row stays. */
  function Stored(row: AccountState, next: AccountState): AccountState {
    if row.lastRefresh > next.lastRefresh then row
    else row.(tokens := next.tokens, lastRefresh := next.lastRefresh, reauth := next.reauth)
  }

  function Or(fresher: string, held: string): string { if fresher != "" then fresher else held }

  /** The state a refresh wants to store. */
  function Refreshed(state: AccountState, exchange: Exchange, now: int): AccountState {
    match exchange
    case Issued(t) =>
      state.(tokens := Tokens(Or(t.id, state.tokens.id), Or(t.access, state.tokens.access),
          Or(t.refresh, state.tokens.refresh)),
             lastRefresh := now, reauth := "")
    case Declined(reason, permanent) => if permanent then state.(reauth := reason) else state
  }

  /** Credentials that came from neither this refresh nor the state it started from. */
  predicate Superseded(current: AccountState, started: AccountState, next: AccountState) {
    current.tokens.refresh != started.tokens.refresh && current.tokens.refresh != next.tokens.refresh
  }

  /** What is left in memory when a refresh settles. A success puts what was stored there; a permanent
      refusal only asks for a new sign-in. */
  function SettledState(current: AccountState, started: AccountState, next: AccountState, problem: Option<string>,
      permanent: bool)
    : AccountState
  {
    if Superseded(current, started, next) then current
    else if problem.None? then next
    else if permanent then current.(reauth := next.reauth)
    else current
  }

  /** What a completion has in hand when it settles: the state, and the problem so far. */
  datatype Completion = Completion(next: AccountState, problem: Option<string>, permanent: bool)

  /** Exchanges that reach the store: new tokens, and refusals that are permanent. */
  predicate Reaches(exchange: Exchange) {
    exchange.Issued? || exchange.permanent
  }

  /** A transaction that failed to commit has already said what it would have stored. */
  function Completing(row: AccountState, started: AccountState, exchange: Exchange, now: int, fate: Fate): Completion {
    var next := Refreshed(started, exchange, now);
    match exchange
    case Issued(_) =>
      Completion(if fate == NeverRuns then ZERO else Stored(row, next),
          if fate == Commits then None else Some("not stored"), false)
    case Declined(reason, permanent) =>
      Completion(if permanent && fate == Commits then Stored(row, next) else next, Some(reason), permanent)
  }

  class CredentialAccount {
    var state: AccountState
    var rejected: Option<string> // the access token the upstream rejected, by its digest

    constructor (state: AccountState)
      ensures this.state == state && rejected == None
    {
      this.state, rejected := state, None;
    }

    method ApplyPersisted(row: AccountState) returns (changed: bool)
      modifies this
      ensures state == Merged(old(state), row)
      ensures changed == (state != old(state))
      ensures rejected == if state.tokens.access != old(state.tokens.access) then None else old(rejected)
    {
      var before := state;
      if row.lastRefresh >= state.lastRefresh {
        var accessChanged := state.tokens.access != row.tokens.access;
        state :=
          state.(tokens := row.tokens, lastRefresh := row.lastRefresh,
              reauth := if row.tokens != state.tokens then "" else row.reauth);
        if accessChanged {
          rejected := None;
        }
      }
      state := state.(paused := row.paused, mode := row.mode.Normalized(), allowCredits := row.allowCredits);
      changed := state != before;
    }

    /** The end of finishRefresh, under the account lock: `problem` is the outcome so far. */
    method Settle(started: AccountState, next: AccountState, problem: Option<string>, permanent: bool)
      returns (outcome: Option<string>)
      modifies this
      ensures state == SettledState(old(state), started, next, problem, permanent)
      ensures outcome == if Superseded(old(state), started, next) then None else problem
      ensures rejected == if state.tokens.access != old(state.tokens.access) then None else old(rejected)
    {
      if state.tokens.refresh != started.tokens.refresh && state.tokens.refresh != next.tokens.refresh {
        return None;
      }
      if problem.Some? {
        if permanent {
          state := state.(reauth := next.reauth);
        }
      } else {
        if state.tokens.access != next.tokens.access {
          rejected := None;
        }
        state := next;
      }
      outcome := problem;
    }
  }

  /** The stored row of the account, and the account in memory that follows it. */
  class CredentialStore {
    const account: CredentialAccount
    var row: Option<AccountState>

    constructor (account: CredentialAccount, row: Option<AccountState>)
      ensures this.account == account && this.row == row
    {
      this.account, this.row := account, row;
    }

    /** Reads, merges and writes the row in one transaction, then reconciles the account in memory.
        A transaction that fails to commit has already said what it would have stored. */
    method Persist(next: AccountState, fate: Fate) returns (persisted: AccountState, ok: bool)
      modifies this, account
      ensures ok <==> old(row).Some? && fate == Commits
      ensures !ok ==>
        row == old(row) && account.state == old(account.state) && account.rejected == old(account.rejected)
      ensures !ok ==> persisted == if old(row).Some? && fate == CommitFails then Stored(old(row).value, next) else ZERO
      ensures ok ==> persisted == Stored(old(row).value, next) && row == Some(persisted)
      ensures ok ==> account.state == Merged(old(account.state), persisted)
    {
      if row.None? || fate == NeverRuns {
        return ZERO, false;
      }
      persisted := Stored(row.value, next);
      ok := fate == Commits;
      if ok {
        row := Some(persisted);
        var _ := account.ApplyPersisted(persisted);
      }
    }

    /** A whole completion with nothing in between; without a row nothing can be stored. */
    method FinishRefresh(started: AccountState, exchange: Exchange, now: int, fate: Fate)
      returns (outcome: Option<string>)
      modifies this, account
      ensures var possible := if old(row).None? then NeverRuns else fate;
              var c := Completing(if old(row).None? then ZERO else old(row).value, started, exchange, now, possible);
              var stored := Reaches(exchange) && possible == Commits;
              var before := if stored then Merged(old(account.state), c.next) else old(account.state);
              && row == (if stored then Some(c.next) else old(row))
              && account.state == SettledState(before, started, c.next, c.problem, c.permanent)
              && outcome == if Superseded(before, started, c.next) then None else c.problem
      ensures old(row).Some? ==> row.Some? && row.value.lastRefresh >= old(row).value.lastRefresh
      ensures old(row).Some? && old(row).value.lastRefresh > Refreshed(started, exchange, now).lastRefresh ==>
        row == old(row)
      ensures exchange.Issued? && old(row).Some? && fate == Commits ==>
        outcome == None && row.value == Stored(old(row).value, Refreshed(started, exchange, now))
      ensures exchange.Issued? && old(row).Some? && fate == Commits
              && old(account.state.lastRefresh) <= row.value.lastRefresh ==>
        account.state.tokens == row.value.tokens && account.state.reauth == row.value.reauth
      ensures exchange.Issued? && old(row).Some? && fate == Commits
              && old(account.state.lastRefresh) > row.value.lastRefresh ==>
        account.state ==
          if old(account.state.tokens.refresh) in {started.tokens.refresh, row.value.tokens.refresh} then row.value
          else Merged(old(account.state), row.value)
      ensures exchange.Issued? && (old(row).None? || fate != Commits) ==>
        row == old(row) && account.state == old(account.state)
      ensures exchange.Declined? && !exchange.permanent ==> row == old(row) && account.state == old(account.state)
      ensures exchange.Declined? && outcome.None? ==> account.state.tokens.refresh != started.tokens.refresh
      ensures exchange.Declined? && exchange.permanent && old(row).Some? && fate == Commits
              && old(row).value.lastRefresh <= started.lastRefresh ==>
        row.value.reauth == exchange.reason
      ensures exchange.Declined? && exchange.permanent && outcome.Some? ==>
        account.state.reauth == if old(row).Some? && fate == Commits then row.value.reauth else exchange.reason
    {
      var next := Refreshed(started, exchange, now);
      var problem := if exchange.Declined? then Some(exchange.reason) else None;
      var permanent := exchange.Declined? && exchange.permanent;
      if exchange.Issued? {
        var ok;
        next, ok := Persist(next, fate);
        problem := if ok then None else Some("not stored");
      } else if permanent {
        var persisted, ok := Persist(next, fate);
        if ok {
          next := persisted;
        }
      }
      outcome := account.Settle(started, next, problem, permanent);
    }
  }

  /** What becomes of the transaction that stores a refresh. */
  datatype Fate = Commits | CommitFails | NeverRuns

  const ZERO := AccountState(Tokens("", "", ""), false, Unknown(""), false, 0, "")

  // ---------- what the merges keep

  /** Rows taken over one after the other. */
  function MergedAll(current: AccountState, rows: seq<AccountState>): AccountState {
    if rows == [] then current else Merged(MergedAll(current, rows[..|rows| - 1]), rows[|rows| - 1])
  }

  /** The credentials are those of `rows[i]`, and every later row is older. */
  predicate ComesFrom(m: AccountState, rows: seq<AccountState>, i: nat) {
    && i < |rows| && m.tokens == rows[i].tokens && m.lastRefresh == rows[i].lastRefresh
    && forall j :: i < j < |rows| ==> rows[j].lastRefresh < m.lastRefresh
  }

  predicate Kept(m: AccountState, current: AccountState, rows: seq<AccountState>) {
    && m.tokens == current.tokens && m.lastRefresh == current.lastRefresh
    && forall j :: 0 <= j < |rows| ==> rows[j].lastRefresh < m.lastRefresh
  }

  /** Whatever rows an account follows, and however stale some are, its credentials are the newest
      it has seen; among equally new ones the last. */
  lemma {:induction false} MergedAllIsNewest(current: AccountState, rows: seq<AccountState>)
    ensures var m := MergedAll(current, rows);
            && m.lastRefresh >= current.lastRefresh
            && (forall j :: 0 <= j < |rows| ==> rows[j].lastRefresh <= m.lastRefresh)
            && (Kept(m, current, rows) || exists i :: ComesFrom(m, rows, i))
  {
    if rows != [] {
      var front, last := rows[..|rows| - 1], rows[|rows| - 1];
      MergedAllIsNewest(current, front);
      var before, m := MergedAll(current, front), MergedAll(current, rows);
      if last.lastRefresh >= before.lastRefresh {
        assert ComesFrom(m, rows, |rows| - 1);
      } else if i :| ComesFrom(before, front, i) {
        assert ComesFrom(m, rows, i);
      }
    }
  }

  /** Following the same row again is not always a no-op: a row that brings new credentials and asks
      for a new sign-in is taken over without the request, which the second reading then adds. */
  lemma MergedTwice(current: AccountState, row: AccountState)
    ensures Merged(Merged(current, row), row) == Merged(current, row) <==>
            row.lastRefresh < current.lastRefresh || row.tokens == current.tokens || row.reauth == ""
  {
  }

  /** Settling makes an account forget newer credentials exactly when a stored refresh finds that they
      share a refresh token with what it started from or stored. */
  lemma SettleForgets(current: AccountState, started: AccountState, next: AccountState, problem: Option<string>,
      permanent: bool)
    ensures SettledState(current, started, next, problem, permanent).lastRefresh < current.lastRefresh <==>
            problem.None? && next.lastRefresh < current.lastRefresh
            && current.tokens.refresh in {started.tokens.refresh, next.tokens.refresh}
  {
  }

  /** A refresh is stored at `now`; before it settles, the account follows another process's newer row
      with the same refresh token; then it settles, and the account is back at `now`. */
  method OvertakenRefresh(started: AccountState, issued: Tokens, now: int, other: AccountState)
    returns (store: CredentialStore)
    requires started.lastRefresh <= now < other.lastRefresh
    requires other.tokens.refresh == Or(issued.refresh, started.tokens.refresh)
    ensures store.row == Some(other)
    ensures store.account.state.lastRefresh == now
    ensures store.account.state.tokens.refresh == other.tokens.refresh
  {
    var account := new CredentialAccount(started);
    store := new CredentialStore(account, Some(started));
    var next, _ := store.Persist(Refreshed(started, Issued(issued), now), Commits);
    store.row := Some(other);
    var _ := account.ApplyPersisted(other);
    assert account.state.lastRefresh == other.lastRefresh;
    var _ := account.Settle(started, next, None, false);
  }
}
