/** The running totals of this month and the last, proved equal to adding up the whole history. */
module UsageMonths {
  import opened Wrappers
  import opened UsageTotals

  /** One response: the calendar month it fell in, counted from year 0, and its price if known. */
  datatype Response = Response(month: int, account: string, model: string, usage: Usage, cost: Option<int>)

  datatype MonthUsage = MonthUsage(month: int, usage: Usage, cost: Cost, models: map<string, Cost>) {
    function Add(r: Response): MonthUsage {
      MonthUsage(month, usage.Plus(r.usage), cost.Add(r.cost), models[r.model := CostOf(models, r.model).Add(r.cost)])
    }
  }

  function NewMonth(month: int): MonthUsage {
    MonthUsage(month, NO_USAGE, NO_COST, map[])
  }

  // ---------- from scratch

  /** A month, added up over the whole history. */
  function Collected(history: seq<Response>, month: int): (m: MonthUsage)
    ensures m.month == month
  {
    if history == [] then NewMonth(month)
    else
      var before := Collected(history[..|history| - 1], month);
      var last := history[|history| - 1];
      if last.month == month then before.Add(last) else before
  }

  /** What an account has cost in a month. */
  function Spent(history: seq<Response>, month: int, account: string): Cost {
    if history == [] then NO_COST
    else
      var before := Spent(history[..|history| - 1], month, account);
      var last := history[|history| - 1];
      if last.month == month && last.account == account then before.Add(last.cost) else before
  }

  /** The stored responses from the beginning of a month on. */
  function UsageEventsSince(stored: seq<Response>, month: int): (events: seq<Response>)
    ensures forall i {:trigger events[i]} :: 0 <= i < |events| ==> events[i].month >= month
  {
    if stored == [] then []
    else
      var before, last := UsageEventsSince(stored[..|stored| - 1], month), stored[|stored| - 1];
      if last.month >= month then before + [last] else before
  }

  /** A repricing counts responses of a month that has not begun with the current one. */
  function Clamp(r: Response, current: int): Response {
    if r.month > current then r.(month := current) else r
  }

  function Clamped(events: seq<Response>, current: int): (history: seq<Response>)
    ensures UpTo(history, current)
  {
    if events == [] then []
    else Clamped(events[..|events| - 1], current) + [Clamp(events[|events| - 1], current)]
  }

  /** Unless the clock has gone back, a repricing adds up what was stored: this month and the last,
      and every account's cost. */
  lemma {:induction false} RepricesStored(stored: seq<Response>, current: int, month: int, account: string)
    requires UpTo(stored, current) && current - 1 <= month <= current
    ensures Collected(Clamped(UsageEventsSince(stored, current - 1), current), month) == Collected(stored, month)
    ensures Spent(Clamped(UsageEventsSince(stored, current - 1), current), month, account) ==
            Spent(stored, month, account)
  {
    if stored != [] {
      var before, last := stored[..|stored| - 1], stored[|stored| - 1];
      var events := UsageEventsSince(before, current - 1);
      RepricesStored(before, current, month, account);
      if last.month >= current - 1 {
        assert (events + [last])[..|events|] == events;
        OneMore(Clamped(events, current), last, month, account);
      }
    }
  }

  predicate UpTo(history: seq<Response>, month: int) {
    forall i {:trigger history[i]} :: 0 <= i < |history| ==> history[i].month <= month
  }

  lemma OneMore(history: seq<Response>, r: Response, month: int, account: string)
    ensures Collected(history + [r], month) == if r.month == month then Collected(history, month).Add(r)
            else Collected(history, month)
    ensures Spent(history + [r], month, account) ==
            if r.month == month && r.account == account then Spent(history, month, account).Add(r.cost)
            else Spent(history, month, account)
  {
    assert (history + [r])[..|history|] == history;
  }

  lemma {:induction false} NothingYet(history: seq<Response>, month: int, account: string)
    requires UpTo(history, month - 1)
    ensures Collected(history, month) == NewMonth(month) && Spent(history, month, account) == NO_COST
  {
    if history != [] {
      NothingYet(history[..|history| - 1], month, account);
    }
  }

  /** The accounts' running costs are those of the month. */
  ghost predicate Tracks(costs: map<string, Cost>, history: seq<Response>, month: int) {
    forall a {:trigger CostOf(costs, a)} :: a != "" ==> CostOf(costs, a) == Spent(history, month, a)
  }

  function Charge(costs: map<string, Cost>, r: Response): map<string, Cost> {
    if r.account == "" then costs else costs[r.account := CostOf(costs, r.account).Add(r.cost)]
  }

  lemma TracksOneMore(costs: map<string, Cost>, history: seq<Response>, r: Response, month: int)
    requires Tracks(costs, history, month)
    ensures Tracks(if r.month == month then Charge(costs, r) else costs, history + [r], month)
  {
    var next := if r.month == month then Charge(costs, r) else costs;
    forall a | a != "" ensures CostOf(next, a) == Spent(history + [r], month, a) {
      OneMore(history, r, month, a);
      assert CostOf(costs, a) == Spent(history, month, a);
    }
  }

  lemma TracksNothing(costs: map<string, Cost>, history: seq<Response>, month: int)
    requires UpTo(history, month - 1) && forall a {:trigger CostOf(costs, a)} :: CostOf(costs, a) == NO_COST
    ensures Tracks(costs, history, month)
  {
    forall a {
      NothingYet(history, month, a);
    }
  }

  /** One more response of a repricing: it falls in last month, or counts as one of the current month. */
  lemma CountsOneMore(costs: map<string, Cost>, events: seq<Response>, i: nat, current: int)
    requires i < |events| && events[i].month >= current - 1 && Tracks(costs, Clamped(events[..i], current), current)
    ensures var counted, next, event := Clamped(events[..i], current), Clamped(events[..i + 1], current), events[i];
            if event.month < current then
              && Collected(next, current) == Collected(counted, current)
              && Collected(next, current - 1) == Collected(counted, current - 1).Add(event)
              && Tracks(costs, next, current)
            else
              && Collected(next, current) == Collected(counted, current).Add(event)
              && Collected(next, current - 1) == Collected(counted, current - 1)
              && Tracks(Charge(costs, event), next, current)
  {
    var counted, event := Clamped(events[..i], current), Clamp(events[i], current);
    assert events[..i + 1][..i] == events[..i];
    TracksOneMore(costs, counted, event, current);
    OneMore(counted, event, current, "");
    OneMore(counted, event, current - 1, "");
  }

  class UsageStats {
    var month: MonthUsage
    var lastMonth: MonthUsage
    var accounts: map<string, Cost> // monthly cost by account
    ghost var history: seq<Response> // every response applied since the last repricing or step back, with its price

    ghost predicate Valid()
      reads this
    {
      && lastMonth.month == month.month - 1 && UpTo(history, month.month)
      && month == Collected(history, month.month) && lastMonth == Collected(history, lastMonth.month)
      && Tracks(accounts, history, month.month)
    }

    constructor (current: int)
      ensures Valid() && history == [] && month.month == current
    {
      month, lastMonth, accounts, history := NewMonth(current), NewMonth(current - 1), map[], [];
    }

    method ResetCosts()
      modifies this`accounts
      ensures forall a {:trigger CostOf(accounts, a)} :: CostOf(accounts, a) == NO_COST
    {
      var left := accounts.Keys;
      while left != {}
        invariant left <= accounts.Keys
        invariant forall a {:trigger a in accounts} :: a in accounts && a !in left ==> accounts[a] == NO_COST
      {
        var a :| a in left;
        left := left - {a};
        accounts := accounts[a := NO_COST];
      }
    }

    /** A later month begins; the month before it is kept if it was the current one. An earlier month,
        after the clock has gone back, begins with nothing: all that was counted is forgotten. */
    method SyncUsageMonth(next: int)
      requires Valid()
      modifies this
      ensures Valid() && month.month == next
      ensures history == if next < old(month.month) then [] else old(history)
    {
      if next == month.month {
        return;
      }
      if next < month.month {
        history := [];
      }
      lastMonth := NewMonth(next - 1);
      if month.month == next - 1 {
        lastMonth := month;
      } else {
        NothingYet(history, next - 1, "");
      }
      NothingYet(history, next, "");
      month := NewMonth(next);
      ResetCosts();
      TracksNothing(accounts, history, next);
    }

    /** Responses come in any order; one older than last month counts nowhere. */
    method ApplyUsage(r: Response)
      requires Valid()
      modifies this
      ensures Valid() && history == old(history) + [r]
      ensures month.month == if r.month > old(month.month) then r.month else old(month.month)
    {
      if r.month == lastMonth.month {
        lastMonth := lastMonth.Add(r);
        Applied(r, month.month, accounts);
        return;
      }
      if r.month < month.month {
        Applied(r, month.month, accounts);
        return;
      }
      SyncUsageMonth(r.month);
      ghost var before := accounts;
      month := month.Add(r);
      if r.account != "" {
        accounts := accounts[r.account := CostOf(accounts, r.account).Add(r.cost)];
      }
      Applied(r, r.month, before);
    }

    /** Ghost bookkeeping: the totals already include `r`. */
    ghost method Applied(r: Response, current: int, before: map<string, Cost>)
      requires Tracks(before, history, current) && accounts == if r.month == current then Charge(before, r) else before
      requires r.month <= current && UpTo(history, current) && month.month == current && lastMonth.month == current - 1
      requires month == if r.month == current then Collected(history, current).Add(r) else Collected(history, current)
      requires lastMonth == if r.month == current - 1 then Collected(history, current - 1).Add(r)
               else Collected(history, current - 1)
      modifies this`history
      ensures Valid() && history == old(history) + [r]
    {
      TracksOneMore(before, history, r, current);
      OneMore(history, r, current, "");
      OneMore(history, r, current - 1, "");
      history := history + [r];
    }

    /** New prices: both months are added up again from the stored responses. */
    method Reprice(stored: seq<Response>, current: int)
      modifies this
      ensures Valid() && month.month == current
      ensures history == Clamped(UsageEventsSince(stored, current - 1), current)
    {
      var events := UsageEventsSince(stored, current - 1);
      var fresher, older := NewMonth(current), NewMonth(current - 1);
      var costs: map<string, Cost> := map[];
      for i := 0 to |events|
        invariant fresher == Collected(Clamped(events[..i], current), current)
        invariant older == Collected(Clamped(events[..i], current), current - 1)
        invariant Tracks(costs, Clamped(events[..i], current), current)
      {
        var event := events[i];
        CountsOneMore(costs, events, i, current);
        if event.month < current {
          older := older.Add(event);
          continue;
        }
        fresher := fresher.Add(event);
        if event.account != "" {
          costs := costs[event.account := CostOf(costs, event.account).Add(event.cost)];
        }
      }
      assert events[..|events|] == events;
      month, lastMonth := fresher, older;
      ResetCosts();
      history := Clamped(events, current);
      Overlaid(accounts, costs, history, current);
      accounts := accounts + costs;
    }
  }

  lemma Overlaid(reset: map<string, Cost>, costs: map<string, Cost>, history: seq<Response>, month: int)
    requires Tracks(costs, history, month) && forall a {:trigger CostOf(reset, a)} :: CostOf(reset, a) == NO_COST
    ensures Tracks(reset + costs, history, month)
  {
    forall a ensures CostOf(reset + costs, a) == CostOf(costs, a) {
      assert CostOf(reset, a) == NO_COST;
    }
  }
}
