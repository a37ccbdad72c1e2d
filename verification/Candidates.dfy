/** What routing knows about an account, and the predicates and orders it selects by. Instants are
    integers, with 0 for the zero time; percentages are reals. */
module Candidates {
  import opened Wrappers

  type Id = string

  const SECOND := 1_000_000_000
  const RESET_PRIORITY_LEAD := 24 * 3600 * SECOND
  const WEEK_MINUTES := 7 * 24 * 60

  datatype Window = Window(usedPercent: real, minutes: int, resetsAt: int, seenAt: int) {
    predicate Known() { seenAt != 0 }
  }

  datatype ResetCredit = ResetCredit(id: string, available: bool, expiresAt: Option<int>)

  /** `balance` is None when it is not a finite number. */
  datatype Credits = Credits(hasCredits: bool, unlimited: bool, overageReached: bool, balance: Option<real>) {
    predicate Spendable() {
      !overageReached && (unlimited || (hasCredits && balance.Some? && balance.value > 0.0))
    }
  }

  datatype Plan = Free | Business | Enterprise | OtherPlan

  datatype Mode = NormalMode | PriorityMode | PausedMode

  function LongestWindow(primary: Window, secondary: Window): Window {
    if primary.Known() && !(secondary.Known() && secondary.minutes > primary.minutes) then primary
    else if secondary.Known() then secondary
    else Window(0.0, 0, 0, 0)
  }

  datatype Candidate = Candidate(
    id: Id, plan: Plan, paused: bool, reauth: bool, cooldown: int, primary: Window, secondary: Window,
    resetCredits: seq<ResetCredit>, spendReached: bool, credits: Option<Credits>, creditsRejected: bool,
    spent: bool, pressure: real, lastUsed: int, mode: Mode, allowCredits: bool)
  {
    predicate IncludedRouting() { plan.OtherPlan? }

    predicate QuotaKnown() { primary.Known() || secondary.Known() }

    predicate WeeklyExhausted() {
      var weekly := LongestWindow(primary, secondary);
      weekly.Known() && weekly.minutes >= WEEK_MINUTES && weekly.usedPercent >= 100.0
    }

    predicate Available(now: int) {
      IncludedRouting() && !paused && !reauth && !spent && !WeeklyExhausted() && QuotaKnown() && now > cooldown
    }

    predicate CreditAvailable(now: int) {
      && allowCredits && !paused && !reauth && now > cooldown
      && !spendReached && !creditsRejected && (WeeklyExhausted() || !IncludedRouting())
      && credits.Some? && credits.value.Spendable()
    }

    /** What routing asks, apart from the cooldown and the skips. */
    predicate Usable() { this.(cooldown := 0).Available(1) || this.(cooldown := 0).CreditAvailable(1) }

    function RoutingPriority(now: int): Option<int> {
      if !LongestWindow(primary, secondary).Known() then None
      else
        var credit := SoonestCredit(resetCredits, now, RESET_PRIORITY_LEAD);
        if credit.None? then None else credit.value.expiresAt
    }
  }

  // ---------- banked resets

  predicate Redeemable(credit: ResetCredit, now: int, lead: int) {
    && credit.available
    && (credit.expiresAt.Some? ==> credit.expiresAt.value > now)
    && (lead > 0 ==> credit.expiresAt.Some? && credit.expiresAt.value <= now + lead)
  }

  predicate ExpiresBefore(credit: ResetCredit, other: ResetCredit) {
    credit.expiresAt.Some? && (other.expiresAt.None? || credit.expiresAt.value < other.expiresAt.value)
  }

  function SoonestCredit(credits: seq<ResetCredit>, now: int, lead: int): Option<ResetCredit> {
    if credits == [] then None
    else
      var next := SoonestCredit(credits[..|credits| - 1], now, lead);
      var credit := credits[|credits| - 1];
      if Redeemable(credit, now, lead) && (next.None? || ExpiresBefore(credit, next.value)) then Some(credit) else next
  }

  method NextResetCredit(credits: seq<ResetCredit>, now: int, lead: int) returns (next: Option<ResetCredit>)
    ensures next == SoonestCredit(credits, now, lead)
  {
    next := None;
    for i := 0 to |credits|
      invariant next == SoonestCredit(credits[..i], now, lead)
    {
      assert credits[..i + 1][..i] == credits[..i];
      if !credits[i].available || (credits[i].expiresAt.Some? && credits[i].expiresAt.value <= now) {
        continue;
      }
      if lead > 0 && (credits[i].expiresAt.None? || credits[i].expiresAt.value > now + lead) {
        continue;
      }
      if next.None? || ExpiresBefore(credits[i], next.value) {
        next := Some(credits[i]);
      }
    }
    assert credits[..|credits|] == credits;
  }

  /** The soonest credit is redeemable, none expires sooner, and there is one whenever any is. */
  lemma {:induction false} SoonestCreditIsSoonest(credits: seq<ResetCredit>, now: int, lead: int)
    ensures var next := SoonestCredit(credits, now, lead);
            && (next.Some? ==> next.value in credits && Redeemable(next.value, now, lead))
            && (forall c :: c in credits && Redeemable(c, now, lead) ==> next.Some? && !ExpiresBefore(c, next.value))
  {
    if credits != [] {
      SoonestCreditIsSoonest(credits[..|credits| - 1], now, lead);
      assert credits == credits[..|credits| - 1] + [credits[|credits| - 1]];
    }
  }

  // ---------- the order of candidates

  function ComparePriority(c: Candidate, other: Candidate, now: int): int {
    if (c.mode == PriorityMode) != (other.mode == PriorityMode) then
      if c.mode == PriorityMode then -1 else 1
    else
      var priority, otherPriority := c.RoutingPriority(now), other.RoutingPriority(now);
      if priority.Some? != otherPriority.Some? then
        if priority.Some? then -1 else 1
      else if priority.Some? && priority.value != otherPriority.value then
        if priority.value < otherPriority.value then -1 else 1
      else 0
  }

  /** Manual priority first, then an expiring reset, then the reset that expires first. */
  datatype Rank = Rank(manual: int, expiring: int, expiresAt: int)

  function RankOf(c: Candidate, now: int): Rank {
    var priority := c.RoutingPriority(now);
    Rank(if c.mode == PriorityMode then 0 else 1, if priority.Some? then 0 else 1,
        if priority.Some? then priority.value else 0)
  }

  predicate Before(a: Rank, b: Rank) {
    a.manual < b.manual
      || (a.manual == b.manual && (a.expiring < b.expiring || (a.expiring == b.expiring && a.expiresAt < b.expiresAt)))
  }

  /** `ComparePriority` is the comparison of ranks, so it is a total preorder. */
  lemma ComparePriorityRanks(c: Candidate, other: Candidate, now: int)
    ensures ComparePriority(c, other, now) < 0 <==> Before(RankOf(c, now), RankOf(other, now))
    ensures ComparePriority(c, other, now) == 0 <==> RankOf(c, now) == RankOf(other, now)
    ensures ComparePriority(c, other, now) > 0 <==> Before(RankOf(other, now), RankOf(c, now))
  {
  }

  predicate Precedes(a: Id, b: Id) {
    if b == "" then false
    else if a == "" then true
    else a[0] < b[0] || (a[0] == b[0] && Precedes(a[1..], b[1..]))
  }

  lemma {:induction false} PrecedesTotal(a: Id, b: Id)
    ensures Precedes(a, b) || Precedes(b, a) || a == b
    ensures !(Precedes(a, b) && Precedes(b, a)) && !Precedes(a, a)
  {
    if a != "" && b != "" {
      PrecedesTotal(a[1..], b[1..]);
      PrecedesTotal(a[1..], a[1..]);
      assert a == [a[0]] + a[1..] && b == [b[0]] + b[1..];
    } else if a != "" {
      PrecedesTotal(a[1..], a[1..]);
    }
  }

  lemma {:induction false} PrecedesTransitive(a: Id, b: Id, c: Id)
    requires Precedes(a, b) && Precedes(b, c)
    ensures Precedes(a, c)
  {
    if a != "" && a[0] == b[0] && b[0] == c[0] {
      PrecedesTransitive(a[1..], b[1..], c[1..]);
    }
  }

  /** Least recently used first, then the smaller id. */
  predicate Staler(c: Candidate, other: Candidate) {
    c.lastUsed < other.lastUsed || (c.lastUsed == other.lastUsed && Precedes(c.id, other.id))
  }

  // ---------- the status shown for a candidate

  datatype Status = Live | Prioritized | OnCredits | Unchecked | Cooling | Paused | NeedsReauth | NotRouted

  function StatusOf(c: Candidate, now: int): Status {
    if c.CreditAvailable(now) then OnCredits
    else if !c.paused && !c.reauth && !c.IncludedRouting() && (!c.allowCredits || now > c.cooldown) then NotRouted
    else if c.paused then Paused
    else if c.reauth then NeedsReauth
    else if c.spent || c.WeeklyExhausted() || now < c.cooldown then Cooling
    else if !c.QuotaKnown() then Unchecked
    else if c.mode == PriorityMode || c.RoutingPriority(now).Some? then Prioritized
    else Live
  }

  /** The status promises routing exactly when routing would use the account, except at the very
      instant a cooldown ends: there it is shown live and is not yet used. */
  lemma StatusAgreesWithRouting(c: Candidate, now: int)
    ensures StatusOf(c, now) == OnCredits <==> c.CreditAvailable(now)
    ensures now != c.cooldown ==> (StatusOf(c, now) in {Live, Prioritized} <==> c.Available(now))
    ensures now == c.cooldown ==>
              (StatusOf(c, now) in {Live, Prioritized} <==>
               !c.paused && !c.reauth && !c.spent && !c.WeeklyExhausted() && c.QuotaKnown()
                 && (c.IncludedRouting() || c.allowCredits))
  {
  }
}
