/** The rolling 24-hour window of an account's events, and its hourly buckets. */
module Activity {
  import opened Counting

  const HOUR := 3600 * 1_000_000_000
  const BUCKETS := 24
  const WINDOW := BUCKETS * HOUR
  const COMPACT := 1024

  function After(history: seq<int>, cutoff: int): seq<int> {
    if history == [] then []
    else After(history[..|history| - 1], cutoff) + if history[|history| - 1] > cutoff then [history[|history| - 1]]
         else []
  }

  predicate Ascending(history: seq<int>) {
    forall i, j {:trigger history[i], history[j]} :: 0 <= i < j < |history| ==> history[i] <= history[j]
  }

  /** Once an event is inside the window, every later one is. */
  predicate Parted(history: seq<int>, cutoff: int) {
    forall i, j {:trigger history[i], history[j]} :: 0 <= i < j < |history| && history[i] > cutoff ==>
      history[j] > cutoff
  }

  lemma {:induction false} AfterSplits(past: seq<int>, rest: seq<int>, cutoff: int)
    ensures After(past + rest, cutoff) == After(past, cutoff) + After(rest, cutoff)
  {
    if rest == [] {
      assert past + rest == past;
    } else {
      AfterSplits(past, rest[..|rest| - 1], cutoff);
      assert (past + rest)[..|past + rest| - 1] == past + rest[..|rest| - 1];
    }
  }

  lemma {:induction false} AfterInside(history: seq<int>, cutoff: int)
    ensures forall i :: 0 <= i < |After(history, cutoff)| ==> After(history, cutoff)[i] > cutoff
  {
    if history != [] {
      AfterInside(history[..|history| - 1], cutoff);
    }
  }

  lemma {:induction false} AfterAll(history: seq<int>, cutoff: int)
    requires forall i :: 0 <= i < |history| ==> history[i] > cutoff
    ensures After(history, cutoff) == history
  {
    if history != [] {
      AfterAll(history[..|history| - 1], cutoff);
    }
  }

  lemma {:induction false} AfterNone(history: seq<int>, cutoff: int)
    ensures After(history, cutoff) == [] <==> forall i :: 0 <= i < |history| ==> history[i] <= cutoff
  {
    if history != [] {
      AfterNone(history[..|history| - 1], cutoff);
    }
  }

  class RollingCounter {
    var events: seq<int>
    var start: nat
    ghost var forgotten: seq<int> // no longer reported, oldest first
    ghost var latest: int // the latest cutoff so far

    ghost predicate Valid()
      reads this
    {
      start <= |events| && forall i :: 0 <= i < |forgotten| ==> forgotten[i] <= latest
    }

    /** Every event ever added. */
    ghost function History(): seq<int>
      reads this
      requires start <= |events|
    {
      forgotten + events[start..]
    }

    constructor ()
      ensures Valid() && History() == [] && latest == 0
    {
      events, start, forgotten, latest := [], 0, [], 0;
    }

    method Add(at: int)
      requires Valid()
      modifies this
      ensures Valid() && History() == old(History()) + [at]
      ensures latest == if at - WINDOW > old(latest) then at - WINDOW else old(latest)
    {
      assert events[start..] + [at] == (events + [at])[start..];
      assert old(History()) + [at] == forgotten + (events[start..] + [at]);
      events := events + [at];
      var _ := Recent(at);
    }

    method PassOver(cutoff: int)
      requires Valid()
      modifies this`start, this`forgotten, this`latest
      ensures Valid() && History() == old(History())
      ensures latest == if cutoff > old(latest) then cutoff else old(latest)
      ensures |old(forgotten)| <= |forgotten| && forgotten[..|old(forgotten)|] == old(forgotten)
      ensures forall i :: |old(forgotten)| <= i < |forgotten| ==> forgotten[i] <= cutoff
      ensures start < |events| ==> events[start] > cutoff
    {
      while start < |events| && events[start] <= cutoff
        invariant old(start) <= start <= |events|
        invariant forgotten == old(forgotten) && latest == old(latest)
        invariant forall i :: old(start) <= i < start ==> events[i] <= cutoff
      {
        start := start + 1;
      }
      latest := if cutoff > latest then cutoff else latest;
      forgotten := forgotten + events[old(start)..start];
      assert events[old(start)..] == events[old(start)..start] + events[start..];
    }

    /** Events that have left the window are passed over, and now and then cut off. */
    method Recent(now: int) returns (recent: seq<int>)
      requires Valid()
      modifies this
      ensures Valid() && History() == old(History()) && recent == events[start..]
      ensures latest == if now - WINDOW > old(latest) then now - WINDOW else old(latest)
      ensures recent == After(History(), now - WINDOW) <==>
        Parted(History(), now - WINDOW) && forall i :: 0 <= i < |old(forgotten)| ==> old(forgotten)[i] <= now - WINDOW
      ensures now - WINDOW >= old(latest) ==>
        (recent == After(History(), now - WINDOW) <==> Parted(History(), now - WINDOW))
      ensures Ascending(History()) && now - WINDOW >= old(latest) ==> recent == After(History(), now - WINDOW)
      ensures forall i :: 0 <= i < |History()| - |recent| ==> History()[i] <= latest
    {
      var cutoff := now - WINDOW;
      PassOver(cutoff);
      recent := events[start..];
      Reported(old(forgotten), forgotten, recent, cutoff);
      if start == |events| {
        events, start := [], 0;
      } else if start >= COMPACT && start * 2 >= |events| {
        events, start := recent, 0;
      }
    }
  }

  /** What remains is what the window holds exactly when the history is parted and nothing was forgotten
      too early. */
  lemma Reported(before: seq<int>, forgotten: seq<int>, recent: seq<int>, cutoff: int)
    requires recent != [] ==> recent[0] > cutoff
    requires |before| <= |forgotten| && forgotten[..|before|] == before
    requires forall i :: |before| <= i < |forgotten| ==> forgotten[i] <= cutoff
    ensures recent == After(forgotten + recent, cutoff) <==>
            Parted(forgotten + recent, cutoff) && forall i :: 0 <= i < |before| ==> before[i] <= cutoff
    ensures Ascending(forgotten + recent) ==> Parted(forgotten + recent, cutoff)
  {
    SplitsAtWindow(forgotten, recent, cutoff);
    PartsAtWindow(forgotten, recent, cutoff);
    assert forall i :: 0 <= i < |before| ==> before[i] == forgotten[i];
  }

  lemma SplitsAtWindow(past: seq<int>, recent: seq<int>, cutoff: int)
    ensures recent == After(past + recent, cutoff) <==>
            && (forall i :: 0 <= i < |past| ==> past[i] <= cutoff)
            && (forall i :: 0 <= i < |recent| ==> recent[i] > cutoff)
  {
    AfterSplits(past, recent, cutoff);
    AfterNone(past, cutoff);
    AfterInside(past + recent, cutoff);
    if forall i :: 0 <= i < |recent| ==> recent[i] > cutoff {
      AfterAll(recent, cutoff);
    }
  }

  lemma PartsAtWindow(past: seq<int>, recent: seq<int>, cutoff: int)
    requires recent != [] ==> recent[0] > cutoff
    ensures (forall i :: 0 <= i < |past| ==> past[i] <= cutoff) ==>
              (Parted(past + recent, cutoff) <==> forall i :: 0 <= i < |recent| ==> recent[i] > cutoff)
    ensures Ascending(past + recent) ==> Parted(past + recent, cutoff)
  {
    var history := past + recent;
    forall i | 0 <= i < |recent| ensures recent[i] == history[|past| + i] {
    }
    if Parted(history, cutoff) {
      forall i | 0 <= i < |recent| ensures recent[i] > cutoff {
        assert i > 0 ==> history[|past|] > cutoff && history[|past| + i] > cutoff;
      }
    }
  }

  /** A history for which it is not: an event is added after one that it precedes by a day, and both
      are reported although only the first is inside the window. */
  method OutOfOrder(at: int) returns (recent: seq<int>)
    requires at > WINDOW
    ensures recent == [at, at - WINDOW] && After([at, at - WINDOW], at - WINDOW) == [at]
  {
    var counter := new RollingCounter();
    counter.Add(at);
    counter.Add(at - WINDOW);
    ghost var history := counter.History();
    assert history == [at, at - WINDOW];
    recent := counter.Recent(at);
    assert counter.History()[0] > counter.latest;
    OneOfTwo(at);
  }

  lemma OneOfTwo(at: int)
    ensures After([at, at - WINDOW], at - WINDOW) == [at]
  {
    assert [at, at - WINDOW][..1] == [at] && [at][..0] == [];
    assert After([], at - WINDOW) + [at] == [at];
  }

  // ---------- hourly buckets

  /** How many whole hours ago, as far back as the last bucket; the future counts as now. */
  function Bucket(now: int, at: int): (b: nat)
    ensures b < BUCKETS
  {
    var age := if now - at > 0 then now - at else 0;
    if age / HOUR < BUCKETS - 1 then age / HOUR else BUCKETS - 1
  }

  function InBucket(now: int, b: nat): int -> bool {
    at => Bucket(now, at) == b
  }

  function Sum(counts: seq<nat>): nat {
    if counts == [] then 0 else Sum(counts[..|counts| - 1]) + counts[|counts| - 1]
  }

  lemma {:induction false} SumIncrement(counts: seq<nat>, k: nat)
    requires k < |counts|
    ensures Sum(counts[k := counts[k] + 1]) == Sum(counts) + 1
  {
    var n := |counts| - 1;
    if k == n {
      assert counts[k := counts[k] + 1][..n] == counts[..n];
    } else {
      SumIncrement(counts[..n], k);
      assert counts[k := counts[k] + 1][..n] == counts[..n][k := counts[k] + 1];
    }
  }

  lemma {:induction false} SumOfZeros(counts: seq<nat>)
    requires forall i :: 0 <= i < |counts| ==> counts[i] == 0
    ensures Sum(counts) == 0
  {
    if counts != [] {
      SumOfZeros(counts[..|counts| - 1]);
    }
  }

  /** Every event is in one bucket, its own. */
  method AccountActivity(now: int, events: seq<int>) returns (activity: seq<nat>)
    ensures |activity| == BUCKETS && Sum(activity) == |events|
    ensures forall b: nat {:trigger activity[b]} :: b < BUCKETS ==> activity[b] == Count(events, InBucket(now, b))
  {
    activity := seq(BUCKETS, _ => 0);
    SumOfZeros(activity);
    for i := 0 to |events|
      invariant |activity| == BUCKETS && Sum(activity) == i
      invariant forall b: nat {:trigger activity[b]} :: b < BUCKETS ==>
        activity[b] == Count(events[..i], InBucket(now, b))
    {
      assert events[..i + 1] == events[..i] + [events[i]];
      forall b: nat {
        CountAppend(events[..i], events[i], InBucket(now, b));
      }
      var bucket := Bucket(now, events[i]);
      SumIncrement(activity, bucket);
      activity := activity[bucket := activity[bucket] + 1];
    }
    assert events[..|events|] == events;
  }
}
