/** The broadcaster and its channels as objects: every method takes the depicted board to the next
    one, never sends on a closed channel and never closes one twice. */
module BroadcastObjects {
  import opened Wrappers
  import opened Broadcast

  /** A bounded channel. */
  class Feed {
    var queue: seq<Fragments>
    var closed: bool

    constructor ()
      ensures queue == [] && !closed
    {
      queue, closed := [], false;
    }

    method Send(update: Fragments)
      requires !closed && |queue| < QUEUE_CAPACITY
      modifies this`queue
      ensures queue == old(queue) + [update]
    {
      queue := queue + [update];
    }

    method Close()
      requires !closed
      modifies this`closed
      ensures closed
    {
      closed := true;
    }

    ghost function AsChannel(): Channel
      reads this
    {
      Channel(queue, closed)
    }
  }

  class DashboardBroadcaster {
    var subscribers: set<Feed>
    var latest: Option<Fragments>
    var running: bool
    ghost var feeds: seq<Feed> // every channel so far

    ghost predicate Valid()
      reads this, feeds
    {
      && (forall i, j {:trigger feeds[i], feeds[j]} :: 0 <= i < j < |feeds| ==> feeds[i] != feeds[j])
      && (forall f {:trigger f in subscribers} :: f in subscribers ==> f in feeds)
      && (forall i {:trigger feeds[i]} :: 0 <= i < |feeds| ==>
             (feeds[i].closed <==> feeds[i] !in subscribers) && |feeds[i].queue| <= QUEUE_CAPACITY)
    }

    ghost predicate Depicts(b: Board)
      reads this, feeds
    {
      && |b.channels| == |feeds| && b.latest == latest && b.running == running
      && (forall c {:trigger c in b.subscribers} :: c in b.subscribers ==> c < |feeds|)
      && (forall i {:trigger feeds[i]} {:trigger b.channels[i]} :: 0 <= i < |feeds| ==>
             b.channels[i] == feeds[i].AsChannel())
      && (forall i {:trigger feeds[i]} :: 0 <= i < |feeds| ==> (i in b.subscribers <==> feeds[i] in subscribers))
    }

    constructor ()
      ensures Valid() && Depicts(NO_BOARD)
    {
      subscribers, latest, running, feeds := {}, None, false, [];
    }

    method Opened() returns (updates: Feed)
      ensures fresh(updates) && !updates.closed && updates.queue == if latest.Some? then [latest.value] else []
    {
      updates := new Feed();
      if latest.Some? {
        updates.Send(latest.value);
      }
    }

    /** A new subscriber starts from everything shown so far; the first one starts the producer. */
    method Subscribe(ghost b: Board) returns (updates: Feed, start: bool)
      requires Valid() && Depicts(b)
      modifies this
      ensures Valid() && Depicts(Broadcast.Subscribe(b))
      ensures fresh(updates) && feeds == old(feeds) + [updates] && start == !old(running)
    {
      updates := Opened();
      assert updates !in feeds && updates !in subscribers;
      subscribers := subscribers + {updates};
      start := !running;
      running := true;
      feeds := feeds + [updates];
    }

    method Unsubscribe(updates: Feed, ghost b: Board, ghost c: nat)
      requires Valid() && Depicts(b) && c < |feeds| && feeds[c] == updates
      modifies this, updates
      ensures Valid() && Depicts(Broadcast.Unsubscribe(b, c)) && feeds == old(feeds)
    {
      if updates !in subscribers {
        return;
      }
      subscribers := subscribers - {updates};
      updates.Close();
    }

    /** A full subscriber is dropped instead of waited for. */
    method Offer(updates: Feed, update: Fragments)
      requires Valid() && updates in subscribers
      modifies this`subscribers, updates
      ensures Valid() && feeds == old(feeds)
      ensures if |old(updates.queue)| < QUEUE_CAPACITY
              then updates.AsChannel() == Channel(old(updates.queue) + [update], false)
                     && subscribers == old(subscribers)
              else updates.AsChannel() == Channel(old(updates.queue), true)
                     && subscribers == old(subscribers) - {updates}
    {
      if |updates.queue| < QUEUE_CAPACITY {
        updates.Send(update);
      } else {
        subscribers := subscribers - {updates};
        updates.Close();
      }
    }

    method OfferAll(update: Fragments)
      requires Valid()
      modifies this`subscribers, subscribers
      ensures Valid() && feeds == old(feeds) && subscribers <= old(subscribers)
      ensures forall f {:trigger f in old(subscribers)} :: f in old(subscribers) ==>
                if |old(f.queue)| < QUEUE_CAPACITY then f in subscribers
                  && f.AsChannel() == Channel(old(f.queue) + [update], false)
                else f !in subscribers && f.AsChannel() == Channel(old(f.queue), true)
    {
      var left := subscribers;
      while left != {}
        invariant Valid() && left <= subscribers <= old(subscribers) && feeds == old(feeds)
        invariant forall f {:trigger f in left} :: f in left ==> f.AsChannel() == old(f.AsChannel())
        invariant forall f {:trigger f in old(subscribers)} :: f in old(subscribers) && f !in left ==>
                    if |old(f.queue)| < QUEUE_CAPACITY then f in subscribers
                      && f.AsChannel() == Channel(old(f.queue) + [update], false)
                    else f !in subscribers && f.AsChannel() == Channel(old(f.queue), true)
      {
        var updates :| updates in left;
        left := left - {updates};
        Offer(updates, update);
      }
    }

    method Publish(update: Fragments, full: Fragments, ghost b: Board)
      requires Valid() && Depicts(b)
      modifies this`latest, this`subscribers, subscribers
      ensures Valid() && Depicts(Broadcast.Publish(b, update, full)) && feeds == old(feeds)
    {
      latest := Some(full);
      OfferAll(update);
    }

    method StopIfIdle(ghost b: Board) returns (stopped: bool)
      requires Valid() && Depicts(b)
      modifies this`latest, this`running
      ensures Valid() && Depicts(Broadcast.StopIfIdle(b)) && feeds == old(feeds)
      ensures stopped == (subscribers == {})
    {
      assert forall c {:trigger c in b.subscribers} :: c in b.subscribers ==> c < |feeds| && feeds[c] in subscribers;
      if subscribers != {} {
        ghost var f :| f in subscribers;
        ghost var i :| 0 <= i < |feeds| && feeds[i] == f;
        assert i in b.subscribers;
        return false;
      }
      latest, running := None, false;
      return true;
    }

    method CloseAll()
      requires Valid()
      modifies this`subscribers, subscribers
      ensures Valid() && feeds == old(feeds) && subscribers == {}
      ensures forall f {:trigger f in old(subscribers)} :: f in old(subscribers) ==>
        f.AsChannel() == Channel(old(f.queue), true)
    {
      while subscribers != {}
        invariant Valid() && subscribers <= old(subscribers) && feeds == old(feeds)
        invariant forall f {:trigger f in subscribers} :: f in subscribers ==> f.AsChannel() == old(f.AsChannel())
        invariant forall f {:trigger f in old(subscribers)} :: f in old(subscribers) && f !in subscribers ==>
          f.AsChannel() == Channel(old(f.queue), true)
        decreases |subscribers|
      {
        var updates :| updates in subscribers;
        subscribers := subscribers - {updates};
        updates.Close();
      }
    }

    method Stop(ghost b: Board)
      requires Valid() && Depicts(b)
      modifies this, subscribers
      ensures Valid() && Depicts(Broadcast.Stop(b)) && feeds == old(feeds)
    {
      CloseAll();
      latest, running := None, false;
    }
  }
}
