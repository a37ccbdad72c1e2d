/** The dashboard broadcast: one producer sends changed fragments, each subscriber applies what it
    receives, and a late subscriber starts from the full set. */
module Broadcast {
  import opened Wrappers

  const QUEUE_CAPACITY := 2

  const NAMES := ["overview-update", "summary-update", "accounts-update", "workspace-section-update",
                  "routing-count-update", "threads-update", "events-update"]

  /** A rendered fragment names the element it replaces, so it is never empty. */
  type Fragment = s: string | s != "" witness "<div></div>"

  /** An update, or what a page shows: the fragments in it, by template. */
  type Fragments = map<string, Fragment>

  datatype Channel = Channel(queue: seq<Fragments>, closed: bool)

  datatype Board = Board(channels: seq<Channel>, subscribers: set<nat>, latest: Option<Fragments>, running: bool)

  const NO_BOARD := Board([], {}, None, false)

  predicate Room(c: Channel) { |c.queue| < QUEUE_CAPACITY }

  function Closed(b: Board, closing: set<nat>): seq<Channel> {
    seq(|b.channels|,
        c requires 0 <= c < |b.channels| => if c in closing then b.channels[c].(closed := true) else b.channels[c])
  }

  /** The new channel is the last one. */
  function Subscribe(b: Board): Board {
    b.(channels := b.channels + [Channel(if b.latest.Some? then [b.latest.value] else [], false)],
       subscribers := b.subscribers + {|b.channels|}, running := true)
  }

  function Unsubscribe(b: Board, c: nat): Board {
    if c !in b.subscribers then b else b.(subscribers := b.subscribers - {c}, channels := Closed(b, {c}))
  }

  function Publish(b: Board, update: Fragments, full: Fragments): Board {
    b.(latest := Some(full),
       subscribers := (set c | c in b.subscribers && c < |b.channels| && Room(b.channels[c])),
       channels := seq(|b.channels|, c requires 0 <= c < |b.channels| =>
         if c !in b.subscribers then b.channels[c]
         else if Room(b.channels[c]) then b.channels[c].(queue := b.channels[c].queue + [update])
         else b.channels[c].(closed := true)))
  }

  function StopIfIdle(b: Board): Board {
    if b.subscribers != {} then b else b.(latest := None, running := false)
  }

  function Stop(b: Board): Board {
    b.(subscribers := {}, channels := Closed(b, b.subscribers), latest := None, running := false)
  }

  // ---------- what is sent

  function Changed(names: seq<string>, fragments: map<string, Fragment>, previous: Fragments): Fragments
    requires forall n :: n in names ==> n in fragments
  {
    map n | n in names && !(n in previous && previous[n] == fragments[n]) :: fragments[n]
  }

  predicate Distinct(names: seq<string>) {
    forall i, j {:trigger names[i], names[j]} :: 0 <= i < j < |names| ==> names[i] != names[j]
  }

  lemma OneMoreName(names: seq<string>, i: nat, fragments: map<string, Fragment>, previous: Fragments)
    requires i < |names| && Distinct(names) && forall n :: n in names ==> n in fragments
    ensures names[i] !in Changed(names[..i], fragments, previous)
    ensures Changed(names[..i + 1], fragments, previous) ==
            if names[i] in previous && previous[names[i]] == fragments[names[i]] then
              Changed(names[..i], fragments, previous)
            else Changed(names[..i], fragments, previous)[names[i] := fragments[names[i]]]
  {
    assert names[..i + 1] == names[..i] + [names[i]];
    assert names[i] !in names[..i];
  }

  /** Together with what was shown before, the changed fragments show everything rendered. */
  lemma ChangedSuffices(names: seq<string>, fragments: map<string, Fragment>, previous: Fragments)
    requires forall n :: n in names ==> n in fragments
    ensures forall n :: n in names ==> n in previous + Changed(names, fragments, previous)
    ensures forall n :: n in names ==> (previous + Changed(names, fragments, previous))[n] == fragments[n]
  {
  }

  lemma UpdateMerged(shown: Fragments, changed: Fragments, name: string, fragment: Fragment)
    ensures (shown + changed)[name := fragment] == shown + changed[name := fragment]
  {
  }

  /** Renders the templates in order and keeps those that changed. `fails` is the first template that
      cannot be rendered, if any. */
  method RenderDashboardUpdates(names: seq<string>, fragments: map<string, Fragment>, fails: Option<nat>,
      previous: Fragments)
    returns (payload: Option<Fragments>, next: Fragments)
    requires Distinct(names) && forall n :: n in names ==> n in fragments
    ensures payload.None? <==> fails.Some? && fails.value < |names|
    ensures payload.Some? ==> payload.value == Changed(names, fragments, previous) && next == previous + payload.value
  {
    next := previous;
    var changed: Fragments := map[];
    for i := 0 to |names|
      invariant fails.Some? ==> i <= fails.value
      invariant changed == Changed(names[..i], fragments, previous) && next == previous + changed
    {
      OneMoreName(names, i, fragments, previous);
      if fails == Some(i) {
        return None, next;
      }
      var name := names[i];
      if !(name in next && next[name] == fragments[name]) {
        UpdateMerged(previous, changed, name, fragments[name]);
        changed := changed[name := fragments[name]];
        next := next[name := fragments[name]];
      }
    }
    assert names[..|names|] == names;
    payload := Some(changed);
  }

  // ---------- producer and subscribers together

  /** The producer: about to check for subscribers, about to render, about to publish, or failed. */
  datatype Stage = Checking | Rendering | Publishing(payload: Fragments) | Failing

  datatype Producer = NoProducer | Producer(previous: Fragments, stage: Stage)

  /** `views` is what each subscriber shows, from the messages it has received. */
  datatype System = System(board: Board, producer: Producer, views: seq<Fragments>)

  const BOOT := System(NO_BOARD, NoProducer, [])

  datatype Event =
    | Join
    | Quit(c: nat)
    | Receive(c: nat)
    | Check
    | Render(fragments: map<string, Fragment>, fails: Option<nat>, partial: Fragments)
    | Send
    | Halt

  function Apply(s: System, e: Event): System {
    match e
    case Join =>
      System(Subscribe(s.board), if s.board.running then s.producer else Producer(map[], Checking), s.views + [map[]])
    case Quit(c) => s.(board := Unsubscribe(s.board, c))
    case Receive(c) =>
      if c >= |s.board.channels| || c >= |s.views| || s.board.channels[c].queue == [] then s
      else
        var queue := s.board.channels[c].queue;
        s.(board := s.board.(channels := s.board.channels[c := s.board.channels[c].(queue := queue[1..])]),
           views := s.views[c := s.views[c] + queue[0]])
    case Check =>
      if s.producer.NoProducer? || !s.producer.stage.Checking? then s
      else if s.board.subscribers != {} then s.(producer := s.producer.(stage := Rendering))
      else s.(board := StopIfIdle(s.board), producer := NoProducer)
    case Render(fragments, fails, partial) =>
      if s.producer.NoProducer? || !s.producer.stage.Rendering? || !(forall n :: n in NAMES ==> n in fragments) then s
      else if fails.Some? then s.(producer := Producer(partial, Failing))
      else
        var payload := Changed(NAMES, fragments, s.producer.previous);
        s.(producer := Producer(s.producer.previous + payload,
            if payload == map[] then Checking else Publishing(payload)))
    case Send =>
      if s.producer.NoProducer? || !s.producer.stage.Publishing? then s
      else s.(board := Publish(s.board, s.producer.stage.payload, s.producer.previous),
               producer := s.producer.(stage := Checking))
    case Halt =>
      if s.producer.NoProducer? || s.producer.stage.Rendering? || s.producer.stage.Publishing? then s
      else s.(board := Stop(s.board), producer := NoProducer)
  }

  datatype Trace = Boot | Then(before: Trace, event: Event)

  function Replay(trace: Trace): System {
    match trace
    case Boot => BOOT
    case Then(before, event) => Apply(Replay(before), event)
  }

  // ---------- replication

  function AppliedTo(view: Fragments, queue: seq<Fragments>): Fragments {
    if queue == [] then view else AppliedTo(view, queue[..|queue| - 1]) + queue[|queue| - 1]
  }

  /** What the last update made of the dashboard. */
  function Published(b: Board): Fragments {
    if b.latest.Some? then b.latest.value else map[]
  }

  ghost predicate BoardFits(b: Board, views: seq<Fragments>) {
    && |views| == |b.channels|
    && (forall c {:trigger c in b.subscribers} :: c in b.subscribers ==> c < |b.channels| && b.running)
    && (forall c {:trigger b.channels[c]} :: 0 <= c < |b.channels| ==>
          (b.channels[c].closed <==> c !in b.subscribers) && |b.channels[c].queue| <= QUEUE_CAPACITY)
    && (forall c {:trigger b.channels[c]} :: 0 <= c < |b.channels| && c in b.subscribers ==>
          AppliedTo(views[c], b.channels[c].queue) == Published(b))
    && (!b.running ==> b.latest.None?)
  }

  ghost predicate ProducerFits(s: System) {
    && (s.board.running <==> s.producer.Producer?)
    && (s.producer.Producer? ==>
          match s.producer.stage
          case Publishing(payload) => s.producer.previous == Published(s.board) + payload
          case Failing => true
          case _ => s.producer.previous == Published(s.board))
  }

  ghost predicate Replicates(s: System) {
    BoardFits(s.board, s.views) && ProducerFits(s)
  }

  lemma AppliedAppend(view: Fragments, queue: seq<Fragments>, update: Fragments)
    ensures AppliedTo(view, queue + [update]) == AppliedTo(view, queue) + update
  {
    assert (queue + [update])[..|queue|] == queue;
  }

  lemma {:induction false} AppliedFirst(view: Fragments, queue: seq<Fragments>)
    requires queue != []
    ensures AppliedTo(view + queue[0], queue[1..]) == AppliedTo(view, queue)
  {
    var n := |queue| - 1;
    if n > 0 {
      AppliedFirst(view, queue[..n]);
      assert queue[..n][1..] == queue[1..][..n - 1];
      assert queue[1..][n - 1] == queue[n];
    } else {
      assert AppliedTo(view, queue[..0]) == view;
    }
  }

  lemma JoinReplicates(s: System)
    requires Replicates(s)
    ensures Replicates(Apply(s, Join))
  {
    var initial: seq<Fragments> := if s.board.latest.Some? then [s.board.latest.value] else [];
    assert AppliedTo(map[], initial) == Published(s.board) by {
      if s.board.latest.Some? {
        AppliedAppend(map[], [], s.board.latest.value);
        assert [] + initial == initial;
      }
    }
  }

  lemma QuitReplicates(s: System, c: nat)
    requires Replicates(s)
    ensures Replicates(Apply(s, Quit(c)))
  {
  }

  lemma ReceiveReplicates(s: System, c: nat)
    requires Replicates(s)
    ensures Replicates(Apply(s, Receive(c)))
  {
    if c < |s.board.channels| && s.board.channels[c].queue != [] {
      AppliedFirst(s.views[c], s.board.channels[c].queue);
    }
  }

  lemma SendReplicates(s: System)
    requires Replicates(s)
    ensures Replicates(Apply(s, Send))
  {
    if s.producer.Producer? && s.producer.stage.Publishing? {
      forall c | 0 <= c < |s.board.channels| && c in s.board.subscribers
        ensures AppliedTo(s.views[c], s.board.channels[c].queue + [s.producer.stage.payload]) == s.producer.previous
      {
        AppliedAppend(s.views[c], s.board.channels[c].queue, s.producer.stage.payload);
      }
    }
  }

  lemma ProducerReplicates(s: System, e: Event)
    requires Replicates(s) && (e.Check? || e.Render? || e.Halt?)
    ensures Replicates(Apply(s, e))
  {
    if e.Render? && Apply(s, e) != s && e.fails.None? && Changed(NAMES, e.fragments, s.producer.previous) == map[] {
      assert s.producer.previous + map[] == s.producer.previous;
    }
  }

  lemma {:induction false} AlwaysReplicates(trace: Trace)
    ensures Replicates(Replay(trace))
  {
    if trace.Then? {
      AlwaysReplicates(trace.before);
      var s := Replay(trace.before);
      match trace.event
      case Join => JoinReplicates(s);
      case Quit(c) => QuitReplicates(s, c);
      case Receive(c) => ReceiveReplicates(s, c);
      case Send => SendReplicates(s);
      case _ => ProducerReplicates(s, trace.event);
    }
  }

  /** A subscriber that has not been dropped shows, once it has received what is queued for it,
      exactly what the producer last published; with nothing waiting to be published, that is what
      the producer rendered last. */
  lemma SubscriberCatchesUp(trace: Trace, c: nat)
    requires c in Replay(trace).board.subscribers
    ensures var s := Replay(trace);
            && c < |s.views| && c < |s.board.channels| && !s.board.channels[c].closed
            && AppliedTo(s.views[c], s.board.channels[c].queue) == Published(s.board)
            && s.producer.Producer?
            && (s.producer.stage.Checking? || s.producer.stage.Rendering? ==> Published(s.board) == s.producer.previous)
  {
    AlwaysReplicates(trace);
    assert Replay(trace).board.channels[c].closed <==> c !in Replay(trace).board.subscribers;
  }
}
