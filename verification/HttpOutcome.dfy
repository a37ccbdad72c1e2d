/** The HTTP side of a response: one JSON result, one JSON error, or one event stream that ends with
    its only terminal event and one [DONE]. */
module HttpOutcome {
  import opened Wrappers
  import opened OutputAssembly

  /** The types of upstream events. `LegacyDone` is Codex's response.done; `Other` says whether the
      type is one of the output families that count as output seen. */
  datatype Kind =
    | Created | ItemAdded | ItemDone | CompletedKind | Incomplete | FailedKind | ErrorKind | LegacyDone
    | Other(output: bool)
    | InvalidKind

  predicate Terminal(kind: Kind) {
    kind in {CompletedKind, Incomplete, FailedKind, ErrorKind}
  }

  datatype Failure = Failure(status: int, transientRateLimit: bool)

  /** A decoded upstream event. `sequence` is the number it carries, `status` whether its response
      has a status that contradicts its type, `failure` what responseFailure makes of it. */
  datatype Fields = Fields(
    kind: Kind, sequence: Option<int>, response: Option<Response>, conflicting: bool,
    index: Option<int>, item: Option<Raw>, failure: Failure)

  /** What arrives: a binary frame or invalid JSON is `Garbled`. */
  datatype Frame = Garbled | Frame(fields: Fields)

  datatype Body = Direct(json: string) | Assembled(fields: map<string, Raw>, output: seq<Raw>)

  /** What has been written to the client. */
  datatype Chunk = JsonResult(body: Body) | JsonError(status: int) | Event(kind: Kind, sequence: int) | DoneMarker

  /** Errors by identity, as errors.Is sees a joined error; no error is the empty set. */
  datatype Problem =
    | Finished | RetryOwner | InvalidResponse | AccountUnavailable | WriteFailed | UnexpectedEnd | BadOutput

  // ---------- what may be written

  predicate Progress(chunk: Chunk) {
    chunk.Event? && !Terminal(chunk.kind)
  }

  ghost predicate Open(log: seq<Chunk>) {
    forall i :: 0 <= i < |log| ==> Progress(log[i])
  }

  ghost predicate IsStream(log: seq<Chunk>) {
    && |log| >= 2 && Open(log[..|log| - 2])
    && log[|log| - 2].Event? && Terminal(log[|log| - 2].kind) && log[|log| - 1] == DoneMarker
  }

  /** Exactly one outcome. */
  ghost predicate OneOutcome(log: seq<Chunk>) {
    (|log| == 1 && (log[0].JsonResult? || (log[0].JsonError? && 400 <= log[0].status <= 599))) || IsStream(log)
  }

  /** Event numbers grow, and stay below `next`. */
  ghost predicate Numbered(log: seq<Chunk>, next: int) {
    && (forall i {:trigger log[i]} :: 0 <= i < |log| && log[i].Event? ==> log[i].sequence < next)
    && (forall i, j {:trigger log[i], log[j]} :: 0 <= i < j < |log| ==>
           log[i].Event? && log[j].Event? ==> log[i].sequence < log[j].sequence)
  }

  lemma StreamEnds(log: seq<Chunk>, kind: Kind, sequence: int)
    requires Open(log) && Terminal(kind)
    ensures IsStream(log + [Event(kind, sequence), DoneMarker])
  {
    assert (log + [Event(kind, sequence), DoneMarker])[..|log|] == log;
  }

  lemma NumberedAppend(log: seq<Chunk>, kind: Kind, sequence: int, next: int)
    requires Numbered(log, sequence) && sequence < next
    ensures Numbered(log, next)
    ensures Numbered(log + [Event(kind, sequence)], next)
    ensures Numbered(log + [Event(kind, sequence), DoneMarker], next)
  {
    var longer := log + [Event(kind, sequence)];
    assert forall i :: 0 <= i < |log| ==> longer[i] == log[i];
    NumberedDone(longer, next);
    assert longer + [DoneMarker] == log + [Event(kind, sequence), DoneMarker];
  }

  lemma NumberedDone(log: seq<Chunk>, next: int)
    requires Numbered(log, next)
    ensures Numbered(log + [DoneMarker], next)
  {
  }

  /** What ends a response that fails: the stream's failed event, or one JSON error whose status says
      that it is one. A transient throttle is a 503 when the client can come back to its account. */
  function Ending(committed: bool, failure: Failure, returnable: bool, sequence: int): seq<Chunk> {
    if committed then [Event(FailedKind, sequence), DoneMarker]
    else if failure.status == 429 && failure.transientRateLimit && returnable then [JsonError(503)]
    else [JsonError(if failure.status < 400 || failure.status > 599 then 502 else failure.status)]
  }

  /** The delivery state: nothing final before the end, one outcome after it unless a write failed. */
  ghost predicate Delivered(stream: bool, log: seq<Chunk>, broken: bool, committed: bool, finished: bool) {
    && (committed ==> stream)
    && (!finished ==> Open(log) && !broken && (committed <==> log != []))
    && (finished && !broken ==> OneOutcome(log))
  }

  /** A stream that has been ended is one outcome, and otherwise it is broken. */
  lemma EndedFits(before: seq<Chunk>, log: seq<Chunk>, kind: Kind, number: int, next: int, broken: bool, numbered: bool)
    requires Open(before) && Terminal(kind)
    requires log == before + [Event(kind, number), DoneMarker]
             || (broken && (log == before || log == before + [Event(kind, number)]))
    requires !numbered ==> Numbered(before, number) && number < next
    ensures Delivered(true, log, broken, true, true) && (!numbered ==> Numbered(log, next))
  {
    StreamEnds(before, kind, number);
    if !numbered {
      NumberedAppend(before, kind, number, next);
    }
  }

  /** An event that prepare refuses. */
  predicate Unacceptable(frame: Frame) {
    || frame.Garbled? || frame.fields.kind.InvalidKind?
    || (Normal(frame.fields.kind) in {CompletedKind, Incomplete, FailedKind}
         && (frame.fields.response.None? || frame.fields.conflicting))
  }

  function Normal(kind: Kind): Kind {
    if kind == LegacyDone then CompletedKind else kind
  }

  /** An event keeps the number it brings, and gets the next one otherwise. */
  function NumberOf(fields: Fields, next: int): int {
    if fields.sequence.Some? then fields.sequence.value else next
  }

  function Plain(fields: Fields): Fields {
    fields.(kind := Normal(fields.kind))
  }

  predicate ItemFits(fields: Fields) {
    fields.index.Some? && 0 <= fields.index.value < INDEX_LIMIT && fields.item.Some?
  }

  predicate Collectable(fields: Fields) {
    (fields.kind == Created ==> fields.response.Some?) && (fields.kind in {ItemAdded, ItemDone} ==> ItemFits(fields))
  }

  function Gained(fields: Fields): seq<ItemEvent>
    requires Collectable(fields)
  {
    if fields.kind == ItemAdded then [Added(fields.index.value)]
    else if fields.kind == ItemDone then [Completed(fields.index.value, fields.item.value)]
    else []
  }

  /** What the events so far have said: item events, the identity of the created response, and
      whether any output was seen. */
  datatype Known = Known(history: seq<ItemEvent>, created: map<string, Raw>, outputSeen: bool)

  /** A completed item must leave the retained output within its limit. */
  predicate Bounded(fields: Fields, known: Known) {
    fields.kind == ItemDone ==> Retained(known.history, known.created) <= MAX_HTTP_OUTPUT
  }

  const NOTHING_KNOWN := Known([], map[], false)

  function Learn(known: Known, fields: Fields): Known
    requires Collectable(fields)
  {
    Known(known.history + Gained(fields),
          if fields.kind == Created then Identity(fields.response.value.fields) else known.created,
          known.outputSeen || fields.kind in {ItemAdded, ItemDone, Other(true)})
  }

  class HttpPeer {
    const stream: bool
    const budget: nat // how many writes the client takes
    var log: seq<Chunk>
    var broken: bool // a write has failed
    var committed: bool
    var finished: bool
    var sequence: int
    var accountBound: bool
    var routeIdentified: bool
    var outputSeen: bool
    var created: map<string, Raw>
    var createdBytes: nat
    var items: map<nat, Raw>
    var pending: set<nat>
    var itemBytes: nat
    ghost var history: seq<ItemEvent>
    ghost var numbered: bool // some event brought its own number

    ghost function Knows(): Known
      reads this`history, this`created, this`outputSeen
    {
      Known(history, created, outputSeen)
    }

    /** Nothing has arrived yet. */
    ghost predicate New()
      reads this
    {
      Valid() && !finished && log == [] && sequence == 0 && !numbered && Knows() == NOTHING_KNOWN
    }

    ghost predicate Fit()
      reads this`log, this`broken, this`committed, this`finished, this`numbered, this`sequence
    {
      && Delivered(stream, log, broken, committed, finished)
      && (!numbered ==> Numbered(log, if finished then sequence + 1 else sequence))
      && (broken ==> |log| >= budget)
    }

    ghost predicate Valid()
      reads this`log, this`broken, this`committed, this`finished, this`numbered, this`sequence, this`history,
          this`items, this`pending, this`itemBytes, this`created, this`createdBytes
    {
      Fit()
        && (!finished ==> Gathered(history, items, pending, itemBytes) && createdBytes == FieldBytes(created, IDENTITY))
    }

    /** A failure can be retried with the account: the client's next request finds its way back. */
    predicate Returnable()
      reads this`accountBound, this`routeIdentified
    {
      !accountBound || routeIdentified
    }

    constructor (stream: bool, budget: nat)
      ensures New() && this.stream == stream && this.budget == budget
    {
      this.stream, this.budget := stream, budget;
      log, broken, committed, finished, sequence := [], false, false, false, 0;
      accountBound, routeIdentified, outputSeen, created, createdBytes := false, false, false, map[], 0;
      items, pending, itemBytes, history, numbered := map[], {}, 0, [], false;
      NothingGathered(INDEX_LIMIT);
      NoBytes(IDENTITY);
    }

    method Put(chunk: Chunk) returns (ok: bool)
      modifies this`log, this`broken
      ensures ok == (old(|log|) < budget) && broken == (old(broken) || !ok)
      ensures log == if ok then old(log) + [chunk] else old(log)
    {
      ok := |log| < budget;
      if ok {
        log := log + [chunk];
      } else {
        broken := true;
      }
    }

    /** The first event commits the response to a stream. */
    method WriteEvent(kind: Kind, number: int) returns (ok: bool)
      modifies this`log, this`broken, this`committed
      ensures committed && broken == (old(broken) || !ok) && (!ok ==> |log| >= budget)
      ensures log == if ok then old(log) + [Event(kind, number)] else old(log)
    {
      committed := true;
      ok := Put(Event(kind, number));
    }

    method FinishStream(kind: Kind, number: int) returns (ok: bool)
      modifies this`log, this`broken, this`committed, this`finished
      ensures committed && finished && broken == (old(broken) || !ok)
      ensures ok ==> log == old(log) + [Event(kind, number), DoneMarker]
      ensures !ok ==> (log == old(log) || log == old(log) + [Event(kind, number)]) && |log| >= budget
    {
      ok := WriteEvent(kind, number);
      finished := true;
      if ok {
        ok := Put(DoneMarker);
      }
    }

    /** Checks an event before it is accounted for, and gives it a number unless it brings one. */
    method Prepare(frame: Frame) returns (prepared: Option<Fields>, number: int)
      requires Valid() && !finished
      modifies this`sequence, this`numbered
      ensures Valid()
      ensures numbered == (old(numbered) || (!Unacceptable(frame) && frame.fields.sequence.Some?))
      ensures prepared == if Unacceptable(frame) then None else Some(Plain(frame.fields))
      ensures prepared.None? ==> sequence == old(sequence)
      ensures prepared.Some? ==>
        sequence == old(sequence) + 1 && number == NumberOf(frame.fields, old(sequence))
          && Prepared(prepared.value, number)
    {
      number := sequence;
      if frame.Garbled? || frame.fields.kind.InvalidKind? {
        return None, number;
      }
      var fields := Plain(frame.fields);
      if fields.kind in {CompletedKind, Incomplete, FailedKind} {
        if fields.response.None? || fields.conflicting {
          return None, number;
        }
      }
      if fields.sequence.Some? {
        number := fields.sequence.value;
        numbered := true;
      }
      sequence := sequence + 1;
      prepared := Some(fields);
    }

    /** Ends the response with an error, unless it has ended. */
    method Fail(failure: Failure) returns (problems: set<Problem>)
      requires Fit()
      modifies this`log, this`broken, this`committed, this`finished
      ensures Valid() && finished && problems != {} && problems <= {Finished, WriteFailed}
      ensures Finished in problems || (broken && !old(finished))
      ensures old(finished) ==> log == old(log) && broken == old(broken)
      ensures |log| <= old(|log|) + 2
      ensures !old(finished) && !broken ==> log == old(log) + Ending(old(committed), failure, Returnable(), sequence)
    {
      if finished {
        return {Finished};
      }
      var status := failure.status;
      if !committed && status == 429 && failure.transientRateLimit && Returnable() {
        status := 503;
      }
      finished := true;
      if status < 400 || status > 599 {
        status := 502;
      }
      if committed {
        ghost var before := log;
        var ok := FinishStream(FailedKind, sequence);
        EndedFits(before, log, FailedKind, sequence, sequence + 1, broken, numbered);
        if !ok {
          return {WriteFailed};
        }
      } else {
        var _ := Put(JsonError(status));
      }
      return {Finished};
    }

    method RememberCreated(response: Response)
      modifies this`created, this`createdBytes
      ensures created == Identity(response.fields) && createdBytes == FieldBytes(created, IDENTITY)
    {
      created, createdBytes := map[], 0;
      for i := 0 to |IDENTITY|
        invariant created == map key | key in response.fields && key in IDENTITY[..i] :: response.fields[key]
        invariant createdBytes == FieldBytes(response.fields, IDENTITY[..i])
      {
        var key := IDENTITY[i];
        assert IDENTITY[..i + 1] == IDENTITY[..i] + [key];
        if key in response.fields {
          created := created[key := response.fields[key]];
          createdBytes := createdBytes + |response.fields[key].json|;
        }
      }
      assert IDENTITY[..|IDENTITY|] == IDENTITY;
      IdentityBytes(response.fields, IDENTITY);
    }

    /** Collects one event; a refused one ends the response, so what it leaves behind is not used. */
    method Collect(fields: Fields) returns (ok: bool)
      requires Valid() && !finished
      modifies this`outputSeen, this`created, this`createdBytes, this`items, this`pending, this`itemBytes, this`history
      ensures Fit() && (ok ==> Valid())
      ensures ok ==> Collectable(fields) && Knows() == Learn(old(Knows()), fields)
      ensures ok <==> Collectable(fields) && Bounded(fields, Learn(old(Knows()), fields))
    {
      if fields.kind in {ItemAdded, ItemDone, Other(true)} {
        outputSeen := true;
      }
      if fields.kind == Created {
        if fields.response.None? {
          return false;
        }
        RememberCreated(fields.response.value);
        assert history + [] == history;
        return true;
      }
      if fields.kind != ItemAdded && fields.kind != ItemDone {
        assert history + [] == history;
        return true;
      }
      if !ItemFits(fields) {
        return false;
      }
      var index: nat := fields.index.value;
      if fields.kind == ItemAdded {
        GatherAdded(history, items, pending, itemBytes, index);
        pending := pending + {index};
        history := history + [Added(index)];
        return true;
      }
      var item := fields.item.value;
      GatherCompleted(history, items, pending, itemBytes, index, item);
      itemBytes := itemBytes + |item.json| - SizeAt(items, index);
      if itemBytes + createdBytes > MAX_HTTP_OUTPUT {
        return false;
      }
      items := items[index := item];
      pending := pending - {index};
      history := history + [Completed(index, item)];
      return true;
    }

    /** The output of the final response: its own array, or the completed items in index order. */
    method AssembleOutput(own: Output) returns (output: Option<seq<Raw>>)
      requires Valid() && !finished && !own.NotArray?
      ensures output.None? <==> NeedsRebuild(own, outputSeen) && !Rebuildable(history, outputSeen)
      ensures output.Some? && NeedsRebuild(own, outputSeen) ==> IsRebuilt(history, output.value)
      ensures output.Some? && !NeedsRebuild(own, outputSeen) ==> output.value == if own.NoOutput? then [] else own.items
    {
      var items' := if own.NoOutput? then [] else own.items;
      if |items'| > 0 || (own.Items? && !outputSeen) {
        return Some(items');
      }
      NothingPending(history, items, pending, itemBytes);
      if pending != {} || (outputSeen && items == map[]) {
        return None;
      }
      output := Rebuild(items);
      if output.Some? {
        RebuiltFromHistory(history, items, pending, itemBytes, output.value);
      }
    }

    method MergeFields(response: Response, kind: Kind) returns (merged: Option<map<string, Raw>>)
      ensures merged.None? <==> !HasId(WithFallback(response.fields, created))
      ensures merged.Some? ==> Faithful(response, kind, created, merged.value)
    {
      var fields := WithFallback(response.fields, created);
      if !HasId(fields) {
        return None;
      }
      if "object" !in fields {
        fields := fields["object" := Raw("\"response\"", Some("response"))];
      }
      if "status" !in fields {
        fields := fields["status" := StatusOf(kind)];
      }
      merged := Some(fields);
    }

    /** The final response object. `oversized` is whether its encoding exceeds the output limit. */
    method Result(fields: Fields, oversized: bool) returns (body: Option<Body>)
      requires Valid() && !finished
      ensures body.Some? <==> Answerable(fields, Knows(), oversized)
      ensures body.Some? ==> Answers(fields, Knows(), body.value)
    {
      if fields.response.None? {
        return None;
      }
      var response := fields.response.value;
      var merged := MergeFields(response, fields.kind);
      if merged.None? || response.output.NotArray? {
        return None;
      }
      var output := AssembleOutput(response.output);
      if output.None? || oversized {
        return None;
      }
      body := Some(Assembled(merged.value, output.value));
    }

    ghost predicate Prepared(fields: Fields, number: int)
      reads this`log, this`numbered, this`sequence
    {
      && fields.kind !in {LegacyDone, InvalidKind}
      && (fields.kind in {CompletedKind, Incomplete, FailedKind} ==> fields.response.Some?)
      && (!numbered ==> Numbered(log, number) && number < sequence)
    }

    method ForwardTerminal(kind: Kind, number: int) returns (problems: set<Problem>)
      requires Valid() && !finished && stream && Terminal(kind)
      requires !numbered ==> Numbered(log, number) && number < sequence
      modifies this`log, this`broken, this`committed, this`finished
      ensures Valid() && finished && problems != {} && problems <= {Finished, WriteFailed} && |log| <= old(|log|) + 2
      ensures Finished in problems || broken
      ensures !broken ==> log == old(log) + [Event(kind, number), DoneMarker]
    {
      ghost var before := log;
      var ok := FinishStream(kind, number);
      EndedFits(before, log, kind, number, sequence + 1, broken, numbered);
      problems := if ok then {Finished} else {WriteFailed};
    }

    method ForwardProgress(kind: Kind, number: int) returns (problems: set<Problem>)
      requires Valid() && !finished && stream && !Terminal(kind)
      requires !numbered ==> Numbered(log, number) && number < sequence
      modifies this`log, this`broken, this`committed, this`finished
      ensures Valid() && (finished <==> problems != {}) && problems <= {WriteFailed} && |log| <= old(|log|) + 1
      ensures finished ==> broken
      ensures !broken ==> log == old(log) + [Event(kind, number)]
    {
      if !numbered {
        NumberedAppend(log, kind, number, sequence);
      }
      var ok := WriteEvent(kind, number);
      if !ok {
        finished := true;
        return {WriteFailed};
      }
      problems := {};
    }

    /** One event of a stream. */
    method ForwardEvent(fields: Fields, number: int) returns (problems: set<Problem>)
      requires Valid() && !finished && stream && Prepared(fields, number)
      modifies this`log, this`broken, this`committed, this`finished
      modifies this`outputSeen, this`created, this`createdBytes, this`items, this`pending, this`itemBytes, this`history
      ensures Valid() && (finished <==> problems != {}) && problems <= {Finished, WriteFailed}
      ensures |log| <= old(|log|) + 2
      ensures finished ==> Finished in problems || broken
      ensures finished <==> EndsStream(fields) || broken
      ensures !broken ==> log == old(log) + Streamed(fields, number, old(committed), sequence)
    {
      if fields.kind == Created {
        var ok := Collect(fields);
        if !ok {
          problems := Fail(Failure(502, false));
          return;
        }
      }
      if Terminal(fields.kind) {
        problems := ForwardTerminal(Shown(fields.kind), number);
      } else {
        problems := ForwardProgress(fields.kind, number);
      }
    }

    method SendResult(body: Body) returns (problems: set<Problem>)
      requires Fit() && !finished && !stream
      modifies this`log, this`broken, this`finished
      ensures Valid() && finished && problems != {} && problems <= {Finished, WriteFailed} && |log| <= old(|log|) + 1
      ensures Finished in problems || broken
      ensures !broken ==> log == [JsonResult(body)]
    {
      finished := true;
      var ok := Put(JsonResult(body));
      problems := if ok then {Finished} else {WriteFailed};
    }

    method SendAnswer(fields: Fields, oversized: bool) returns (problems: set<Problem>)
      requires Valid() && !finished && !stream && fields.kind in {CompletedKind, Incomplete}
      modifies this`log, this`broken, this`committed, this`finished
      ensures Valid() && finished && problems != {} && problems <= {Finished, WriteFailed} && |log| <= old(|log|) + 2
      ensures Finished in problems || broken
      ensures !broken ==> Answered(log, fields, Knows(), oversized)
    {
      var body := Result(fields, oversized);
      if body.None? {
        problems := Fail(Failure(502, false));
      } else {
        problems := SendResult(body.value);
      }
    }

    /** One event of a response that is delivered as one JSON result. */
    method GatherEvent(fields: Fields, oversized: bool) returns (problems: set<Problem>)
      requires Valid() && !finished && !stream && fields.kind !in {LegacyDone, InvalidKind}
               && fields.kind !in {FailedKind, ErrorKind}
      modifies this`log, this`broken, this`committed, this`finished
      modifies this`outputSeen, this`created, this`createdBytes, this`items, this`pending, this`itemBytes, this`history
      ensures Valid() && (finished <==> problems != {}) && problems <= {Finished, WriteFailed}
      ensures |log| <= old(|log|) + 2
      ensures finished ==> Finished in problems || broken
      ensures Terminal(fields.kind) ==> finished
      ensures !finished ==> log == [] && Collectable(fields) && Knows() == Learn(old(Knows()), fields)
      ensures !Terminal(fields.kind) ==>
        (!finished <==> Collectable(fields) && Bounded(fields, Learn(old(Knows()), fields)))
      ensures finished && !broken && !Terminal(fields.kind) ==> log == [JsonError(502)]
      ensures finished && !broken && Terminal(fields.kind) ==>
        Answered(log, fields, old(Knows()), oversized)
    {
      if Terminal(fields.kind) {
        TerminalTellsNothing(fields, Knows());
      }
      var ok := Collect(fields);
      if !ok {
        problems := Fail(Failure(502, false));
        return;
      }
      if !Terminal(fields.kind) {
        return {};
      }
      problems := SendAnswer(fields, oversized);
    }

    /** An upstream failure ends a JSON response, and a stream that has not begun. */
    predicate Refusal(kind: Kind)
      reads this`committed
    {
      kind in {ErrorKind, FailedKind} && !committed && !(stream && kind == FailedKind)
    }

    method Write(fields: Fields, number: int, oversized: bool) returns (problems: set<Problem>)
      requires Valid() && !finished && Prepared(fields, number)
      modifies this`log, this`broken, this`committed, this`finished
      modifies this`outputSeen, this`created, this`createdBytes, this`items, this`pending, this`itemBytes, this`history
      ensures Valid() && (finished <==> problems != {}) && problems <= {Finished, WriteFailed}
      ensures |log| <= old(|log|) + 2
      ensures finished ==> Finished in problems || broken
      ensures finished <==> Ends(stream, fields, old(Knows())) || broken
      ensures stream && !broken ==>
        log == old(log) + Forwarded(fields, number, old(committed), sequence, Returnable())
      ensures !stream && !finished ==> log == [] && Knows() == Learn(old(Knows()), fields)
      ensures !stream && finished && !broken ==> Closes(log, fields, old(Knows()), oversized, Returnable())
    {
      if Refusal(fields.kind) {
        problems := Fail(fields.failure);
      } else if stream {
        problems := ForwardEvent(fields, number);
      } else {
        problems := GatherEvent(fields, oversized);
      }
    }

    /** A prepared event: whether its account takes it, what the client gets, and whose it remains. */
    method Admit(fields: Fields, number: int, step: Step) returns (problems: set<Problem>)
      requires Valid() && !finished && Prepared(fields, number)
      modifies this`log, this`broken, this`committed, this`finished
      modifies this`outputSeen, this`created, this`createdBytes, this`items, this`pending, this`itemBytes, this`history
      ensures Valid() && (finished ==> problems != {}) && |log| <= old(|log|) + 2
      ensures Finished in problems ==> finished
      ensures finished ==> Finished in problems || broken
      ensures fields.kind == Created && !step.accepted ==>
        problems == {AccountUnavailable} && log == old(log) && !finished
      ensures Taken(fields, step) ==> problems - {RetryOwner} <= {Finished, WriteFailed}
      ensures Taken(fields, step) ==> (problems - {RetryOwner} != {} <==> finished)
      ensures Taken(fields, step) ==> (RetryOwner in problems <==> KeepsOwner(step.rejection, accountBound))
      ensures Taken(fields, step) ==> (finished <==> Ends(stream, fields, old(Knows())) || broken)
      ensures Taken(fields, step) && stream && !broken ==>
        log == old(log) + Forwarded(fields, number, old(committed), sequence, Returnable())
      ensures Taken(fields, step) && !stream && !finished ==> log == [] && Knows() == Learn(old(Knows()), fields)
      ensures !stream && finished && !broken ==> Closes(log, fields, old(Knows()), step.oversized, Returnable())
    {
      if fields.kind == Created && !step.accepted {
        return {AccountUnavailable};
      }
      problems := Write(fields, number, step.oversized);
      if step.rejection in {UsageLimit, ModelCapacity} || (step.rejection == RateLimited && accountBound) {
        problems := problems + {RetryOwner};
      }
    }

    /** The same, once the event may have tied the response to its account. */
    method Dispatch(fields: Fields, number: int, step: Step) returns (problems: set<Problem>)
      requires Valid() && !finished && Prepared(fields, number)
      modifies this`accountBound, this`log, this`broken, this`committed, this`finished
      modifies this`outputSeen, this`created, this`createdBytes, this`items, this`pending, this`itemBytes, this`history
      ensures Valid() && (finished ==> problems != {}) && |log| <= old(|log|) + 2
      ensures Finished in problems ==> finished
      ensures finished ==> Finished in problems || broken
      ensures accountBound == (old(accountBound) || step.turnState)
      ensures fields.kind == Created && !step.accepted ==>
        problems == {AccountUnavailable} && log == old(log) && !finished
      ensures Taken(fields, step) ==> problems - {RetryOwner} <= {Finished, WriteFailed}
      ensures Taken(fields, step) ==> (problems - {RetryOwner} != {} <==> finished)
      ensures Taken(fields, step) ==> (RetryOwner in problems <==> KeepsOwner(step.rejection, accountBound))
      ensures Taken(fields, step) ==> (finished <==> Ends(stream, fields, old(Knows())) || broken)
      ensures Taken(fields, step) && stream && !broken ==>
        log == old(log) + Forwarded(fields, number, old(committed), sequence, Returnable())
      ensures Taken(fields, step) && !stream && !finished ==> log == [] && Knows() == Learn(old(Knows()), fields)
      ensures !stream && finished && !broken ==> Closes(log, fields, old(Knows()), step.oversized, Returnable())
    {
      accountBound := accountBound || step.turnState;
      problems := Admit(fields, number, step);
    }

    /** One upstream event, from its arrival to the client. */
    method Deliver(step: Step) returns (problems: set<Problem>)
      requires Valid() && !finished
      modifies this
      ensures Valid() && (finished ==> problems != {}) && |log| <= old(|log|) + 2
      ensures Finished in problems ==> finished
      ensures finished ==> Finished in problems || broken
      ensures routeIdentified == old(routeIdentified)
      ensures accountBound == (old(accountBound) || (!Unacceptable(step.frame) && step.turnState))
      ensures Unacceptable(step.frame) ==> problems == {InvalidResponse} && log == old(log) && !finished
      ensures Untaken(step) ==> problems == {AccountUnavailable} && log == old(log) && !finished
      ensures RetryOwner in problems <==> Keeps(step, accountBound)
      ensures Reached(step) ==> problems - {RetryOwner} <= {Finished, WriteFailed}
      ensures Reached(step) ==> (problems - {RetryOwner} != {} <==> finished)
      ensures sequence == old(sequence) + if Unacceptable(step.frame) then 0 else 1
      ensures numbered == (old(numbered) || (!Unacceptable(step.frame) && step.frame.fields.sequence.Some?))
      ensures Reached(step) ==> (finished <==> Ends(stream, Told(step), old(Knows())) || broken)
      ensures Reached(step) && stream && !broken ==>
        log == old(log) + ForwardedStep(step, old(sequence), old(committed), Returnable())
      ensures Reached(step) && !stream && !finished ==> log == [] && Knows() == Learn(old(Knows()), Told(step))
      ensures Reached(step) && !stream && finished && !broken ==>
        Closes(log, Told(step), old(Knows()), step.oversized, Returnable())
    {
      var prepared, number := Prepare(step.frame);
      if prepared.None? {
        return {InvalidResponse};
      }
      problems := Dispatch(prepared.value, number, step);
    }

    method DeliverJson(document: Document, taken: bool) returns (problems: set<Problem>)
      requires Valid() && !finished
      modifies this`log, this`broken, this`committed, this`finished
      ensures Valid() && problems != {} && |log| <= old(|log|) + 2
      ensures Finished in problems ==> finished
      ensures finished ==> Finished in problems || broken
      ensures finished <==> Whole(document) && !stream && taken
      ensures !finished ==> log == old(log) && committed == old(committed)
      ensures !finished ==> problems == {WhyUnread(document, stream)}
      ensures RetryOwner in problems <==> finished && document.capacity
      ensures finished && !broken && !document.capacity ==> log == [JsonResult(Direct(document.json))]
      ensures finished && !broken && document.capacity ==>
        log == Ending(false, document.failure, Returnable(), sequence)
    {
      if document.Unreadable? {
        return {UnexpectedEnd};
      }
      if document.TooLong? || document.NotAnObject? || document.status.None? || stream {
        return {InvalidResponse};
      }
      if !taken {
        return {AccountUnavailable};
      }
      if document.capacity {
        problems := Fail(document.failure);
        problems := problems + {RetryOwner};
      } else {
        problems := SendResult(Direct(document.json));
      }
    }

    /** The first `i` events have been delivered, and reading goes on. */
    ghost predicate Reading(steps: seq<Step>, i: nat, before: bool)
      requires i <= |steps|
      reads this
    {
      && Valid() && !finished && (Unnumbered(steps) ==> !numbered)
      && sequence == i && accountBound == Bound(steps[..i], before)
      && log == (if stream then RelayedAll(steps[..i]) else []) && (committed <==> stream && i > 0) && |log| <= 2 * i
      && (!stream ==> Knows() == LearnAll(steps[..i]))
      && PassedAll(steps, i, stream, before)
    }

    /** How far a response has come when its reading ends at `k`. */
    ghost predicate EndedAt(steps: seq<Step>, k: nat)
      requires k <= |steps|
      reads this
    {
      && (finished <==> EndsAt(steps, k, stream))
      && (finished ==> FinalLog(steps, k, stream, log, Returnable()))
      && (!finished ==> log == if stream then RelayedAll(steps[..Heard(steps, k)]) else [])
      && (!finished ==> sequence == Counted(steps, k))
    }

    /** The event at `i`, after those before it. */
    method ReadEvent(steps: seq<Step>, i: nat, ghost before: bool) returns (problems: set<Problem>)
      requires i < |steps| && Valid() && !finished && sequence == i && (committed <==> stream && i > 0)
      requires accountBound == Bound(steps[..i], before) && (!stream ==> Knows() == LearnAll(steps[..i]))
      modifies this
      ensures Valid() && |log| <= old(|log|) + 2 && routeIdentified == old(routeIdentified)
      ensures Finished in problems ==> finished
      ensures finished ==> problems != {} && (Finished in problems || broken)
      ensures numbered ==> old(numbered) || !Unnumbered(steps)
      ensures accountBound == Bound(steps[..i + 1], before) && sequence == Counted(steps, i)
      ensures RetryOwner in problems <==> KeptAt(steps, i, before)
      ensures finished <==> EndsAt(steps, i, stream) || broken
      ensures !broken ==> (problems == {} <==> Passed(steps, i, stream, before))
      ensures !finished ==> log == old(log) + (if stream && Reached(steps[i]) then Relayed(steps[i], i) else [])
      ensures finished && !broken && stream ==> log == old(log) + ForwardedStep(steps[i], i, i > 0, Returnable())
      ensures finished && !broken && !stream ==>
        Closes(log, Told(steps[i]), LearnAll(steps[..i]), steps[i].oversized, Returnable())
      ensures problems == {} && !stream ==> Knows() == LearnAll(steps[..i + 1])
    {
      OneMoreEvent(steps, i, before);
      problems := Deliver(steps[i]);
    }

    method ReadNext(steps: seq<Step>, i: nat, ghost before: bool) returns (problems: set<Problem>)
      requires i < |steps| && Reading(steps, i, before)
      modifies this
      ensures Valid() && |log| <= 2 * i + 2 && routeIdentified == old(routeIdentified)
      ensures Finished in problems ==> finished
      ensures finished ==> Finished in problems || broken
      ensures Unnumbered(steps) ==> !numbered
      ensures accountBound == Bound(steps[..i + 1], before)
      ensures RetryOwner in problems <==> KeptAt(steps, i, before)
      ensures problems == {} ==> Reading(steps, i + 1, before)
      ensures problems != {} && !broken ==> Stops(steps, i, stream, before) && EndedAt(steps, i)
    {
      OneMoreEvent(steps, i, before);
      ReadsOn(steps, i, stream, before);
      problems := ReadEvent(steps, i, before);
    }

    /** `k` is where the reading ends: an event, or the end of them. */
    method ReadEvents(steps: seq<Step>, ending: Problem) returns (problems: set<Problem>, ghost k: nat)
      requires New() && ending !in {Finished, WriteFailed, RetryOwner}
      modifies this
      ensures Valid() && problems != {} && |log| <= 2 * |steps|
      ensures Finished in problems ==> finished
      ensures finished ==> Finished in problems || broken
      ensures Unnumbered(steps) ==> !numbered
      ensures routeIdentified == old(routeIdentified)
      ensures k <= |steps| && accountBound == Bound(Read(steps, k), old(accountBound))
      ensures !broken ==> Stops(steps, k, stream, old(accountBound)) && EndedAt(steps, k)
      ensures RetryOwner in problems <==> KeptAt(steps, k, old(accountBound))
    {
      problems, k := {}, |steps|;
      assert steps[..0] == [];
      for i := 0 to |steps|
        invariant Reading(steps, i, old(accountBound)) && problems == {} && k == |steps|
        invariant routeIdentified == old(routeIdentified)
      {
        problems := ReadNext(steps, i, old(accountBound));
        if problems != {} {
          k := i;
          return;
        }
      }
      assert steps[..|steps|] == steps;
      problems := {ending};
    }

    /** The upstream refuses the request. */
    method Reject(status: int, failure: Failure, rejection: Rejection) returns (problems: set<Problem>)
      requires Valid() && !finished
      modifies this`log, this`broken, this`committed, this`finished
      ensures Valid() && finished && |log| <= old(|log|) + 2
      ensures Finished in problems || broken
      ensures !broken ==> log == old(log) + Ending(old(committed), Masked(status, failure), Returnable(), sequence)
      ensures RetryOwner in problems <==> KeepsOwner(rejection, accountBound)
    {
      problems := Fail(Masked(status, failure));
      if rejection == UsageLimit || rejection == ModelCapacity || (rejection == RateLimited && accountBound) {
        problems := problems + {RetryOwner};
      }
    }

    /** What did not end the response is a transport failure. */
    method Conclude(problems: set<Problem>, transport: Failure)
      requires Fit() && (Finished in problems ==> finished) && (finished ==> Finished in problems || broken)
      modifies this`log, this`broken, this`committed, this`finished
      ensures Valid() && finished && |log| <= old(|log|) + 2
      ensures old(finished) ==> log == old(log) && broken == old(broken)
      ensures !old(finished) && !broken ==> log == old(log) + Ending(old(committed), transport, Returnable(), sequence)
    {
      if Finished !in problems && !finished {
        var _ := Fail(transport);
      }
    }

    /** A response that arrives as one JSON document. */
    method RespondJson(document: Document, taken: bool, transport: Failure) returns (retained: bool)
      requires New()
      modifies this`log, this`broken, this`committed, this`finished
      ensures Valid() && finished && |log| <= 2
      ensures !broken ==>
        log == if !Whole(document) || stream || !taken then Ending(false, transport, Returnable(), 0)
               else if document.capacity then Ending(false, document.failure, Returnable(), 0)
               else [JsonResult(Direct(document.json))]
      ensures retained <==> Whole(document) && !stream && taken && document.capacity
    {
      var problems := DeliverJson(document, taken);
      Conclude(problems, transport);
      retained := RetryOwner in problems;
    }

    /** A response that arrives as events; `k` is where its reading ends. */
    method RespondEvents(steps: seq<Step>, ending: Problem, transport: Failure) returns (retained: bool, ghost k: nat)
      requires New() && ending !in {Finished, WriteFailed, RetryOwner}
      modifies this
      ensures Valid() && finished && |log| <= 2 * |steps| + 2
      ensures Unnumbered(steps) ==> !numbered
      ensures routeIdentified == old(routeIdentified)
      ensures k <= |steps| && accountBound == Bound(Read(steps, k), old(accountBound))
      ensures !broken ==> Stops(steps, k, stream, old(accountBound))
      ensures !broken ==> EventOutcome(steps, k, stream, log, transport, Returnable())
      ensures retained <==> KeptAt(steps, k, old(accountBound))
    {
      var problems;
      problems, k := ReadEvents(steps, ending);
      if !broken {
        RelayedHeard(steps, k, stream, old(accountBound));
      }
      Conclude(problems, transport);
      retained := RetryOwner in problems;
    }

    /** A whole upstream response, or the reason there is none: it always ends, with one outcome.
        `retained` says whether the account stays the owner of the route; `k` is where the reading of
        events ends. */
    method Respond(upstream: Upstream, transport: Failure) returns (retained: bool, ghost k: nat)
      requires New()
      requires upstream.EventBody? ==> upstream.ending !in {Finished, WriteFailed, RetryOwner}
      modifies this
      ensures finished
      ensures !broken ==> OneOutcome(log)
      ensures broken ==> |log| >= budget && |log| <= 2 * (if upstream.EventBody? then |upstream.steps| else 0) + 2
      ensures routeIdentified == old(routeIdentified) && (!upstream.EventBody? ==> accountBound == old(accountBound))
      ensures upstream.NoResponse? && !broken ==> log == Ending(false, upstream.failure, Returnable(), 0)
      ensures upstream.UnknownBody? && !broken ==> log == Ending(false, transport, Returnable(), 0)
      ensures upstream.NoResponse? || upstream.UnknownBody? ==> !retained
      ensures upstream.Rejected? && !broken ==>
        log == Ending(false, Masked(upstream.status, upstream.failure), Returnable(), 0)
      ensures upstream.Rejected? ==> (retained <==> KeepsOwner(upstream.rejection, accountBound))
      ensures upstream.JsonBody? && !broken ==>
        log == if !Whole(upstream.document) || stream || !upstream.taken then Ending(false, transport, Returnable(), 0)
               else if upstream.document.capacity then Ending(false, upstream.document.failure, Returnable(), 0)
               else [JsonResult(Direct(upstream.document.json))]
      ensures upstream.JsonBody? ==>
        (retained <==> Whole(upstream.document) && !stream && upstream.taken && upstream.document.capacity)
      ensures upstream.EventBody? && Unnumbered(upstream.steps) && !broken ==> Numbered(log, sequence + 1)
      ensures upstream.EventBody? ==>
        k <= |upstream.steps| && accountBound == Bound(Read(upstream.steps, k), old(accountBound))
      ensures upstream.EventBody? && !broken ==> Stops(upstream.steps, k, stream, old(accountBound))
      ensures upstream.EventBody? && !broken ==>
        EventOutcome(upstream.steps, k, stream, log, transport, Returnable())
      ensures upstream.EventBody? ==> (retained <==> KeptAt(upstream.steps, k, old(accountBound)))
    {
      retained, k := false, 0;
      match upstream {
        case NoResponse(failure) =>
          var _ := Fail(failure);
        case Rejected(status, failure, rejection) =>
          var problems := Reject(status, failure, rejection);
          retained := RetryOwner in problems;
        case JsonBody(document, taken) => retained := RespondJson(document, taken, transport);
        case EventBody(steps, ending) => retained, k := RespondEvents(steps, ending, transport);
        case UnknownBody => Conclude({InvalidResponse}, transport);
      }
    }
  }

  /** What can be answered: an identified response whose output is given or can be rebuilt. */
  ghost predicate Answerable(fields: Fields, known: Known, oversized: bool) {
    && fields.response.Some? && !oversized
    && HasId(WithFallback(fields.response.value.fields, known.created))
    && !fields.response.value.output.NotArray?
    && (NeedsRebuild(fields.response.value.output, known.outputSeen) ==> Rebuildable(known.history, known.outputSeen))
  }

  /** The body is the terminal response, completed from what was known. */
  ghost predicate Answers(fields: Fields, known: Known, body: Body) {
    && body.Assembled? && fields.response.Some?
    && Faithful(fields.response.value, fields.kind, known.created, body.fields)
    && (if NeedsRebuild(fields.response.value.output, known.outputSeen) then IsRebuilt(known.history, body.output)
        else fields.response.value.output == Items(body.output))
  }

  ghost predicate IsResult(log: seq<Chunk>, fields: Fields, known: Known) {
    && |log| == 1 && log[0].JsonResult? && fields.kind in {CompletedKind, Incomplete}
    && Answers(fields, known, log[0].body)
  }

  /** The one JSON outcome of a terminal event: a result exactly when it can be answered. */
  ghost predicate Answered(log: seq<Chunk>, fields: Fields, known: Known, oversized: bool) {
    if Answerable(fields, known, oversized) then IsResult(log, fields, known) else log == [JsonError(502)]
  }

  /** How an event ends a JSON response: an upstream failure is an error, a completed or incomplete
      event is answered, and any other event ends it only by being refused. */
  ghost predicate Closes(log: seq<Chunk>, fields: Fields, known: Known, oversized: bool, returnable: bool) {
    if fields.kind in {FailedKind, ErrorKind} then log == Ending(false, fields.failure, returnable, 0)
    else if Terminal(fields.kind) then Answered(log, fields, known, oversized)
    else log == [JsonError(502)]
  }

  lemma TerminalTellsNothing(fields: Fields, known: Known)
    requires Terminal(fields.kind)
    ensures Collectable(fields) && Learn(known, fields) == known
  {
    assert known.history + [] == known.history;
  }

  /** What a run of events says, one after the other. */
  function LearnAll(steps: seq<Step>): Known {
    if steps == [] then NOTHING_KNOWN
    else
      var known := LearnAll(steps[..|steps| - 1]);
      var last := steps[|steps| - 1];
      if last.frame.Frame? && Collectable(Told(last)) then Learn(known, Told(last)) else known
  }

  lemma OneMoreEvent(steps: seq<Step>, i: nat, before: bool)
    requires i < |steps|
    ensures Bound(steps[..i + 1], before) ==
            (Bound(steps[..i], before) || (!Unacceptable(steps[i].frame) && steps[i].turnState))
    ensures steps[i].frame.Frame? ==> RelayedAll(steps[..i + 1]) == RelayedAll(steps[..i]) + Relayed(steps[i], i)
    ensures steps[i].frame.Frame? && Collectable(Told(steps[i])) ==>
            LearnAll(steps[..i + 1]) == Learn(LearnAll(steps[..i]), Told(steps[i]))
  {
    assert steps[..i + 1][..i] == steps[..i];
  }

  /** The result comes from the completed or incomplete event at `i` and everything the events before
      it said. */
  ghost predicate ResultOf(steps: seq<Step>, i: nat, log: seq<Chunk>) {
    i < |steps| && steps[i].frame.Frame? && IsResult(log, Told(steps[i]), LearnAll(steps[..i]))
  }

  /** A JSON body, as far as it could be read. */
  datatype Document =
    | Unreadable | TooLong | NotAnObject
    | Document(json: string, status: Option<Kind>, capacity: bool, failure: Failure)

  datatype Upstream =
    | NoResponse(failure: Failure)
    | Rejected(status: int, failure: Failure, rejection: Rejection)
    | JsonBody(document: Document, taken: bool)
    | EventBody(steps: seq<Step>, ending: Problem)
    | UnknownBody

  predicate Unnumbered(steps: seq<Step>) {
    forall i {:trigger steps[i]} :: 0 <= i < |steps| && steps[i].frame.Frame? ==> steps[i].frame.fields.sequence.None?
  }

  // ---------- where the reading of events ends, and with what

  /** The event reaches the client: it is acceptable, and its account takes it. */
  predicate Reached(step: Step) {
    !Unacceptable(step.frame) && !Untaken(step)
  }

  /** The event lets the reading go on. */
  predicate Passed(steps: seq<Step>, i: nat, stream: bool, before: bool)
    requires i < |steps|
  {
    Reached(steps[i]) && !EndsAt(steps, i, stream) && !KeptAt(steps, i, before)
  }

  predicate PassedAll(steps: seq<Step>, n: nat, stream: bool, before: bool)
    requires n <= |steps|
  {
    forall i {:trigger Passed(steps, i, stream, before)} :: 0 <= i < n ==> Passed(steps, i, stream, before)
  }

  /** The reading ends at `k`: at the first event that does not let it go on, or where there are no more. */
  predicate Stops(steps: seq<Step>, k: nat, stream: bool, before: bool) {
    k <= |steps| && PassedAll(steps, k, stream, before) && (k < |steps| ==> !Passed(steps, k, stream, before))
  }

  lemma ReadsOn(steps: seq<Step>, i: nat, stream: bool, before: bool)
    requires i < |steps| && PassedAll(steps, i, stream, before)
    ensures if Passed(steps, i, stream, before) then PassedAll(steps, i + 1, stream, before)
            else Stops(steps, i, stream, before)
  {
  }

  lemma StopsOnce(steps: seq<Step>, i: nat, j: nat, stream: bool, before: bool)
    requires Stops(steps, i, stream, before) && Stops(steps, j, stream, before)
    ensures i == j
  {
  }

  /** The event ends a response of its kind: a terminal event both, a created event without a response
      a stream, and one that cannot be gathered a JSON response. */
  predicate Ends(stream: bool, fields: Fields, known: Known) {
    if stream then EndsStream(fields)
    else Terminal(fields.kind) || !Collectable(fields) || !Bounded(fields, Learn(known, fields))
  }

  predicate EndsStream(fields: Fields) {
    Terminal(fields.kind) || (fields.kind == Created && fields.response.None?)
  }

  predicate EndsAt(steps: seq<Step>, k: nat, stream: bool)
    requires k <= |steps|
  {
    k < |steps| && Reached(steps[k]) && Ends(stream, Told(steps[k]), LearnAll(steps[..k]))
  }

  /** How many events the client has heard of, and how many have been counted, when the reading ends at `k`. */
  function Heard(steps: seq<Step>, k: nat): (n: nat)
    requires k <= |steps|
    ensures n <= |steps|
  {
    if k < |steps| && Reached(steps[k]) then k + 1 else k
  }

  function Counted(steps: seq<Step>, k: nat): nat
    requires k <= |steps|
  {
    if k < |steps| && !Unacceptable(steps[k].frame) then k + 1 else k
  }

  function Read(steps: seq<Step>, k: nat): seq<Step>
    requires k <= |steps|
  {
    if k < |steps| then steps[..k + 1] else steps
  }

  /** The whole output when the event at `k` ends the response. */
  ghost predicate FinalLog(steps: seq<Step>, k: nat, stream: bool, log: seq<Chunk>, returnable: bool)
    requires k < |steps| && steps[k].frame.Frame?
  {
    if stream then log == RelayedAll(steps[..k]) + ForwardedStep(steps[k], k, k > 0, returnable)
    else Closes(log, Told(steps[k]), LearnAll(steps[..k]), steps[k].oversized, returnable)
  }

  /** The whole output of a response whose reading ends at `k`: what the last event makes of it, or
      what came before and then a transport failure. */
  ghost predicate EventOutcome(steps: seq<Step>, k: nat, stream: bool, log: seq<Chunk>, transport: Failure,
      returnable: bool)
    requires k <= |steps|
  {
    if EndsAt(steps, k, stream) then FinalLog(steps, k, stream, log, returnable)
    else if stream then
      var heard := Heard(steps, k);
      log == RelayedAll(steps[..heard]) + Ending(heard > 0, transport, returnable, Counted(steps, k))
    else log == Ending(false, transport, returnable, 0)
  }

  /** Every JSON result is the answer to a completed or incomplete event, and such an event is answered
      whenever it can be. */
  lemma ResultsAreAnswers(steps: seq<Step>, k: nat, log: seq<Chunk>, transport: Failure, returnable: bool)
    requires k <= |steps| && log != [] && EventOutcome(steps, k, false, log, transport, returnable)
    ensures log[0].JsonResult? <==>
              k < |steps| && Reached(steps[k]) && Kinded(steps[k]) in {CompletedKind, Incomplete}
              && Answerable(Told(steps[k]), LearnAll(steps[..k]), steps[k].oversized)
    ensures log[0].JsonResult? ==> ResultOf(steps, k, log)
  {
  }

  /** A failure that upstream reports is shown with its own status while nothing has been sent. */
  lemma FailuresAreShown(steps: seq<Step>, k: nat, stream: bool, log: seq<Chunk>, transport: Failure, returnable: bool)
    requires k < |steps| && Reached(steps[k]) && EventOutcome(steps, k, stream, log, transport, returnable)
    requires (Kinded(steps[k]) == ErrorKind && (stream ==> k == 0)) || (Kinded(steps[k]) == FailedKind && !stream)
    ensures log == Ending(false, steps[k].frame.fields.failure, returnable, 0)
  {
  }

  /** A stream that runs to a terminal event relays every event in order; an error event counts once
      others came first. */
  lemma TerminalIsRelayed(steps: seq<Step>, k: nat, log: seq<Chunk>, transport: Failure, returnable: bool)
    requires k < |steps| && Reached(steps[k]) && EventOutcome(steps, k, true, log, transport, returnable)
    requires Terminal(Kinded(steps[k])) && (Kinded(steps[k]) == ErrorKind ==> k > 0)
    ensures log == RelayedAll(steps[..k + 1])
  {
    OneMoreEvent(steps, k, false);
  }

  lemma RelayedHeard(steps: seq<Step>, k: nat, stream: bool, before: bool)
    requires Stops(steps, k, stream, before)
    ensures RelayedAll(steps[..Heard(steps, k)]) == [] <==> Heard(steps, k) == 0
  {
    var n := Heard(steps, k);
    if n > 0 {
      assert n - 1 < k ==> Passed(steps, n - 1, stream, before);
      OneMoreEvent(steps, n - 1, before);
    }
  }

  function RelayedAll(steps: seq<Step>): seq<Chunk> {
    if steps == [] then []
    else
      var n := |steps| - 1;
      RelayedAll(steps[..n]) + if steps[n].frame.Frame? then Relayed(steps[n], n) else []
  }

  /** The upstream's own credentials are none of the client's business, and its size limit is. */
  function Masked(status: int, failure: Failure): Failure {
    if status == 401 then failure.(status := 503)
    else if status == 413 then failure.(status := 400)
    else failure
  }

  function WhyUnread(document: Document, stream: bool): Problem {
    if document.Unreadable? then UnexpectedEnd
    else if Whole(document) && !stream then AccountUnavailable
    else InvalidResponse
  }

  predicate Whole(document: Document) {
    document.Document? && document.status.Some?
  }

  /** Some event so far tied the response to its account, if nothing had before. */
  predicate Bound(steps: seq<Step>, before: bool) {
    if steps == [] then before
    else
      var last := steps[|steps| - 1];
      Bound(steps[..|steps| - 1], before) || (!Unacceptable(last.frame) && last.turnState)
  }

  /** What the upstream's refusal says about the account's conversations. */
  predicate KeepsOwner(rejection: Rejection, bound: bool) {
    rejection == UsageLimit || rejection == ModelCapacity || (rejection == RateLimited && bound)
  }

  /** The event leaves its account the owner of the route. */
  predicate Keeps(step: Step, bound: bool) {
    !Unacceptable(step.frame) && !Untaken(step) && KeepsOwner(step.rejection, bound)
  }

  predicate KeptAt(steps: seq<Step>, i: nat, before: bool) {
    i < |steps| && Keeps(steps[i], Bound(steps[..i + 1], before))
  }

  predicate Untaken(step: Step) {
    !Unacceptable(step.frame) && Kinded(step) == Created && !step.accepted
  }

  predicate Taken(fields: Fields, step: Step) {
    fields.kind == Created ==> step.accepted
  }

  function Told(step: Step): Fields
    requires step.frame.Frame?
  {
    Plain(step.frame.fields)
  }

  datatype Rejection = NoRejection | Unauthorized | UsageLimit | ModelCapacity | RateLimited | ConnectionLimit

  /** An upstream event and what the server answers while delivering it: whether the account takes
      the response, whether the event ties it to the account, what it says about the account, and
      whether the finished response would be too large. */
  datatype Step = Step(frame: Frame, accepted: bool, turnState: bool, rejection: Rejection, oversized: bool)

  function Kinded(step: Step): Kind {
    if step.frame.Garbled? then InvalidKind else Normal(step.frame.fields.kind)
  }

  /** What a taken event adds to a stream: an upstream error that comes first is its only output. */
  function Forwarded(fields: Fields, number: int, committed: bool, sequence: int, returnable: bool): seq<Chunk> {
    if fields.kind == ErrorKind && !committed then Ending(false, fields.failure, returnable, 0)
    else Streamed(fields, number, committed, sequence)
  }

  function ForwardedStep(step: Step, sequence: int, committed: bool, returnable: bool): seq<Chunk>
    requires step.frame.Frame?
  {
    Forwarded(Told(step), NumberOf(step.frame.fields, sequence), committed, sequence + 1, returnable)
  }

  function Relayed(step: Step, sequence: int): seq<Chunk>
    requires step.frame.Frame?
  {
    Relay(Told(step), NumberOf(step.frame.fields, sequence))
  }

  /** What an event looks like to the client of a stream. */
  function Relay(fields: Fields, number: int): seq<Chunk> {
    if Terminal(fields.kind) then [Event(Shown(fields.kind), number), DoneMarker] else [Event(fields.kind, number)]
  }

  /** What a prepared event adds to a stream; a created event without a response ends it. */
  function Streamed(fields: Fields, number: int, committed: bool, sequence: int): seq<Chunk> {
    if fields.kind == Created && fields.response.None? then Ending(committed, Failure(502, false), false, sequence)
    else Relay(fields, number)
  }

  /** An upstream error inside a stream is shown as a failed response. */
  function Shown(kind: Kind): Kind {
    if kind == ErrorKind then FailedKind else kind
  }

  /** Without holes: the indices that were ever completed are those of the array, and each slot
      holds the last item completed for it. */
  ghost predicate IsRebuilt(history: seq<ItemEvent>, output: seq<Raw>) {
    forall i: nat {:trigger LastItem(history, i)} :: LastItem(history, i) == if i < |output| then Some(output[i])
    else None
  }

  lemma RebuiltFromHistory(history: seq<ItemEvent>, items: map<nat, Raw>, pending: set<nat>, itemBytes: nat,
      output: seq<Raw>)
    requires Gathered(history, items, pending, itemBytes) && |output| == |items| && items.Keys == Below(|items|)
    requires forall i :: 0 <= i < |items| ==> i in items && output[i] == items[i]
    ensures IsRebuilt(history, output)
  {
    forall i: nat ensures LastItem(history, i) == if i < |output| then Some(output[i]) else None {
      assert i in items <==> i in items.Keys;
    }
  }

  /** Terminal fields are authoritative, the created response's identity fills gaps, and a response
      always has an id, an object name and a status. */
  ghost predicate Faithful(response: Response, kind: Kind, created: map<string, Raw>, fields: map<string, Raw>) {
    && (forall key :: key in response.fields ==> key in fields && fields[key] == response.fields[key])
    && (forall key :: key in created && key !in response.fields ==> key in fields && fields[key] == created[key])
    && HasId(fields) && "object" in fields && "status" in fields
    && ("object" !in response.fields && "object" !in created ==> fields["object"].text == Some("response"))
    && ("status" !in response.fields && "status" !in created ==> fields["status"] == StatusOf(kind))
    && fields.Keys == response.fields.Keys + created.Keys + {"object", "status"}
  }

  function StatusOf(kind: Kind): Raw {
    if kind == CompletedKind then Raw("\"completed\"", Some("completed"))
    else if kind == Incomplete then Raw("\"incomplete\"", Some("incomplete"))
    else Raw("\"failed\"", Some("failed"))
  }

  lemma NothingPending(history: seq<ItemEvent>, items: map<nat, Raw>, pending: set<nat>, itemBytes: nat)
    requires Gathered(history, items, pending, itemBytes)
    ensures pending == {} <==> Settled(history)
  {
    if pending != {} {
      var i: nat :| i in pending;
      assert Unfinished(history, i);
    }
  }
}
