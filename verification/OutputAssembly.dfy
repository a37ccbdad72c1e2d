/** Assembling the output of a response from its item events: the collector and the rebuilt array. */
module OutputAssembly {
  import opened Wrappers

  const INDEX_LIMIT := 65_536
  const MAX_HTTP_OUTPUT := 256 * 1024 * 1024

  /** A JSON value: its encoding, and its text when it is a string. */
  datatype Raw = Raw(json: string, text: Option<string>)

  datatype Output = NoOutput | NotArray | Items(items: seq<Raw>)

  /** A response object: its fields other than the output, and the output. */
  datatype Response = Response(fields: map<string, Raw>, output: Output)

  const IDENTITY := ["id", "object", "created_at", "model"]

  function Identity(fields: map<string, Raw>): map<string, Raw> {
    map key | key in fields && key in IDENTITY :: fields[key]
  }

  function FieldBytes(fields: map<string, Raw>, keys: seq<string>): nat {
    if keys == [] then 0
    else
      var last := keys[|keys| - 1];
      FieldBytes(fields, keys[..|keys| - 1]) + if last in fields then |fields[last].json| else 0
  }

  datatype ItemEvent = Added(index: nat) | Completed(index: nat, item: Raw)

  // ---------- what the events say

  /** The last completed item of an index. */
  function LastItem(history: seq<ItemEvent>, index: nat): Option<Raw> {
    if history == [] then None
    else
      var last := history[|history| - 1];
      if last.Completed? && last.index == index then Some(last.item) else LastItem(history[..|history| - 1], index)
  }

  /** The last completed item of every index that has one. */
  function ItemsOf(history: seq<ItemEvent>): map<nat, Raw> {
    if history == [] then map[]
    else
      var before, last := ItemsOf(history[..|history| - 1]), history[|history| - 1];
      if last.Completed? then before[last.index := last.item] else before
  }

  /** The bytes kept for a response: its items, and the identity of the created response. */
  function Retained(history: seq<ItemEvent>, created: map<string, Raw>): nat {
    Bytes(ItemsOf(history), INDEX_LIMIT) + FieldBytes(created, IDENTITY)
  }

  lemma {:induction false} IdentityBytes(fields: map<string, Raw>, keys: seq<string>)
    requires forall key :: key in keys ==> key in IDENTITY
    ensures FieldBytes(Identity(fields), keys) == FieldBytes(fields, keys)
  {
    if keys != [] {
      IdentityBytes(fields, keys[..|keys| - 1]);
    }
  }

  lemma {:induction false} NoBytes(keys: seq<string>)
    ensures FieldBytes(map[], keys) == 0
  {
    if keys != [] {
      NoBytes(keys[..|keys| - 1]);
    }
  }

  /** The index was announced after its last completion, or never completed. */
  predicate Unfinished(history: seq<ItemEvent>, index: nat) {
    if history == [] then false
    else
      var last := history[|history| - 1];
      if last.index == index then last.Added? else Unfinished(history[..|history| - 1], index)
  }

  ghost predicate Settled(history: seq<ItemEvent>) {
    forall i: nat :: !Unfinished(history, i)
  }

  function SizeAt(items: map<nat, Raw>, index: nat): nat {
    if index in items then |items[index].json| else 0
  }

  /** The bytes of the items below `limit`. */
  function Bytes(items: map<nat, Raw>, limit: nat): nat {
    if limit == 0 then 0 else Bytes(items, limit - 1) + SizeAt(items, limit - 1)
  }

  lemma {:induction false} BytesUpdate(items: map<nat, Raw>, index: nat, item: Raw, limit: nat)
    ensures Bytes(items[index := item], limit) ==
            if index < limit then Bytes(items, limit) - SizeAt(items, index) + |item.json| else Bytes(items, limit)
  {
    if limit > 0 {
      BytesUpdate(items, index, item, limit - 1);
      if index < limit - 1 {
        BytesAtLeast(items, index, limit - 1);
      }
    }
  }

  lemma {:induction false} BytesAtLeast(items: map<nat, Raw>, index: nat, limit: nat)
    requires index < limit
    ensures Bytes(items, limit) >= SizeAt(items, index)
  {
    if index < limit - 1 {
      BytesAtLeast(items, index, limit - 1);
    }
  }

  // ---------- no holes

  function Below(n: nat): (s: set<nat>)
    ensures |s| == n && forall i: nat :: i in s <==> i < n
  {
    if n == 0 then {} else Below(n - 1) + {n - 1}
  }

  lemma SubsetOfSameSize(small: set<nat>, large: set<nat>)
    requires small <= large && |small| == |large|
    ensures small == large
  {
    assert |large - small| == |large| - |small|;
  }

  /** Distinct indices, all below their number, are all the indices below it. */
  lemma NoHoles(indices: set<nat>)
    requires forall i :: i in indices ==> i < |indices|
    ensures indices == Below(|indices|)
  {
    SubsetOfSameSize(indices, Below(|indices|));
  }

  /** The items in the order of their indices, or nothing when an index is missing. */
  method Rebuild(items: map<nat, Raw>) returns (output: Option<seq<Raw>>)
    ensures output.Some? <==> items.Keys == Below(|items|)
    ensures output.Some? ==>
      |output.value| == |items| && forall i :: 0 <= i < |items| ==> i in items && output.value[i] == items[i]
  {
    var filler := Raw("null", None);
    var slots := seq(|items|, i => filler);
    var left := items.Keys;
    assert |items.Keys| == |items|;
    while left != {}
      invariant left <= items.Keys && |slots| == |items|
      invariant forall i :: i in items.Keys && i !in left ==> i < |items| && slots[i] == items[i]
    {
      var index :| index in left;
      left := left - {index};
      if index >= |slots| {
        return None;
      }
      slots := slots[index := items[index]];
    }
    NoHoles(items.Keys);
    output := Some(slots);
  }

  // ---------- the terminal response

  /** Terminal fields win; the identity of the created response fills in what is absent. */
  function WithFallback(response: map<string, Raw>, created: map<string, Raw>): map<string, Raw> {
    created + response
  }

  predicate HasId(fields: map<string, Raw>) {
    "id" in fields && fields["id"].text.Some? && fields["id"].text.value != ""
  }

  /** A terminal array with items is authoritative; an absent one, or an empty one that item events
      contradict, is rebuilt. */
  predicate NeedsRebuild(output: Output, outputSeen: bool) {
    (output == NoOutput || output == Items([])) && (output == NoOutput || outputSeen)
  }

  /** What the item events must have said for the output to be rebuilt. */
  ghost predicate Rebuildable(history: seq<ItemEvent>, outputSeen: bool) {
    var items := ItemsOf(history);
    Settled(history) && (outputSeen ==> items != map[]) && items.Keys == Below(|items|)
  }

  // ---------- the collector's state

  /** The collected items and the unfinished indices are what the item events say. */
  ghost predicate Gathered(history: seq<ItemEvent>, items: map<nat, Raw>, pending: set<nat>, itemBytes: nat) {
    && (forall i: nat {:trigger LastItem(history, i)} ::
         LastItem(history, i) == if i in items then Some(items[i]) else None)
    && (forall i: nat {:trigger Unfinished(history, i)} :: i in pending <==> Unfinished(history, i))
    && (forall i: nat {:trigger i in items} :: i in items ==> i < INDEX_LIMIT)
    && items == ItemsOf(history) && itemBytes == Bytes(items, INDEX_LIMIT)
  }

  lemma {:induction false} NothingGathered(limit: nat)
    ensures Bytes(map[], limit) == 0
  {
    if limit > 0 {
      NothingGathered(limit - 1);
    }
  }

  lemma OneMore(history: seq<ItemEvent>, event: ItemEvent, i: nat)
    ensures LastItem(history + [event], i) == if event.Completed? && event.index == i then Some(event.item)
            else LastItem(history, i)
    ensures Unfinished(history + [event], i) == if event.index == i then event.Added? else Unfinished(history, i)
    ensures ItemsOf(history + [event]) ==
            if event.Completed? then ItemsOf(history)[event.index := event.item] else ItemsOf(history)
  {
    var next := history + [event];
    assert next[..|next| - 1] == history;
  }

  lemma GatherAdded(history: seq<ItemEvent>, items: map<nat, Raw>, pending: set<nat>, itemBytes: nat, index: nat)
    requires Gathered(history, items, pending, itemBytes)
    ensures Gathered(history + [Added(index)], items, pending + {index}, itemBytes)
  {
    forall i: nat {
      OneMore(history, Added(index), i);
    }
    OneMore(history, Added(index), index);
  }

  lemma GatherCompleted(history: seq<ItemEvent>, items: map<nat, Raw>, pending: set<nat>, itemBytes: nat, index: nat,
      item: Raw)
    requires Gathered(history, items, pending, itemBytes) && index < INDEX_LIMIT
    ensures itemBytes + |item.json| - SizeAt(items, index) >= 0
    ensures Gathered(history + [Completed(index, item)], items[index := item], pending - {index},
              itemBytes + |item.json| - SizeAt(items, index))
  {
    forall i: nat {
      OneMore(history, Completed(index, item), i);
    }
    OneMore(history, Completed(index, item), index);
    BytesUpdate(items, index, item, INDEX_LIMIT);
    BytesAtLeast(items, index, INDEX_LIMIT);
  }
}
