/** Provisional route claims as values: the state of the claim registry and what each section
    that holds its mutex does to it. `RouteRegistry` runs the same sections on mutable objects
    and is proved equal to these functions. */
module RouteClaims {
  import opened Wrappers

  type Key = string
  type Account = string // "" is no account
  type Reason = string

  const REASON_PROVISIONAL_CLAIM: Reason := "provisional_claim"
  const REASON_PROVISIONAL_CONFLICT: Reason := "provisional_claim_unavailable"

  datatype Claim = Claim(
    account: Account, priorOwner: Account, reason: Reason, keys: seq<Key>,
    refs: int, accepted: bool, committed: bool)

  /** byKey holds claim ids where the source holds claim pointers. */
  datatype Registry = Registry(
    next: nat, byKey: map<Key, nat>, claims: map<nat, Claim>, barriers: map<Key, Account>)

  const EMPTY := Registry(0, map[], map[], map[])

  datatype Route = Route(session: Key, thread: Key)

  datatype Durable = Durable(thread: Account, session: Account) {
    predicate Contains(account: Account) {
      account != "" && (thread == account || session == account)
    }
  }

  datatype Decision = Decision(account: Option<Account>, blocked: Account, priorOwner: Account, reason: Reason)

  /** `claim` is the id the returned handle is for. */
  datatype Selection = Selection(decision: Decision, claim: Option<nat>, joined: bool)

  // ---------- keys and owners

  function RouteKeys(route: Route): seq<Key> {
    (if route.thread != "" then [route.thread] else []) +
    (if route.session != "" && route.session != route.thread then [route.session] else [])
  }

  function AppendOwner(owners: seq<Account>, owner: Account): seq<Account> {
    if owner != "" && owner !in owners then owners + [owner] else owners
  }

  function KeyOwner(reg: Registry, key: Key): Account {
    if key in reg.byKey && reg.byKey[key] in reg.claims then reg.claims[reg.byKey[key]].account else ""
  }

  function BarrierOwner(reg: Registry, key: Key): Account {
    if key in reg.barriers then reg.barriers[key] else ""
  }

  function ClaimOwners(owners: seq<Account>, reg: Registry, ids: seq<nat>): seq<Account>
    decreases ids
  {
    if ids == [] then owners
    else ClaimOwners(AppendOwner(owners, if ids[0] in reg.claims then reg.claims[ids[0]].account else ""), reg,
             ids[1..])
  }

  function BarrierOwners(owners: seq<Account>, reg: Registry, keys: seq<Key>): seq<Account>
    decreases keys
  {
    if keys == [] then owners else BarrierOwners(AppendOwner(owners, BarrierOwner(reg, keys[0])), reg, keys[1..])
  }

  /** Thread claim, thread barrier, durable thread, session claim, session barrier, durable session. */
  function RankedOwners(reg: Registry, route: Route, durable: Durable): seq<Account> {
    var thread := if route.thread == "" then []
                  else AppendOwner(AppendOwner([], KeyOwner(reg, route.thread)), BarrierOwner(reg, route.thread));
    var withDurable := AppendOwner(thread, durable.thread);
    var session := if route.session == "" then withDurable
                   else AppendOwner(AppendOwner(withDurable, KeyOwner(reg, route.session)),
                            BarrierOwner(reg, route.session));
    AppendOwner(session, durable.session)
  }

  /** The candidates for a route, strongest first, "" where there is none. */
  function Ranking(reg: Registry, route: Route, durable: Durable): seq<Account> {
    (if route.thread == "" then [] else [KeyOwner(reg, route.thread), BarrierOwner(reg, route.thread)]) +
       [durable.thread] +
    (if route.session == "" then [] else [KeyOwner(reg, route.session), BarrierOwner(reg, route.session)]) +
       [durable.session]
  }

  function AppendOwners(owners: seq<Account>, ranking: seq<Account>): seq<Account>
    decreases ranking
  {
    if ranking == [] then owners else AppendOwners(AppendOwner(owners, ranking[0]), ranking[1..])
  }

  ghost predicate OwnerList(owners: seq<Account>) {
    "" !in owners && forall i, j :: 0 <= i < j < |owners| ==> owners[i] != owners[j]
  }

  lemma {:induction false} AppendOwnersLists(owners: seq<Account>, ranking: seq<Account>)
    requires OwnerList(owners)
    ensures OwnerList(AppendOwners(owners, ranking)) && owners <= AppendOwners(owners, ranking)
    ensures forall a :: a in AppendOwners(owners, ranking) <==> a in owners || (a != "" && a in ranking)
    decreases ranking
  {
    if ranking != [] {
      var longer := AppendOwner(owners, ranking[0]);
      assert OwnerList(longer) && owners <= longer;
      assert forall a :: a in longer <==> a in owners || (a != "" && a == ranking[0]);
      AppendOwnersLists(longer, ranking[1..]);
      assert forall a :: a in ranking <==> a == ranking[0] || a in ranking[1..];
    }
  }

  lemma {:induction false} AppendOwnersSplits(owners: seq<Account>, some: seq<Account>, more: seq<Account>)
    ensures AppendOwners(owners, some + more) == AppendOwners(AppendOwners(owners, some), more)
    decreases some
  {
    if some == [] {
      assert some + more == more;
    } else {
      assert (some + more)[1..] == some[1..] + more;
      AppendOwnersSplits(AppendOwner(owners, some[0]), some[1..], more);
    }
  }

  /** The owners are the candidates without repetition, and weaker candidates never come before or
      displace stronger ones: the owners found in the first `n` candidates lead the list. */
  lemma OwnersFollowRanking(reg: Registry, route: Route, durable: Durable, n: nat)
    requires n <= |Ranking(reg, route, durable)|
    ensures var owners := RankedOwners(reg, route, durable);
            && OwnerList(owners)
            && (forall a :: a in owners <==> a != "" && a in Ranking(reg, route, durable))
            && AppendOwners([], Ranking(reg, route, durable)[..n]) <= owners
  {
    var ranking := Ranking(reg, route, durable);
    RankedOwnersFold(reg, route, durable);
    AppendOwnersLists([], ranking);
    AppendOwnersLists([], ranking[..n]);
    AppendOwnersSplits([], ranking[..n], ranking[n..]);
    AppendOwnersLists(AppendOwners([], ranking[..n]), ranking[n..]);
    assert ranking[..n] + ranking[n..] == ranking;
  }

  lemma RankedOwnersFold(reg: Registry, route: Route, durable: Durable)
    ensures RankedOwners(reg, route, durable) == AppendOwners([], Ranking(reg, route, durable))
  {
    var thread := if route.thread == "" then [] else [KeyOwner(reg, route.thread), BarrierOwner(reg, route.thread)];
    var session := if route.session == "" then [] else [KeyOwner(reg, route.session), BarrierOwner(reg, route.session)];
    AppendOwnersSplits([], thread + [durable.thread] + session, [durable.session]);
    AppendOwnersSplits([], thread + [durable.thread], session);
    AppendOwnersSplits([], thread, [durable.thread]);
    if route.thread != "" { AppendTwo([], thread); }
    if route.session != "" { AppendTwo(AppendOwners([], thread + [durable.thread]), session); }
    AppendOne(AppendOwners([], thread), durable.thread);
    AppendOne(AppendOwners([], thread + [durable.thread] + session), durable.session);
  }

  lemma AppendOne(owners: seq<Account>, a: Account)
    ensures AppendOwners(owners, [a]) == AppendOwner(owners, a)
  {
    assert [a][1..] == [];
  }

  lemma AppendTwo(owners: seq<Account>, pair: seq<Account>)
    requires |pair| == 2
    ensures AppendOwners(owners, pair) == AppendOwner(AppendOwner(owners, pair[0]), pair[1])
  {
    assert pair[1..] == [pair[1]];
    AppendOne(AppendOwner(owners, pair[0]), pair[1]);
  }

  function Owners(reg: Registry, route: Route, durable: Durable): seq<Account> {
    var keys := RouteKeys(route);
    BarrierOwners(ClaimOwners(RankedOwners(reg, route, durable), reg, ClaimsFor(reg, keys)), reg, keys)
  }

  function DurableOwners(durable: Durable): seq<Account> {
    AppendOwner(AppendOwner([], durable.thread), durable.session)
  }

  // ---------- the registry invariant

  /** byKey is the disjoint union of the key lists of the uncommitted claims. */
  ghost predicate Partition(reg: Registry) {
    && (forall k :: k in reg.byKey ==>
          && reg.byKey[k] in reg.claims
          && !reg.claims[reg.byKey[k]].committed
          && k in reg.claims[reg.byKey[k]].keys)
    && (forall id, k {:trigger k in reg.claims[id].keys} ::
         id in reg.claims && !reg.claims[id].committed && k in reg.claims[id].keys ==>
          k in reg.byKey && reg.byKey[k] == id)
    && (forall id :: id in reg.claims ==> 1 <= id <= reg.next)
  }

  /** Changes a claim in place, leaving the keys it holds alone. */
  function Update(reg: Registry, id: nat, claim: Claim): (r: Registry)
    requires Partition(reg) && id in reg.claims
    requires claim.keys == reg.claims[id].keys && claim.committed == reg.claims[id].committed
    ensures Partition(r)
    ensures r == reg.(claims := reg.claims[id := claim])
  {
    reg.(claims := reg.claims[id := claim])
  }

  function ClaimsFor(reg: Registry, keys: seq<Key>): (ids: seq<nat>)
    ensures forall id :: id in ids <==> exists k :: k in keys && k in reg.byKey && reg.byKey[k] == id
  {
    if keys == [] then []
    else
      var last := |keys| - 1;
      var ids := ClaimsFor(reg, keys[..last]);
      assert forall k :: k in keys <==> k in keys[..last] || k == keys[last];
      if keys[last] in reg.byKey && reg.byKey[keys[last]] !in ids then ids + [reg.byKey[keys[last]]] else ids
  }

  predicate HeldBy(reg: Registry, key: Key, id: nat) { key in reg.byKey && reg.byKey[key] == id }

  /** The claims come in the order of the keys: an earlier one holds a key before any of a later one's. */
  lemma {:induction false} ClaimsForInOrder(reg: Registry, keys: seq<Key>, i: nat, j: nat) returns (p: nat)
    requires i < j < |ClaimsFor(reg, keys)|
    ensures p < |keys| && HeldBy(reg, keys[p], ClaimsFor(reg, keys)[i])
    ensures forall q :: 0 <= q <= p ==> !HeldBy(reg, keys[q], ClaimsFor(reg, keys)[j])
  {
    var front := keys[..|keys| - 1];
    var ids := ClaimsFor(reg, front);
    if j < |ids| {
      p := ClaimsForInOrder(reg, front, i, j);
    } else {
      assert ids[i] in ids;
      p :| 0 <= p < |front| && HeldBy(reg, front[p], ids[i]);
    }
  }

  /** The claim `id` takes `key` unless some claim holds it. */
  function Take(reg: Registry, id: nat, key: Key): (r: Registry)
    requires Partition(reg) && id in reg.claims && !reg.claims[id].committed
    ensures Partition(r)
    ensures r.next == reg.next && r.barriers == reg.barriers
    ensures r.claims.Keys == reg.claims.Keys
    ensures r.claims[id] == reg.claims[id].(keys := r.claims[id].keys)
    ensures forall other :: other in reg.claims && other != id ==> r.claims[other] == reg.claims[other]
    ensures r.byKey == if key in reg.byKey then reg.byKey else reg.byKey[key := id]
  {
    if key in reg.byKey then reg
    else reg.(byKey := reg.byKey[key := id],
             claims := reg.claims[id := reg.claims[id].(keys := reg.claims[id].keys + [key])])
  }

  /** The claim `id` takes every key no other claim holds. */
  function Attach(reg: Registry, id: nat, keys: seq<Key>): (r: Registry)
    requires Partition(reg) && id in reg.claims && !reg.claims[id].committed
    ensures Partition(r)
    ensures r.next == reg.next && r.barriers == reg.barriers
    ensures r.claims.Keys == reg.claims.Keys
    ensures r.claims[id] == reg.claims[id].(keys := r.claims[id].keys)
    ensures forall other :: other in reg.claims && other != id ==> r.claims[other] == reg.claims[other]
    ensures forall k :: k in r.byKey <==> k in reg.byKey || k in keys
    ensures forall k :: k in r.byKey ==> r.byKey[k] == if k in reg.byKey then reg.byKey[k] else id
  {
    if keys == [] then reg
    else
      var last := |keys| - 1;
      assert forall k :: k in keys <==> k in keys[..last] || k == keys[last];
      Take(Attach(reg, id, keys[..last]), id, keys[last])
  }

  // ---------- selectAccount

  function FirstOn(reg: Registry, ids: seq<nat>, account: Account): (r: Option<nat>)
    requires forall id :: id in ids ==> id in reg.claims
    ensures r.Some? ==> r.value in ids && reg.claims[r.value].account == account
    ensures r.None? ==> forall id :: id in ids ==> reg.claims[id].account != account
  {
    if ids == [] then None
    else if reg.claims[ids[0]].account == account then Some(ids[0])
    else
      assert forall id :: id in ids <==> id == ids[0] || id in ids[1..];
      FirstOn(reg, ids[1..], account)
  }

  predicate Conflicts(reg: Registry, selected: nat, ids: seq<nat>)
    requires selected in reg.claims
    requires forall id :: id in ids ==> id in reg.claims
  {
    exists id :: id in ids && id != selected && reg.claims[id].account != reg.claims[selected].account
  }

  function Refuse(decision: Decision, blocked: Account): Selection {
    Selection(decision.(account := None, blocked := blocked, reason := REASON_PROVISIONAL_CONFLICT), None, false)
  }

  /** One more reference on the claim `id`, which takes the route's unheld keys. */
  function Join(reg: Registry, id: nat, keys: seq<Key>): (r: Registry)
    requires Partition(reg) && id in reg.claims && !reg.claims[id].committed
    ensures Partition(r)
    ensures r.next == reg.next && r.barriers == reg.barriers && r.claims.Keys == reg.claims.Keys
    ensures r.claims[id] == reg.claims[id].(keys := r.claims[id].keys, refs := reg.claims[id].refs + 1)
    ensures forall other :: other in reg.claims && other != id ==> r.claims[other] == reg.claims[other]
    ensures forall k :: k in r.byKey <==> k in reg.byKey || k in keys
    ensures forall k :: k in r.byKey ==> r.byKey[k] == if k in reg.byKey then reg.byKey[k] else id
  {
    var attached := Attach(reg, id, keys);
    Update(attached, id, attached.claims[id].(refs := attached.claims[id].refs + 1))
  }

  /** A new claim under an id never used before. */
  function Begin(reg: Registry, account: Account, priorOwner: Account, reason: Reason): (r: Registry)
    requires Partition(reg)
    ensures Partition(r)
    ensures r.next == reg.next + 1 && r.next !in reg.claims && r.barriers == reg.barriers && r.byKey == reg.byKey
    ensures r.claims == reg.claims[r.next := Claim(account, priorOwner, reason, [], 1, false, false)]
  {
    reg.(next := reg.next + 1,
        claims := reg.claims[reg.next + 1 := Claim(account, priorOwner, reason, [], 1, false, false)])
  }

  /** From `reg` to `r` one handle was issued on the claim `id`, joined or new, and nothing else changed. */
  ghost predicate Claimed(reg: Registry, r: Registry, keys: seq<Key>, id: nat, decision: Decision) {
    && decision.account.Some?
    && r.barriers == reg.barriers
    && r.claims.Keys == reg.claims.Keys + {id}
    && (forall other :: other in reg.claims && other != id ==> r.claims[other] == reg.claims[other])
    && !r.claims[id].committed && r.claims[id].account == decision.account.value
    && (if id in reg.claims
        then r.next == reg.next
               && r.claims[id] == reg.claims[id].(keys := r.claims[id].keys, refs := reg.claims[id].refs + 1)
        else r.next == reg.next + 1 == id && r.claims[id].refs == 1 && !r.claims[id].accepted)
    // Every key of the route is held by a claim on the selected account.
    && (forall k :: k in keys ==> k in r.byKey && Live(r, r.byKey[k], decision.account.value))
  }

  /** The claim `id` gets the route's unheld keys, in byKey and on its list; no key changes hands. */
  ghost predicate TakesUnheld(reg: Registry, r: Registry, keys: seq<Key>, id: nat) {
    && id in r.claims
    && (forall k :: k in r.byKey <==> k in reg.byKey || k in keys)
    && (forall k :: k in r.byKey ==> r.byKey[k] == if k in reg.byKey then reg.byKey[k] else id)
    && (forall k {:trigger k in r.claims[id].keys} ::
          k in r.claims[id].keys <==> (id in reg.claims && k in reg.claims[id].keys) || (k in keys && k !in reg.byKey))
  }

  lemma AttachTakesUnheld(reg: Registry, id: nat, keys: seq<Key>)
    requires Partition(reg) && id in reg.claims && !reg.claims[id].committed
    ensures TakesUnheld(reg, Attach(reg, id, keys), keys, id)
    ensures forall other :: other in reg.claims && other != id ==>
      other in Attach(reg, id, keys).claims && Attach(reg, id, keys).claims[other] == reg.claims[other]
  {
    var r := Attach(reg, id, keys);
    forall k ensures k in r.claims[id].keys <==> k in reg.claims[id].keys || (k in keys && k !in reg.byKey) {
      if k in r.claims[id].keys {
        assert k in r.byKey && r.byKey[k] == id;
      }
    }
  }

  /** What selectAccount does once `pick` has answered. */
  function SelectWith(reg: Registry, keys: seq<Key>, durable: Durable, decision: Decision): (r: (Registry, Selection))
    requires Partition(reg)
    ensures Partition(r.0)
    ensures r.1.claim.None? ==> r.0 == reg
  {
    if decision.account.None? then (reg, Selection(decision, None, false))
    else
      var selected := decision.account.value;
      var ids := ClaimsFor(reg, keys);
      match FirstOn(reg, ids, selected)
      case Some(id) =>
        if Conflicts(reg, id, ids) then (reg, Refuse(decision, reg.claims[id].account))
        else
          var claim := reg.claims[id];
          var reason := if claim.priorOwner != "" then claim.reason else REASON_PROVISIONAL_CLAIM;
          (Join(reg, id, keys), Selection(decision.(priorOwner := claim.priorOwner, reason := reason), Some(id), true))
      case None =>
        if durable.Contains(selected) then (reg, Selection(decision, None, false))
        else if ids != [] then (reg, Refuse(decision, reg.claims[ids[0]].account))
        else
          var begun := Begin(reg, selected, decision.priorOwner, decision.reason);
          (Attach(begun, begun.next, keys), Selection(decision, Some(begun.next), false))
  }

  lemma JoinClaims(reg: Registry, keys: seq<Key>, id: nat, decision: Decision)
    requires Partition(reg) && id in reg.claims && !reg.claims[id].committed
    requires decision.account == Some(reg.claims[id].account)
    requires forall k :: k in keys && k in reg.byKey ==> Live(reg, reg.byKey[k], reg.claims[id].account)
    ensures Claimed(reg, Join(reg, id, keys), keys, id, decision)
    ensures TakesUnheld(reg, Join(reg, id, keys), keys, id)
  {
    AttachTakesUnheld(reg, id, keys);
    var r := Join(reg, id, keys);
    forall k | k in keys ensures k in r.byKey && Live(r, r.byKey[k], reg.claims[id].account) {
    }
  }

  lemma BeginClaims(reg: Registry, keys: seq<Key>, decision: Decision)
    requires Partition(reg) && decision.account.Some?
    requires forall k :: k in keys ==> k !in reg.byKey
    ensures var begun := Begin(reg, decision.account.value, decision.priorOwner, decision.reason);
            var r := Attach(begun, begun.next, keys);
            && Claimed(reg, r, keys, begun.next, decision) && TakesUnheld(reg, r, keys, begun.next)
            && forall k :: k in r.claims[begun.next].keys <==> k in keys
  {
    var begun := Begin(reg, decision.account.value, decision.priorOwner, decision.reason);
    AttachTakesUnheld(begun, begun.next, keys);
  }

  lemma SelectClaims(reg: Registry, keys: seq<Key>, durable: Durable, decision: Decision)
    requires Partition(reg)
    requires SelectWith(reg, keys, durable, decision).1.claim.Some?
    ensures var (r, selection) := SelectWith(reg, keys, durable, decision);
            Claimed(reg, r, keys, selection.claim.value, decision) && TakesUnheld(reg, r, keys, selection.claim.value)
  {
    var ids := ClaimsFor(reg, keys);
    forall k | k in keys && k in reg.byKey ensures reg.byKey[k] in ids {
    }
    match FirstOn(reg, ids, decision.account.value)
    case Some(id) => JoinClaims(reg, keys, id, decision);
    case None => BeginClaims(reg, keys, decision);
  }

  /** Keys held by claims on two accounts let nobody in. */
  lemma ConflictRefuses(reg: Registry, keys: seq<Key>, durable: Durable, decision: Decision, k: Key, l: Key)
    requires Partition(reg) && k in keys && l in keys && k in reg.byKey && l in reg.byKey
    requires reg.claims[reg.byKey[k]].account != reg.claims[reg.byKey[l]].account
    ensures SelectWith(reg, keys, durable, decision).1.claim.None?
  {
    if SelectWith(reg, keys, durable, decision).1.claim.Some? {
      var ids := ClaimsFor(reg, keys);
      assert reg.byKey[k] in ids && reg.byKey[l] in ids;
    }
  }

  function SelectAccount(reg: Registry, route: Route, durable: Durable,
      pick: seq<Account> -> Decision): (r: (Registry, Selection))
    requires Partition(reg)
    ensures Partition(r.0)
  {
    if RouteKeys(route) == [] then (reg, Selection(pick(DurableOwners(durable)), None, false))
    else SelectWith(reg, RouteKeys(route), durable, pick(Owners(reg, route, durable)))
  }

  /** Chooses a destination for a claim that stays authoritative: the registry is only read. */
  function SelectReplacement(reg: Registry, route: Route, id: nat, account: Account, durable: Durable,
      pick: seq<Account> -> Decision): Decision {
    if !(id in reg.claims && reg.claims[id].account == account) then Decision(None, account, "", "")
    else
      var decision := pick(RankedOwners(reg, route, durable));
      if decision.account == Some(account) then decision.(account := None, blocked := account) else decision
  }

  /** A replacement is another account, and a refusal on that ground names the account it is on. */
  lemma ReplacementIsElsewhere(reg: Registry, route: Route, id: nat, account: Account, durable: Durable,
      pick: seq<Account> -> Decision)
    ensures var decision := SelectReplacement(reg, route, id, account, durable, pick);
            && decision.account != Some(account)
            && (decision.account.Some? ==> id in reg.claims && decision == pick(RankedOwners(reg, route, durable)))
            && (decision.account.None? && pick(RankedOwners(reg, route, durable)).account.Some? ==>
                   decision.blocked == account)
  {
  }

  // ---------- releasing, committing, transferring and invalidating

  function Without(reg: Registry, id: nat): (r: Registry)
    requires Partition(reg)
    ensures Partition(r)
  {
    reg.(byKey := map k | k in reg.byKey && reg.byKey[k] != id :: reg.byKey[k], claims := reg.claims - {id})
  }

  predicate Live(reg: Registry, id: nat, account: Account) {
    id in reg.claims && reg.claims[id].account == account
  }

  function Release(reg: Registry, id: nat, account: Account): (r: Registry)
    requires Partition(reg)
    ensures Partition(r)
  {
    if !Live(reg, id, account) then reg
    else if reg.claims[id].refs == 1 then Without(reg, id)
    else Update(reg, id, reg.claims[id].(refs := reg.claims[id].refs - 1))
  }

  function ClearBarriers(reg: Registry, keys: seq<Key>): (r: Registry)
    requires Partition(reg)
    ensures Partition(r)
  {
    reg.(barriers := map k | k in reg.barriers && k !in keys :: reg.barriers[k])
  }

  /** The claim `id` gives up its keys; it keeps listing them. */
  function Retire(reg: Registry, id: nat): (r: Registry)
    requires Partition(reg) && id in reg.claims
    ensures Partition(r)
    ensures r.claims == reg.claims[id := reg.claims[id].(committed := true)]
  {
    reg.(byKey := map k | k in reg.byKey && reg.byKey[k] != id :: reg.byKey[k],
         claims := reg.claims[id := reg.claims[id].(committed := true)])
  }

  function Commit(reg: Registry, id: nat, account: Account, acceptedKeys: seq<Key>): (r: Registry)
    requires Partition(reg)
    ensures Partition(r)
  {
    if !Live(reg, id, account) then reg
    else
      var retired := Retire(ClearBarriers(reg, acceptedKeys), id);
      if retired.claims[id].refs == 1 then Without(retired, id)
      else Update(retired, id, retired.claims[id].(refs := retired.claims[id].refs - 1))
  }

  /** Barriers for every key in `keys`, all naming `account`. */
  function Fence(barriers: map<Key, Account>, keys: set<Key>, account: Account): map<Key, Account> {
    map k | k in barriers.Keys + keys :: if k in keys then account else barriers[k]
  }

  function KeySet(keys: seq<Key>): set<Key> { set k | k in keys }

  /** Every key one of these claims lists; committed claims list the keys they gave up. */
  function KeysOf(reg: Registry, ids: set<nat>): set<Key> {
    set id, k | id in ids && id in reg.claims && k in reg.claims[id].keys :: k
  }

  /** Removes the claims and leaves a barrier on every key they list. */
  function Evict(reg: Registry, ids: set<nat>, account: Account): (r: Registry)
    requires Partition(reg)
    ensures Partition(r)
  {
    Registry(
      reg.next,
      map k | k in reg.byKey && reg.byKey[k] !in ids :: reg.byKey[k],
      map id | id in reg.claims && id !in ids :: reg.claims[id],
      Fence(reg.barriers, KeysOf(reg, ids), account))
  }

  function Preserve(reg: Registry, id: nat, account: Account): (r: (Registry, seq<Key>))
    requires Partition(reg)
    ensures Partition(r.0)
  {
    if !Live(reg, id, account) then (reg, []) else (Evict(reg, {id}, account), reg.claims[id].keys)
  }

  predicate CanTransfer(reg: Registry, id: nat, account: Account) {
    Live(reg, id, account) && !reg.claims[id].accepted && !reg.claims[id].committed
  }

  function Transfer(reg: Registry, id: nat, from: Account, to: Account, priorOwner: Account,
      reason: Reason): (r: Registry)
    requires Partition(reg)
    ensures Partition(r)
  {
    if !CanTransfer(reg, id, from) then reg
    else Update(reg, id, reg.claims[id].(account := to, priorOwner := priorOwner, reason := reason, refs := 1))
  }

  predicate CanAcceptSwitch(reg: Registry, id: nat, account: Account) {
    Live(reg, id, account) && !reg.claims[id].accepted
  }

  function AcceptSwitch(reg: Registry, id: nat, account: Account): (r: Registry)
    requires Partition(reg)
    ensures Partition(r)
  {
    if !CanAcceptSwitch(reg, id, account) then reg
    else Update(reg, id, reg.claims[id].(accepted := true))
  }

  function ClaimsOn(reg: Registry, account: Account): set<nat> {
    set id | id in reg.claims && reg.claims[id].account == account
  }

  function KeysOn(reg: Registry, account: Account): set<Key> {
    KeysOf(reg, ClaimsOn(reg, account))
  }

  function Invalidate(reg: Registry, account: Account): (r: Registry)
    requires Partition(reg)
    ensures Partition(r)
  {
    Evict(reg, ClaimsOn(reg, account), account)
  }
}
