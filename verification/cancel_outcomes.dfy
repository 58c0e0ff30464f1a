/**
 * What a cancel turn makes of every draft and every operation, and what it answers, in
 * terms of the replies it gets.
 */
module CancelOutcomes {
  import opened Common
  import opened Drafts
  import opened Cancel
  import opened CancelSafety

  // ----- one proposal in flight

  /** No call can be made, the reply is lost, or the status is none that refuses for good. */
  predicate LeftOpen(d: Draft, turn: Turn, fate: Fate) {
    || (d.ctx.deviceId.None? && turn.device.None?)
    || fate.NoReply?
    || (fate.Denied? && (fate.statusCode < 400 || fate.statusCode >= 500 || fate.statusCode in {408, 425, 429}))
  }

  /** The operation is stored by this call, unless it was before. */
  predicate Stores(d: Draft, turn: Turn, fate: Fate) {
    && (d.ctx.deviceId.Some? || turn.device.Some?)
    && match fate
       case Answered => true
       case NoReply(stored) => stored
       case Denied(code, stored) => stored && (code < 400 || code >= 500 || code in {408, 425, 429})
  }

  function KeyOf(d: Draft): Key { DraftKey(d.ctx.workspaceId, d.draftId, d.tool) }

  /** The draft once settled; held: the API holds an operation under its key already. */
  function SettledDraft(d: Draft, held: bool, turn: Turn, fate: Fate): Draft {
    var stamped := d.(updatedAt := turn.now, lastIntentionId := turn.intentionId);
    if LeftOpen(d, turn, fate) then stamped.(outcome := Some(Unknown))
    else if fate.Denied? && !held then
      stamped.(status := Discarded, discardReason := Some("propose_rejected"), outcome := Some(Rejected))
    else
      stamped.(status := Consumed, proposalId := Some(KeyOf(d)), outcome := Some(if held then Existing else Created))
  }

  lemma OneSettled(api: Api, d: Draft, turn: Turn, fate: Fate)
    ensures var (api', reply) := Attempt(api, d, turn.device, fate);
            && Patched(d, Settlement(reply, turn)) == SettledDraft(d, KeyOf(d) in api, turn, fate)
            && (Open(reply) <==> LeftOpen(d, turn, fate))
            && (forall k :: k in api' <==> k in api || (k == KeyOf(d) && Stores(d, turn, fate)))
            && Untouched(api, api')
            && (forall k <- api' | k !in api :: api'[k].status == OpProposed
                 && api'[k].owner == Device(d.ctx.workspaceId, d.ctx.actorId, Or(d.ctx.deviceId, Or(turn.device, ""))))
  {}

  ghost predicate TableSettled(t: Table, api: Api, turn: Turn, order: seq<string>, fates: string -> Fate, t': Table) {
    && t'.Keys == t.Keys
    && forall id <- t :: t'[id] == if id in order then SettledDraft(t[id], KeyOf(t[id]) in api, turn, fates(id)) else t[id]
  }

  ghost predicate KeysSettled(t: Table, api: Api, turn: Turn, order: seq<string>, fates: string -> Fate, api': Api) {
    forall id <- t :: KeyOf(t[id]) in api' <==> KeyOf(t[id]) in api || (id in order && Stores(t[id], turn, fates(id)))
  }

  ghost predicate SomeLeftOpen(t: Table, turn: Turn, order: seq<string>, fates: string -> Fate) {
    exists id :: id in order && id in t && LeftOpen(t[id], turn, fates(id))
  }

  /** All proposals of an order, settled; no draft's settling touches another's key. */
  ghost predicate AllSettled(t: Table, api: Api, turn: Turn, order: seq<string>, fates: string -> Fate, t': Table, api': Api, open: bool) {
    && TableSettled(t, api, turn, order, fates, t') && KeysSettled(t, api, turn, order, fates, api') && Untouched(api, api')
    && (open <==> SomeLeftOpen(t, turn, order, fates))
  }

  lemma {:induction false} SettleExactly(t: Table, api: Api, turn: Turn, order: seq<string>, fates: string -> Fate)
    requires InFlight(t, order) && Keyed(t)
    ensures var (t', api', open) := SettleAll(t, api, turn, order, fates); AllSettled(t, api, turn, order, fates, t', api', open)
    decreases |order|
  {
    if order != [] {
      var n := |order| - 1;
      var x := order[n];
      assert order == order[..n] + [x] && x !in order[..n];
      SettleExactly(t, api, turn, order[..n], fates);
      var (t1, api1, open1) := SettleAll(t, api, turn, order[..n], fates);
      var (api2, reply) := Attempt(api1, t1[x], turn.device, fates(x));
      OneSettled(api1, t[x], turn, fates(x));
      OneMoreKey(t, api, turn, order[..n], x, fates, api1, api2);
      OneMoreRow(t, api, turn, order[..n], x, fates, t1, api1, Updated(t1, x, Settlement(reply, turn)));
      OneMoreOpen(t, turn, order[..n], x, fates);
    }
  }

  lemma OneMoreRow(t: Table, api: Api, turn: Turn, front: seq<string>, x: string, fates: string -> Fate, t1: Table, api1: Api, t2: Table)
    requires x in t && x !in front && TableSettled(t, api, turn, front, fates, t1) && Keyed(t) && KeysSettled(t, api, turn, front, fates, api1)
    requires t2 == t1[x := SettledDraft(t[x], KeyOf(t[x]) in api1, turn, fates(x))]
    ensures TableSettled(t, api, turn, front + [x], fates, t2)
  {
    assert KeyOf(t[x]) in api1 <==> KeyOf(t[x]) in api;
    forall id <- t ensures id in front + [x] <==> id in front || id == x {}
  }

  lemma OneMoreKey(t: Table, api: Api, turn: Turn, front: seq<string>, x: string, fates: string -> Fate, api1: Api, api2: Api)
    requires x in t && x !in front && Keyed(t) && KeysSettled(t, api, turn, front, fates, api1)
    requires forall k :: k in api2 <==> k in api1 || (k == KeyOf(t[x]) && Stores(t[x], turn, fates(x)))
    ensures KeysSettled(t, api, turn, front + [x], fates, api2)
  {
    forall id <- t ensures KeyOf(t[id]) in api2 <==> KeyOf(t[id]) in api || (id in front + [x] && Stores(t[id], turn, fates(id))) {
      if id != x { assert KeyOf(t[id]) != KeyOf(t[x]); }
    }
  }

  lemma OneMoreOpen(t: Table, turn: Turn, front: seq<string>, x: string, fates: string -> Fate)
    requires x in t
    ensures SomeLeftOpen(t, turn, front + [x], fates) <==> SomeLeftOpen(t, turn, front, fates) || LeftOpen(t[x], turn, fates(x))
  {
    assert x in front + [x];
    if SomeLeftOpen(t, turn, front, fates) {
      var id :| id in front && id in t && LeftOpen(t[id], turn, fates(id));
      assert id in front + [x];
    }
  }

  // ----- the whole turn

  /** What becomes of one draft in a cancel turn. */
  function TurnedDraft(d: Draft, held: bool, turn: Turn, fate: Fate): Draft {
    var past := d.expiresAt.Some? && d.expiresAt.value <= turn.now;
    if d.ctx != turn.ctx then d
    else match d.status
      case Active =>
        if past then d.(status := Status.Expired)
        else d.(status := Discarded, discardReason := Some("user_cancel"), updatedAt := turn.now, lastIntentionId := turn.intentionId)
      case Proposing => if past then d else SettledDraft(d, held, turn, fate)
      case _ => d
  }

  /** The outcome of this draft keeps the answer open. */
  predicate KeepsOpen(d: Draft, turn: Turn, fate: Fate) {
    && d.ctx == turn.ctx && d.status == Proposing && !(d.expiresAt.Some? && d.expiresAt.value <= turn.now)
    && LeftOpen(d, turn, fate)
  }

  lemma DiscardsActive(t0: Table, t1: Table, api: Api, turn: Turn, order: seq<string>, fates: string -> Fate, id: string)
    requires id in t0 && t1.Keys == t0.Keys && (id in order <==> id in Listed(t0, turn.ctx, turn.now, Proposing))
    requires t1[id] == if id in order then SettledDraft(t0[id], KeyOf(t0[id]) in api, turn, fates(id)) else t0[id]
    requires !(t0[id].status == Active && t0[id].ctx == turn.ctx && t0[id].IsExpired(turn.now))
    ensures DiscardIn(t1, Listed(t1, turn.ctx, turn.now, Active), turn)[id] == TurnedDraft(t0[id], KeyOf(t0[id]) in api, turn, fates(id))
  {}

  lemma ClosesStale(t: Table, ctx: Context, now: int, id: string)
    requires id in t
    ensures id in Closed(t, ctx, now)
    ensures var d := Closed(t, ctx, now)[id];
            d == if t[id].status == Active && t[id].ctx == ctx && t[id].expiresAt.Some? && t[id].expiresAt.value <= now
                 then t[id].(status := Status.Expired) else t[id]
  {}

  lemma TurnsDraft(t: Table, t1: Table, api: Api, turn: Turn, order: seq<string>, fates: string -> Fate, id: string)
    requires var t0 := Closed(t, turn.ctx, turn.now);
             && id in t && t1.Keys == t0.Keys && (id in order <==> id in Listed(t0, turn.ctx, turn.now, Proposing))
             && t1[id] == if id in order then SettledDraft(t0[id], KeyOf(t0[id]) in api, turn, fates(id)) else t0[id]
    ensures DiscardIn(t1, Listed(t1, turn.ctx, turn.now, Active), turn)[id] == TurnedDraft(t[id], KeyOf(t[id]) in api, turn, fates(id))
  {
    ClosesStale(t, turn.ctx, turn.now, id);
    DiscardsActive(Closed(t, turn.ctx, turn.now), t1, api, turn, order, fates, id);
  }

  lemma OpenExactly(t: Table, turn: Turn, order: seq<string>, fates: string -> Fate)
    requires Enumerates(order, Listed(Closed(t, turn.ctx, turn.now), turn.ctx, turn.now, Proposing))
    ensures SomeLeftOpen(Closed(t, turn.ctx, turn.now), turn, order, fates) <==> exists id :: id in t && KeepsOpen(t[id], turn, fates(id))
  {
    var t0 := Closed(t, turn.ctx, turn.now);
    forall id <- t ensures id in t0 && (KeepsOpen(t[id], turn, fates(id)) <==> id in order && LeftOpen(t0[id], turn, fates(id))) {
      ClosesStale(t, turn.ctx, turn.now, id);
      assert id in order <==> id in Listed(t0, turn.ctx, turn.now, Proposing);
    }
    if SomeLeftOpen(t0, turn, order, fates) {
      var id :| id in order && id in t0 && LeftOpen(t0[id], turn, fates(id));
      assert id in t && KeepsOpen(t[id], turn, fates(id));
    }
  }

  lemma PreparedExactly(t: Table, api: Api, turn: Turn, order: seq<string>, fates: string -> Fate)
    requires Keyed(t) && Enumerates(order, Listed(Closed(t, turn.ctx, turn.now), turn.ctx, turn.now, Proposing))
    ensures var (t', api', open) := Prepare(t, api, turn, order, fates);
            && t'.Keys == t.Keys
            && (forall id <- t :: t'[id] == TurnedDraft(t[id], KeyOf(t[id]) in api, turn, fates(id)))
            && (open <==> SomeLeftOpen(Closed(t, turn.ctx, turn.now), turn, order, fates))
  {
    var t0 := Closed(t, turn.ctx, turn.now);
    assert Keyed(t0) && InFlight(t0, order);
    SettleExactly(t0, api, turn, order, fates);
    var (t1, api1, open) := SettleAll(t0, api, turn, order, fates);
    forall id <- t ensures Prepare(t, api, turn, order, fates).0[id] == TurnedDraft(t[id], KeyOf(t[id]) in api, turn, fates(id)) {
      TurnsDraft(t, t1, api, turn, order, fates, id);
    }
  }

  // What a cancel turn makes of each draft: in its context a live active one is discarded,
  // a stale one expired, and one in flight settled, by its own fate alone: it stays in
  // flight with an unknown outcome, is discarded as rejected, or consumed by the operation
  // under its key. Nothing else changes. The answer is "inconclusive" exactly if some
  // draft in flight had no device to ask for, no reply, or a status that refuses nothing
  // for good.
  lemma CancelTurnExactly(t: Table, api: Api, turn: Turn, who: Device, order: seq<string>, fates: string -> Fate, fate: CancelFate)
    requires Keyed(t) && Enumerates(order, Listed(Closed(t, turn.ctx, turn.now), turn.ctx, turn.now, Proposing))
    ensures var (t', api', r) := Resolve(t, api, turn, who, order, fates, fate);
            && t'.Keys == t.Keys
            && (forall id <- t :: t'[id] == TurnedDraft(t[id], KeyOf(t[id]) in api, turn, fates(id)))
            && (r.Inconclusive? <==> exists id :: id in t && KeepsOpen(t[id], turn, fates(id)))
  {
    PreparedExactly(t, api, turn, order, fates);
    OpenExactly(t, turn, order, fates);
    DecideShape(Prepare(t, api, turn, order, fates).1, who, fate);
  }

  /** The operations of a device that a decision can still move. */
  function StillDecidable(api: Api, who: Device): set<Key> {
    set k <- api | api[k].owner == who && api[k].status in {OpProposed, OpConfirmed}
  }

  lemma KeysAfterSettling(t: Table, api: Api, turn: Turn, order: seq<string>, fates: string -> Fate)
    requires Keyed(t) && Enumerates(order, Listed(Closed(t, turn.ctx, turn.now), turn.ctx, turn.now, Proposing))
    ensures var api1 := Prepare(t, api, turn, order, fates).1;
            && Untouched(api, api1)
            && forall id <- t :: KeyOf(t[id]) in api1 <==> KeyOf(t[id]) in api || (id in order && Stores(t[id], turn, fates(id)))
  {
    var t0 := Closed(t, turn.ctx, turn.now);
    assert Keyed(t0) && InFlight(t0, order);
    SettleExactly(t0, api, turn, order, fates);
    forall id <- t ensures KeyOf(t[id]) == KeyOf(t0[id]) && (id in order ==> t0[id] == t[id]) { ClosesStale(t, turn.ctx, turn.now, id); }
  }

  lemma DecideExactly(api: Api, who: Device, fate: CancelFate)
    ensures var (api', r) := Decide(api, who, fate);
            var left := StillDecidable(api, who);
            if left == {} then r == Cancelled(None) && api' == api
            else if exists k :: left == {k} then
              var k :| left == {k};
              && r == (if fate.Accepted? then Cancelled(Some(k)) else Thrown)
              && api' == if fate.Accepted? || (fate.Unanswered? && fate.applied) then api[k := api[k].(status := OpCancelled)] else api
            else r == Ambiguous(left) && api' == api
  {
    assert StillDecidable(api, who) == DecidableKeys(api, who);
    DecideShape(api, who, fate);
  }

  // Once nothing is open, the operations that the device can still decide determine the
  // answer: with none it is cancelled, the only one is cancelled if the API confirms it,
  // and several are named and left alone.
  lemma AnswerExactly(t: Table, api: Api, turn: Turn, who: Device, order: seq<string>, fates: string -> Fate, fate: CancelFate)
    requires Keyed(t) && Enumerates(order, Listed(Closed(t, turn.ctx, turn.now), turn.ctx, turn.now, Proposing))
    ensures var (t', api', r) := Resolve(t, api, turn, who, order, fates, fate);
            var api1 := Prepare(t, api, turn, order, fates).1;
            var left := StillDecidable(api1, who);
            && Untouched(api, api1)
            && (forall id <- t :: KeyOf(t[id]) in api1 <==>
                  KeyOf(t[id]) in api || (id in order && Stores(t[id], turn, fates(id))))
            && (!r.Inconclusive? ==>
                  if left == {} then r == Cancelled(None) && api' == api1
                  else if exists k :: left == {k} then
                    var k :| left == {k};
                    && r == (if fate.Accepted? then Cancelled(Some(k)) else Thrown)
                    && api' == if fate.Accepted? || (fate.Unanswered? && fate.applied) then api1[k := api1[k].(status := OpCancelled)] else api1
                  else r == Ambiguous(left) && api' == api1)
  {
    KeysAfterSettling(t, api, turn, order, fates);
    DecideExactly(Prepare(t, api, turn, order, fates).1, who, fate);
  }
}
