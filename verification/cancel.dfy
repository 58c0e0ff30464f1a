/**
 * The cancel turn: proposals in flight are settled under their own idempotency key,
 * active drafts are discarded, and only then does the authoritative listing decide.
 */
module Cancel {
  import opened Common
  import opened Drafts

  // ----- the API, seen from here

  datatype OpStatus = OpProposed | OpConfirmed | OpFailed | OpCancelled | OpSucceeded

  datatype Device = Device(workspaceId: string, actorId: string, deviceId: string)

  datatype Operation = Operation(status: OpStatus, owner: Device)

  /** The API keeps one operation per idempotency key, and the key names it. */
  type Api = map<Key, Operation>

  predicate Decidable(op: Operation, who: Device) {
    op.owner == who && (op.status == OpProposed || op.status == OpConfirmed)
  }

  function DecidableKeys(api: Api, who: Device): set<Key> {
    set k <- api | Decidable(api[k], who)
  }

  /** What the network and the API make of one propose call. */
  datatype Fate =
    | Answered
    | Denied(statusCode: int, stored: bool)   // stored: the operation was, before the call failed
    | NoReply(stored: bool)                   // the reply is lost; the operation may have been stored

  /** Statuses the API refuses a proposal with before it stores anything. */
  predicate RefusesUnstored(statusCode: int) {
    400 <= statusCode < 500 && statusCode != 408 && statusCode != 425 && statusCode != 429
  }

  datatype ProposeReply = Proposal(id: Key, existing: bool) | Error(statusCode: Option<int>)

  /** 4xx refusals are final, except 408, 425 and 429; anything else leaves the outcome open. */
  predicate Definitive(statusCode: Option<int>) {
    statusCode.Some? && !(statusCode.value in {408, 425, 429}) && 400 <= statusCode.value < 500
  }

  /**
   * A stored key is answered, or its reply is lost; it is never refused for good. A
   * failure other than such a refusal may have stored the operation.
   */
  function Propose(api: Api, key: Key, who: Device, fate: Fate): (Api, ProposeReply) {
    if key in api then
      (api, match fate
            case Answered => Proposal(key, true)
            case Denied(code, _) => if RefusesUnstored(code) then Proposal(key, true) else Error(Some(code))
            case NoReply(_) => Error(None))
    else
      var api' := api[key := Operation(OpProposed, who)];
      match fate
      case Answered => (api', Proposal(key, false))
      case Denied(code, stored) => (if stored && !RefusesUnstored(code) then api' else api, Error(Some(code)))
      case NoReply(stored) => (if stored then api' else api, Error(None))
  }

  // ----- settling one proposal in flight

  datatype Turn = Turn(ctx: Context, intentionId: string, device: Option<string>, now: int)

  /** The call made for one draft. With no device at all it fails before anything is sent. */
  function Attempt(api: Api, d: Draft, device: Option<string>, fate: Fate): (Api, ProposeReply) {
    var id := OrElse(d.ctx.deviceId, device);
    if id.None? then (api, Error(None))
    else Propose(api, d.Key(), Device(d.ctx.workspaceId, d.ctx.actorId, id.value), fate)
  }

  function Settlement(reply: ProposeReply, turn: Turn): Patch {
    var stamp := NO_PATCH.(updatedAt := Some(turn.now), lastIntentionId := Some(turn.intentionId));
    match reply
    case Proposal(id, existing) =>
      stamp.(status := Some(Consumed), proposalId := Some(id), outcome := Some(if existing then Existing else Created))
    case Error(code) =>
      if Definitive(code) then
        stamp.(status := Some(Discarded), discardReason := Some("propose_rejected"), outcome := Some(Rejected))
      else stamp.(outcome := Some(Unknown))
  }

  function UserCancel(turn: Turn): Patch {
    NO_PATCH.(status := Some(Discarded), discardReason := Some("user_cancel"),
              updatedAt := Some(turn.now), lastIntentionId := Some(turn.intentionId))
  }

  predicate Open(reply: ProposeReply) { reply.Error? && !Definitive(reply.statusCode) }

  /** Settles the drafts in the given order; the flag says whether some outcome stayed open. */
  function SettleAll(t: Table, api: Api, turn: Turn, order: seq<string>, fates: string -> Fate): (Table, Api, bool)
    decreases |order|
  {
    if order == [] then (t, api, false)
    else
      var n := |order| - 1;
      var (t', api', open) := SettleAll(t, api, turn, order[..n], fates);
      if order[n] !in t' then (t', api', open)
      else
        var (api'', reply) := Attempt(api', t'[order[n]], turn.device, fates(order[n]));
        (Updated(t', order[n], Settlement(reply, turn)), api'', open || Open(reply))
  }

  function DiscardIn(t: Table, ids: set<string>, turn: Turn): Table {
    map id <- t :: if id in ids then Patched(t[id], UserCancel(turn)) else t[id]
  }

  datatype Resolution =
    | Cancelled(operation: Option<Key>)
    | Inconclusive
    | Ambiguous(operations: set<Key>)
    | Thrown                                   // the final cancel brought no confirmation: no answer is given

  /** What becomes of the final cancel: it may have taken effect although its reply is lost. */
  datatype CancelFate = Accepted | Refused | Unanswered(applied: bool)

  predicate TakesEffect(fate: CancelFate) { fate.Accepted? || (fate.Unanswered? && fate.applied) }

  ghost predicate Enumerates(order: seq<string>, ids: set<string>) {
    && (forall id :: id in order <==> id in ids)
    && (forall i, j :: 0 <= i < j < |order| ==> order[i] != order[j])
  }

  /** The listing decides: none, one, or several decidable operations. */
  ghost function Decide(api: Api, who: Device, fate: CancelFate): (Api, Resolution) {
    var keys := DecidableKeys(api, who);
    if keys == {} then (api, Cancelled(None))
    else
      var k :| k in keys;
      if keys != {k} then (api, Ambiguous(keys))
      else
        (if TakesEffect(fate) then api[k := api[k].(status := OpCancelled)] else api,
         if fate.Accepted? then Cancelled(Some(k)) else Thrown)
  }

  /** Drafts and operations after settling and discarding, before the listing is asked. */
  ghost function Prepare(t: Table, api: Api, turn: Turn, order: seq<string>, fates: string -> Fate): (Table, Api, bool) {
    var (t', api', open) := SettleAll(Closed(t, turn.ctx, turn.now), api, turn, order, fates);
    (DiscardIn(t', Listed(t', turn.ctx, turn.now, Active), turn), api', open)
  }

  ghost function Resolve(t: Table, api: Api, turn: Turn, who: Device, order: seq<string>, fates: string -> Fate, fate: CancelFate)
    : (Table, Api, Resolution)
  {
    var (t', api', open) := Prepare(t, api, turn, order, fates);
    if open then (t', api', Inconclusive)
    else
      var (api'', r) := Decide(api', who, fate);
      (t', api'', r)
  }

  // ----- the coordinator

  class MutationApi {
    var ops: Api

    constructor ()
      ensures ops == map[]
    {
      ops := map[];
    }

    method ProposeOperation(key: Key, who: Device, fate: Fate) returns (reply: ProposeReply)
      modifies this
      ensures (ops, reply) == Propose(old(ops), key, who, fate)
    {
      if key in ops {
        if fate.NoReply? { return Error(None); }
        if fate.Denied? && !RefusesUnstored(fate.statusCode) { return Error(Some(fate.statusCode)); }
        return Proposal(key, true);
      }
      if fate.Denied? {
        if fate.stored && !RefusesUnstored(fate.statusCode) { ops := ops[key := Operation(OpProposed, who)]; }
        return Error(Some(fate.statusCode));
      }
      if fate.Answered? || fate.stored { ops := ops[key := Operation(OpProposed, who)]; }
      return if fate.Answered? then Proposal(key, false) else Error(None);
    }

    method CancelOperation(key: Key, fate: CancelFate) returns (done: bool)
      requires key in ops
      modifies this
      ensures done == fate.Accepted?
      ensures ops == if TakesEffect(fate) then old(ops)[key := old(ops)[key].(status := OpCancelled)] else old(ops)
    {
      if TakesEffect(fate) { ops := ops[key := ops[key].(status := OpCancelled)]; }
      return fate.Accepted?;
    }
  }

  class PendingOperationCoordinator {
    const client: MutationApi
    const store: InMemoryDraftStore

    constructor (client: MutationApi, store: InMemoryDraftStore)
      ensures this.client == client && this.store == store
    {
      this.client := client;
      this.store := store;
    }

    method DiscardActiveDrafts(turn: Turn)
      modifies store
      ensures store.drafts == DiscardIn(old(store.drafts), Listed(old(store.drafts), turn.ctx, turn.now, Active), turn)
    {
      ghost var before := store.drafts;
      var active := store.List(turn.ctx, turn.now, Active);
      ghost var done: set<string> := {};
      for i := 0 to |active|
        invariant forall id :: id in done <==> id in active[..i]
        invariant store.drafts == DiscardIn(before, done, turn)
      {
        assert active[..i + 1] == active[..i] + [active[i]];
        assert active[i] !in done;
        var _ := store.Update(active[i], UserCancel(turn));
        done := done + {active[i]};
      }
      assert active[..|active|] == active;
      assert done == Listed(before, turn.ctx, turn.now, Active);
    }

    /** The proposing drafts, each settled under its own key, in the order the store lists them. */
    method SettleProposing(turn: Turn, fates: string -> Fate) returns (open: bool, ghost order: seq<string>)
      modifies store, client
      ensures Enumerates(order, Listed(old(store.drafts), turn.ctx, turn.now, Proposing))
      ensures (store.drafts, client.ops, open) == SettleAll(old(store.drafts), old(client.ops), turn, order, fates)
    {
      ghost var t, api := store.drafts, client.ops;
      var proposing := store.List(turn.ctx, turn.now, Proposing);
      order := proposing;
      open := false;
      for i := 0 to |proposing|
        invariant store.drafts.Keys == t.Keys
        invariant (store.drafts, client.ops, open) == SettleAll(t, api, turn, proposing[..i], fates)
      {
        assert proposing[..i + 1][..i] == proposing[..i] && proposing[..i + 1][i] == proposing[i];
        var id := proposing[i];
        assert id in Listed(t, turn.ctx, turn.now, Proposing);
        var d := store.drafts[id];
        var device := OrElse(d.ctx.deviceId, turn.device);
        var reply := Error(None);
        if device.Some? {
          reply := client.ProposeOperation(d.Key(), Device(d.ctx.workspaceId, d.ctx.actorId, device.value), fates(id));
        }
        if reply.Error? && !Definitive(reply.statusCode) { open := true; }
        var _ := store.Update(id, Settlement(reply, turn));
      }
      assert proposing[..|proposing|] == proposing;
    }

    method ResolveCancel(turn: Turn, who: Device, fates: string -> Fate, fate: CancelFate)
      returns (reply: Resolution, ghost order: seq<string>)
      modifies store, client
      ensures Enumerates(order, Listed(Closed(old(store.drafts), turn.ctx, turn.now), turn.ctx, turn.now, Proposing))
      ensures (store.drafts, client.ops, reply) == Resolve(old(store.drafts), old(client.ops), turn, who, order, fates, fate)
    {
      var _ := store.ExpireStale(turn.ctx, turn.now);
      var open;
      open, order := SettleProposing(turn, fates);
      DiscardActiveDrafts(turn);
      if open { return Inconclusive, order; }
      reply := DecideFromListing(who, fate);
    }

    /** The tail of the cancel turn, and the whole of it when the turn has no drafts. */
    method DecideFromListing(who: Device, fate: CancelFate) returns (reply: Resolution)
      modifies client
      ensures (client.ops, reply) == Decide(old(client.ops), who, fate)
    {
      var decidable := DecidableKeys(client.ops, who);
      if decidable == {} { return Cancelled(None); }
      var single :| single in decidable;
      if decidable != {single} { return Ambiguous(decidable); }
      var done := client.CancelOperation(single, fate);
      return if done then Cancelled(Some(single)) else Thrown;
    }
  }
}
