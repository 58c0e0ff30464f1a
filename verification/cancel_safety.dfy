/** What a cancel turn may claim, and what any number of turns keep. */
module CancelSafety {
  import opened Common
  import opened Drafts
  import opened Cancel

  // ----- one turn

  ghost predicate Untouched(api: Api, api': Api) { forall k <- api :: k in api' && api'[k] == api[k] }

  ghost predicate SettledAs(d: Draft, d': Draft, turn: Turn) {
    exists reply :: d' == Patched(d, Settlement(reply, turn))
  }

  ghost predicate InFlight(t: Table, order: seq<string>) {
    && (forall id :: id in order ==> id in t && t[id].status == Proposing)
    && (forall i, j :: 0 <= i < j < |order| ==> order[i] != order[j])
  }

  lemma {:induction false} SettleFrame(t: Table, api: Api, turn: Turn, order: seq<string>, fates: string -> Fate)
    requires InFlight(t, order)
    ensures var (t', api', open) := SettleAll(t, api, turn, order, fates);
            t'.Keys == t.Keys && Untouched(api, api') && (forall id <- t | id !in order :: t'[id] == t[id])
    decreases |order|
  {
    if order != [] {
      var n := |order| - 1;
      assert order == order[..n] + [order[n]];
      SettleFrame(t, api, turn, order[..n], fates);
    }
  }

  /** What settling says of one draft: it has been settled, and stays in flight exactly if its outcome stayed open. */
  ghost predicate Settled(d: Draft, d': Draft, turn: Turn, open: bool) {
    SettledAs(d, d', turn) && (d'.status == Proposing <==> open) && (open ==> d'.outcome == Some(Unknown))
  }

  lemma SettledBy(d: Draft, reply: ProposeReply, turn: Turn)
    requires d.status == Proposing
    ensures Settled(d, Patched(d, Settlement(reply, turn)), turn, Open(reply))
  {}

  /** The drafts of an order, each settled; the flag says whether one of them stays in flight. */
  ghost predicate SettledIn(t: Table, t': Table, turn: Turn, order: seq<string>, open: bool) {
    && t'.Keys == t.Keys
    && (forall id :: id in order ==> id in t && Settled(t[id], t'[id], turn, t'[id].status == Proposing))
    && (open <==> exists id :: id in order && id in t' && t'[id].status == Proposing)
  }

  lemma {:induction false} SettleShape(t: Table, api: Api, turn: Turn, order: seq<string>, fates: string -> Fate)
    requires InFlight(t, order)
    ensures var (t', api', open) := SettleAll(t, api, turn, order, fates); SettledIn(t, t', turn, order, open)
    decreases |order|
  {
    if order != [] {
      var n := |order| - 1;
      assert order == order[..n] + [order[n]] && order[n] !in order[..n];
      SettleFrame(t, api, turn, order[..n], fates);
      SettleShape(t, api, turn, order[..n], fates);
      var (t1, api1, open1) := SettleAll(t, api, turn, order[..n], fates);
      var reply := Attempt(api1, t1[order[n]], turn.device, fates(order[n])).1;
      SettleLast(t, t1, turn, order, open1, reply);
    }
  }

  lemma SettleLast(t: Table, t1: Table, turn: Turn, order: seq<string>, open1: bool, reply: ProposeReply)
    requires InFlight(t, order) && order != []
    requires var x := order[|order| - 1]; x !in order[..|order| - 1] && x in t1 && t1[x] == t[x]
    requires SettledIn(t, t1, turn, order[..|order| - 1], open1)
    ensures SettledIn(t, Updated(t1, order[|order| - 1], Settlement(reply, turn)), turn, order, open1 || Open(reply))
  {
    var n := |order| - 1;
    var x := order[n];
    var t2 := Updated(t1, x, Settlement(reply, turn));
    assert order == order[..n] + [x];
    SettledBy(t[x], reply, turn);
    if open1 {
      var id :| id in order[..n] && id in t1 && t1[id].status == Proposing;
      assert id in order && t2[id].status == Proposing;
    }
    if Open(reply) { assert x in order && t2[x].status == Proposing; }
  }

  lemma TwoOrMore<T>(s: set<T>, k: T)
    requires k in s && s != {k}
    ensures |s| >= 2
  {
    assert s == {k} + (s - {k});
    assert s - {k} != {};
  }

  /** What settling left of the drafts of a turn. */
  ghost predicate AfterSettling(t0: Table, t1: Table, turn: Turn, order: seq<string>) {
    && InFlight(t0, order) && t1.Keys == t0.Keys
    && (forall id <- order :: Settled(t0[id], t1[id], turn, t1[id].status == Proposing))
    && (forall id <- t0 | id !in order :: t1[id] == t0[id])
  }

  lemma SettledKeepsContext(t0: Table, t1: Table, turn: Turn, order: seq<string>, id: string)
    requires AfterSettling(t0, t1, turn, order) && id in t0
    ensures t1[id].ctx == t0[id].ctx && t1[id].expiresAt == t0[id].expiresAt
  {
    if id in order { assert Settled(t0[id], t1[id], turn, t1[id].status == Proposing); }
  }

  /** Discarding the active drafts leaves no active one, and in flight just those that settling left so. */
  lemma AfterDiscard(t0: Table, t1: Table, turn: Turn, order: seq<string>, id: string)
    requires AfterSettling(t0, t1, turn, order) && Enumerates(order, Listed(t0, turn.ctx, turn.now, Proposing)) && id in t0
    ensures var t2 := DiscardIn(t1, Listed(t1, turn.ctx, turn.now, Active), turn);
            && id !in Listed(t2, turn.ctx, turn.now, Active)
            && (id in Listed(t2, turn.ctx, turn.now, Proposing) <==> id in order && t1[id].status == Proposing)
            && (id in Listed(t2, turn.ctx, turn.now, Proposing) ==> t2[id] == t1[id] && t1[id].outcome == Some(Unknown))
            && (t0[id].ctx != turn.ctx ==> t2[id] == t0[id])
  {
    SettledKeepsContext(t0, t1, turn, order, id);
    assert id in order <==> id in Listed(t0, turn.ctx, turn.now, Proposing);
    if id in order { assert Settled(t0[id], t1[id], turn, t1[id].status == Proposing); }
  }

  /**
   * Drafts ready for the listing to decide: nothing active is left in the context, what
   * is still in flight there has an unknown outcome, and other contexts are as they were.
   */
  ghost predicate Prepared(t: Table, t': Table, turn: Turn, open: bool) {
    && t'.Keys == t.Keys
    && Listed(t', turn.ctx, turn.now, Active) == {}
    && (open <==> Listed(t', turn.ctx, turn.now, Proposing) != {})
    && (forall id <- Listed(t', turn.ctx, turn.now, Proposing) :: t'[id].outcome == Some(Unknown))
    && (forall id <- t | t[id].ctx != turn.ctx :: t'[id] == t[id])
  }

  lemma DiscardShape(t0: Table, t1: Table, turn: Turn, order: seq<string>, open: bool)
    requires AfterSettling(t0, t1, turn, order) && Enumerates(order, Listed(t0, turn.ctx, turn.now, Proposing))
    requires open <==> exists id :: id in order && t1[id].status == Proposing
    ensures Prepared(t0, DiscardIn(t1, Listed(t1, turn.ctx, turn.now, Active), turn), turn, open)
  {
    var t2 := DiscardIn(t1, Listed(t1, turn.ctx, turn.now, Active), turn);
    forall id <- Listed(t2, turn.ctx, turn.now, Active) ensures false { AfterDiscard(t0, t1, turn, order, id); }
    forall id <- Listed(t2, turn.ctx, turn.now, Proposing)
      ensures t2[id].outcome == Some(Unknown) && id in order && t1[id].status == Proposing
    {
      AfterDiscard(t0, t1, turn, order, id);
    }
    forall id <- t0 | t0[id].ctx != turn.ctx ensures t2[id] == t0[id] { AfterDiscard(t0, t1, turn, order, id); }
    if open {
      var id :| id in order && t1[id].status == Proposing;
      AfterDiscard(t0, t1, turn, order, id);
      assert id in Listed(t2, turn.ctx, turn.now, Proposing);
    }
  }

  lemma ClosingFirst(t: Table, t': Table, turn: Turn, open: bool)
    requires Prepared(Closed(t, turn.ctx, turn.now), t', turn, open)
    ensures Prepared(t, t', turn, open)
  {}

  lemma SettlingShape(t0: Table, api: Api, turn: Turn, order: seq<string>, fates: string -> Fate)
    requires Enumerates(order, Listed(t0, turn.ctx, turn.now, Proposing))
    ensures var (t1, api1, open) := SettleAll(t0, api, turn, order, fates);
            && AfterSettling(t0, t1, turn, order) && Untouched(api, api1)
            && (open <==> exists id :: id in order && t1[id].status == Proposing)
  {
    SettleFrame(t0, api, turn, order, fates);
    SettleShape(t0, api, turn, order, fates);
  }

  lemma PrepareShape(t: Table, api: Api, turn: Turn, order: seq<string>, fates: string -> Fate)
    requires Enumerates(order, Listed(Closed(t, turn.ctx, turn.now), turn.ctx, turn.now, Proposing))
    ensures var (t', api', open) := Prepare(t, api, turn, order, fates); Prepared(t, t', turn, open) && Untouched(api, api')
  {
    var t0 := Closed(t, turn.ctx, turn.now);
    SettlingShape(t0, api, turn, order, fates);
    var (t1, api1, open) := SettleAll(t0, api, turn, order, fates);
    DiscardShape(t0, t1, turn, order, open);
    ClosingFirst(t, DiscardIn(t1, Listed(t1, turn.ctx, turn.now, Active), turn), turn, open);
  }

  // The answer of a cancel turn is the truth. "cancelled" leaves no live active or
  // proposing draft in the context and nothing decidable for the identity, and at most
  // one operation was moved, to cancelled. "inconclusive" cancelled nothing and leaves a
  // proposing draft whose outcome is unknown. "ambiguous" names all, at least two,
  // decidable operations and touched none of them. Without a confirmation no answer is
  // given, and at most the one decidable operation was cancelled, if the cancel took
  // effect all the same. Drafts of other contexts are left alone.
  lemma CancelTellsTheTruth(t: Table, api: Api, turn: Turn, who: Device, order: seq<string>, fates: string -> Fate, fate: CancelFate)
    requires Enumerates(order, Listed(Closed(t, turn.ctx, turn.now), turn.ctx, turn.now, Proposing))
    ensures var (t', api', r) := Resolve(t, api, turn, who, order, fates, fate);
            && (forall id <- t | t[id].ctx != turn.ctx :: id in t' && t'[id] == t[id])
            && Listed(t', turn.ctx, turn.now, Active) == {}
            && (r.Inconclusive? <==> Listed(t', turn.ctx, turn.now, Proposing) != {})
            && match r
               case Cancelled(None) => Untouched(api, api') && DecidableKeys(api', who) == {}
               case Cancelled(Some(k)) =>
                 && DecidableKeys(api', who) == {} && k in api' && api'[k].status == OpCancelled && api'[k].owner == who
                 && (forall j <- api | j != k :: j in api' && api'[j] == api[j])
               case Inconclusive => Untouched(api, api')
                 && (forall id <- Listed(t', turn.ctx, turn.now, Proposing) :: t'[id].outcome == Some(Unknown))
               case Ambiguous(keys) => Untouched(api, api') && keys == DecidableKeys(api', who) && |keys| >= 2
               case Thrown =>
                 && !fate.Accepted?
                 && (if TakesEffect(fate) then
                       exists k :: k in api' && api'[k].status == OpCancelled && api'[k].owner == who
                                   && DecidableKeys(api', who) == {} && (forall j <- api | j != k :: j in api' && api'[j] == api[j])
                     else Untouched(api, api') && |DecidableKeys(api', who)| == 1)
  {
    PrepareShape(t, api, turn, order, fates);
    var (t1, api1, open) := Prepare(t, api, turn, order, fates);
    if !open { DecideShape(api1, who, fate); }
  }

  lemma CancelledAlone(api: Api, who: Device, k: Key)
    requires DecidableKeys(api, who) == {k}
    ensures k in api && DecidableKeys(api[k := api[k].(status := OpCancelled)], who) == {}
  {
    assert k in DecidableKeys(api, who);
    var api' := api[k := api[k].(status := OpCancelled)];
    forall j <- api' ensures j !in DecidableKeys(api', who) { if j != k { assert j !in DecidableKeys(api, who); } }
  }

  lemma DecideShape(api: Api, who: Device, fate: CancelFate)
    ensures var (api', r) := Decide(api, who, fate);
            match r
            case Cancelled(None) => api' == api && DecidableKeys(api, who) == {}
            case Cancelled(Some(k)) =>
              DecidableKeys(api', who) == {} && DecidableKeys(api, who) == {k} && api' == api[k := api[k].(status := OpCancelled)]
            case Inconclusive => false
            case Ambiguous(keys) => api' == api && keys == DecidableKeys(api, who) && |keys| >= 2
            case Thrown =>
              exists k :: !fate.Accepted? && DecidableKeys(api, who) == {k}
                          && (if TakesEffect(fate) then
                                DecidableKeys(api', who) == {} && api' == api[k := api[k].(status := OpCancelled)]
                              else api' == api)
  {
    var (api', r) := Decide(api, who, fate);
    var keys := DecidableKeys(api, who);
    if keys != {} {
      forall k | k in keys && keys != {k} ensures |keys| >= 2 { TwoOrMore(keys, k); }
      if k :| k in keys && keys == {k} {
        CancelledAlone(api, who, k);
      }
    }
  }

  // ----- any number of turns

  datatype World = World(drafts: Table, api: Api)

  datatype Event =
    | NewDraft(draft: Draft)
    | Amend(id: string, patch: Patch)                                 // a clarification turn
    // a compare-and-set in one of the stores, then the propose of whoever was told to have won
    | ProposeTurn(id: string, patch: Patch, turn: Turn, fate: Fate, sql: bool)
    | RetryTurn(id: string, turn: Turn, fate: Fate)                   // propose again under the same key
    | CancelTurn(turn: Turn, who: Device, order: seq<string>, fates: string -> Fate, cancel: CancelFate)
    | Expire(ctx: Context, now: int)
    | OperationMoves(key: Key, status: OpStatus)                      // confirm, execute, cancel by other hands
    | ForeignOperation(name: string, op: Operation)

  function SettleOne(w: World, id: string, turn: Turn, fate: Fate): World
    requires id in w.drafts
  {
    var (api, reply) := Attempt(w.api, w.drafts[id], turn.device, fate);
    World(Updated(w.drafts, id, Settlement(reply, turn)), api)
  }

  ghost function Apply(w: World, e: Event): World {
    match e
    case NewDraft(d) => if d.status == Active && d.draftId !in w.drafts then w.(drafts := Stored(w.drafts, d)) else w
    case Amend(id, p) => if p.status.None? && p.proposalId.None? then w.(drafts := Updated(w.drafts, id, p)) else w
    case ProposeTurn(id, p, turn, fate, sql) =>
      var (t, result) := if sql then CasSql(w.drafts, id, p) else CasMem(w.drafts, id, p);
      if result.Won? then SettleOne(w.(drafts := t), id, turn, fate) else w
    case RetryTurn(id, turn, fate) =>
      if id in w.drafts && w.drafts[id].status == Proposing then SettleOne(w, id, turn, fate) else w
    case CancelTurn(turn, who, order, fates, cancel) =>
      if Enumerates(order, Listed(Closed(w.drafts, turn.ctx, turn.now), turn.ctx, turn.now, Proposing)) then
        var (t, api, _) := Resolve(w.drafts, w.api, turn, who, order, fates, cancel);
        World(t, api)
      else w
    case Expire(ctx, now) => w.(drafts := Closed(w.drafts, ctx, now))
    case OperationMoves(k, status) => if k in w.api then w.(api := w.api[k := w.api[k].(status := status)]) else w
    case ForeignOperation(name, op) =>
      if OtherKey(name) in w.api then w else w.(api := w.api[OtherKey(name) := op])
  }

  ghost function Run(w: World, es: seq<Event>): World
    decreases |es|
  {
    if es == [] then w else Run(Apply(w, es[0]), es[1..])
  }

  predicate Owns(api: Api, d: Draft) {
    match d.status
    case Active => d.Key() !in api
    case Expired => d.Key() !in api
    case Discarded => d.Key() !in api
    case Consumed => d.Key() in api && d.proposalId == Some(d.Key())
    case _ => true
  }

  /** Every operation that was made for a draft is stored under that draft's key. */
  predicate Inv(w: World) {
    && Keyed(w.drafts)
    && (forall k <- w.api | k.DraftKey? :: k.draftId in w.drafts && w.drafts[k.draftId].Key() == k)
    && (forall id <- w.drafts :: Owns(w.api, w.drafts[id]))
  }

  lemma AttemptShape(api: Api, d: Draft, device: Option<string>, fate: Fate)
    ensures var (api', reply) := Attempt(api, d, device, fate);
            && Untouched(api, api') && (forall k <- api' :: k in api || k == d.Key())
            && (reply.Proposal? ==> reply.id == d.Key() && d.Key() in api')
            && (reply.Error? && Definitive(reply.statusCode) ==> d.Key() !in api' )
  {}

  lemma SettleOneKeepsInv(w: World, id: string, turn: Turn, fate: Fate)
    requires Inv(w) && id in w.drafts && w.drafts[id].status == Proposing
    ensures Inv(SettleOne(w, id, turn, fate))
  {
    var d := w.drafts[id];
    AttemptShape(w.api, d, turn.device, fate);
    var w' := SettleOne(w, id, turn, fate);
    forall i <- w'.drafts ensures Owns(w'.api, w'.drafts[i]) {
      assert Owns(w.api, w.drafts[i]);
      if i != id { assert w.drafts[i].Key() != d.Key(); }
    }
  }

  lemma CasKeepsInv(w: World, id: string, p: Patch)
    requires Inv(w)
    ensures Inv(w.(drafts := CasMem(w.drafts, id, p).0))
  {
    forall i <- w.drafts ensures Owns(w.api, CasMem(w.drafts, id, p).0[i]) { assert Owns(w.api, w.drafts[i]); }
  }

  lemma ClosedKeepsInv(w: World, ctx: Context, now: int)
    requires Inv(w)
    ensures Inv(w.(drafts := Closed(w.drafts, ctx, now)))
  {
    forall i <- w.drafts ensures Owns(w.api, Closed(w.drafts, ctx, now)[i]) { assert Owns(w.api, w.drafts[i]); }
  }

  lemma {:induction false} SettleAllKeepsInv(w: World, turn: Turn, order: seq<string>, fates: string -> Fate)
    requires Inv(w) && InFlight(w.drafts, order)
    ensures var (t, api, _) := SettleAll(w.drafts, w.api, turn, order, fates); Inv(World(t, api))
    decreases |order|
  {
    if order != [] {
      var n := |order| - 1;
      assert order == order[..n] + [order[n]];
      SettleAllKeepsInv(w, turn, order[..n], fates);
      SettleFrame(w.drafts, w.api, turn, order[..n], fates);
      var (t, api, open) := SettleAll(w.drafts, w.api, turn, order[..n], fates);
      SettleOneKeepsInv(World(t, api), order[n], turn, fates(order[n]));
    }
  }

  lemma DiscardKeepsInv(w: World, ids: set<string>, turn: Turn)
    requires Inv(w) && forall id <- ids :: id in w.drafts && w.drafts[id].status == Active
    ensures Inv(w.(drafts := DiscardIn(w.drafts, ids, turn)))
  {
    forall i <- w.drafts ensures Owns(w.api, DiscardIn(w.drafts, ids, turn)[i]) { assert Owns(w.api, w.drafts[i]); }
  }

  lemma SameKeysKeepInv(w: World, api: Api)
    requires Inv(w) && api.Keys == w.api.Keys
    ensures Inv(World(w.drafts, api))
  {
    forall i <- w.drafts ensures Owns(api, w.drafts[i]) { assert Owns(w.api, w.drafts[i]); }
  }

  lemma CancelTurnKeepsInv(w: World, turn: Turn, who: Device, order: seq<string>, fates: string -> Fate, fate: CancelFate)
    requires Inv(w) && Enumerates(order, Listed(Closed(w.drafts, turn.ctx, turn.now), turn.ctx, turn.now, Proposing))
    ensures Inv(Apply(w, CancelTurn(turn, who, order, fates, fate)))
  {
    var w0 := w.(drafts := Closed(w.drafts, turn.ctx, turn.now));
    ClosedKeepsInv(w, turn.ctx, turn.now);
    assert InFlight(w0.drafts, order);
    SettleAllKeepsInv(w0, turn, order, fates);
    var (t1, api1, open) := SettleAll(w0.drafts, w0.api, turn, order, fates);
    var w1 := World(t1, api1);
    DiscardKeepsInv(w1, Listed(t1, turn.ctx, turn.now, Active), turn);
    var w2 := w1.(drafts := DiscardIn(t1, Listed(t1, turn.ctx, turn.now, Active), turn));
    if !open {
      DecideShape(api1, who, fate);
      SameKeysKeepInv(w2, Decide(api1, who, fate).0);
    }
  }

  lemma StepKeepsInv(w: World, e: Event)
    requires Inv(w)
    ensures Inv(Apply(w, e))
  {
    match e
    case NewDraft(d) =>
      forall i <- w.drafts ensures Owns(w.api, w.drafts[i]) {}
      if d.draftId !in w.drafts { assert d.Key() !in w.api; }
    case Amend(id, p) =>
      forall i <- w.drafts ensures Owns(w.api, w.drafts[i]) {}
    case ProposeTurn(id, p, turn, fate, sql) =>
      CasKeepsInv(w, id, p);
      CasAgreesExactly(w.drafts, id, p);
      var (t, result) := if sql then CasSql(w.drafts, id, p) else CasMem(w.drafts, id, p);
      if result.Won? { SettleOneKeepsInv(w.(drafts := t), id, turn, fate); }
    case RetryTurn(id, turn, fate) =>
      if id in w.drafts && w.drafts[id].status == Proposing { SettleOneKeepsInv(w, id, turn, fate); }
    case CancelTurn(turn, who, order, fates, cancel) =>
      if Enumerates(order, Listed(Closed(w.drafts, turn.ctx, turn.now), turn.ctx, turn.now, Proposing)) {
        CancelTurnKeepsInv(w, turn, who, order, fates, cancel);
      }
    case Expire(ctx, now) => ClosedKeepsInv(w, ctx, now);
    case OperationMoves(k, status) =>
      if k in w.api { SameKeysKeepInv(w, w.api[k := w.api[k].(status := status)]); }
    case ForeignOperation(name, op) =>
      forall i <- w.drafts ensures Owns(w.api, w.drafts[i]) {}
  }

  lemma {:induction false} RunKeepsInv(w: World, es: seq<Event>)
    requires Inv(w)
    ensures Inv(Run(w, es))
    decreases |es|
  {
    if es != [] {
      StepKeepsInv(w, es[0]);
      RunKeepsInv(Apply(w, es[0]), es[1..]);
    }
  }

  /** The operations the API holds for a draft. */
  function OperationsOf(api: Api, id: string): set<Key> {
    set k <- api | k.DraftKey? && k.draftId == id
  }

  // Over any sequence of propose, retry and cancel turns, with replies created,
  // existing, rejected or lost, a draft never owns two operations: a consumed draft
  // owns exactly the one it names, and a discarded draft owns none.
  lemma AtMostOneOperationPerDraft(es: seq<Event>, id: string)
    requires id in Run(World(map[], map[]), es).drafts
    ensures var w := Run(World(map[], map[]), es);
            var d := w.drafts[id];
            && OperationsOf(w.api, id) <= {d.Key()}
            && (d.status == Consumed ==> OperationsOf(w.api, id) == {d.Key()} && d.proposalId == Some(d.Key()))
            && (d.status == Discarded || d.status == Active || d.status == Expired ==> OperationsOf(w.api, id) == {})
  {
    RunKeepsInv(World(map[], map[]), es);
    var w := Run(World(map[], map[]), es);
    assert Owns(w.api, w.drafts[id]);
  }
}
