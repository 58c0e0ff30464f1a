/**
 * Mutation drafts: an incomplete financial intention kept across turns, and the two
 * stores that hold it. The in-memory store checks and sets at once; the SQL store
 * guards its update with the status and then reads the row back.
 */
module Drafts {
  import opened Common

  datatype Status = Active | Proposing | Consumed | Discarded | Expired | Replaced

  datatype ProposeOutcome = Created | Existing | Rejected | Unknown

  datatype Context = Context(workspaceId: string, actorId: string, deviceId: Option<string>, conversationId: Option<string>)

  /** The idempotency key of a proposal: derived from the draft, or from some other client of the API. */
  datatype Key = DraftKey(workspaceId: string, draftId: string, tool: string) | OtherKey(name: string)

  datatype Draft = Draft(
    draftId: string,
    ctx: Context,
    tool: string,
    args: string,
    missingFields: seq<string>,
    proposalId: Option<Key>,        // an operation is named by the key it was stored under
    outcome: Option<ProposeOutcome>,
    status: Status,
    discardReason: Option<string>,
    createdAt: int,
    updatedAt: int,
    expiresAt: Option<int>,        // None: not a date, which never expires
    lastIntentionId: string,
    lastQuestion: string)
  {
    /** Derived once from fields that no store operation changes. */
    function Key(): Key { DraftKey(ctx.workspaceId, draftId, tool) }

    predicate IsExpired(now: int) { expiresAt.Some? && expiresAt.value <= now }
  }

  /** The columns a patch may set. */
  datatype Patch = Patch(
    args: Option<string>,
    missingFields: Option<seq<string>>,
    proposalId: Option<Key>,        // an operation is named by the key it was stored under
    outcome: Option<ProposeOutcome>,
    status: Option<Status>,
    discardReason: Option<string>,
    updatedAt: Option<int>,
    lastIntentionId: Option<string>,
    lastQuestion: Option<string>)

  const NO_PATCH := Patch(None, None, None, None, None, None, None, None, None)

  function Or<T>(a: Option<T>, b: T): T { if a.Some? then a.value else b }

  function Patched(d: Draft, p: Patch): Draft {
    d.(args := Or(p.args, d.args),
       missingFields := Or(p.missingFields, d.missingFields),
       proposalId := OrElse(p.proposalId, d.proposalId),
       outcome := OrElse(p.outcome, d.outcome),
       status := Or(p.status, d.status),
       discardReason := OrElse(p.discardReason, d.discardReason),
       updatedAt := Or(p.updatedAt, d.updatedAt),
       lastIntentionId := Or(p.lastIntentionId, d.lastIntentionId),
       lastQuestion := Or(p.lastQuestion, d.lastQuestion))
  }

  // A patch sets the columns it gives and no other: what it gives is there afterwards, what
  // it does not give is as it was, and identity, tool and dates are beyond its reach.
  lemma PatchSetsWhatItGives(d: Draft, p: Patch)
    ensures var d' := Patched(d, p);
            && (d'.draftId, d'.ctx, d'.tool, d'.createdAt, d'.expiresAt) == (d.draftId, d.ctx, d.tool, d.createdAt, d.expiresAt)
            && (if p.args.Some? then p.args == Some(d'.args) else d'.args == d.args)
            && (if p.missingFields.Some? then p.missingFields == Some(d'.missingFields) else d'.missingFields == d.missingFields)
            && (d'.proposalId == if p.proposalId.Some? then p.proposalId else d.proposalId)
            && (d'.outcome == if p.outcome.Some? then p.outcome else d.outcome)
            && (if p.status.Some? then p.status == Some(d'.status) else d'.status == d.status)
            && (d'.discardReason == if p.discardReason.Some? then p.discardReason else d.discardReason)
            && (if p.updatedAt.Some? then p.updatedAt == Some(d'.updatedAt) else d'.updatedAt == d.updatedAt)
            && (if p.lastIntentionId.Some? then p.lastIntentionId == Some(d'.lastIntentionId) else d'.lastIntentionId == d.lastIntentionId)
            && (if p.lastQuestion.Some? then p.lastQuestion == Some(d'.lastQuestion) else d'.lastQuestion == d.lastQuestion)
  {}

  type Table = map<string, Draft>

  predicate Keyed(t: Table) { forall id <- t :: t[id].draftId == id }

  function Lookup(t: Table, id: string): Option<Draft> { if id in t then Some(t[id]) else None }

  function Stored(t: Table, d: Draft): Table { if d.draftId in t then t else t[d.draftId := d] }

  function Updated(t: Table, id: string, p: Patch): Table { if id in t then t[id := Patched(t[id], p)] else t }

  /** Drafts of one context in one status that have not run out. */
  function Listed(t: Table, ctx: Context, now: int, status: Status): set<string> {
    set id <- t | t[id].status == status && t[id].ctx == ctx && !t[id].IsExpired(now)
  }

  function Stale(t: Table, ctx: Context, now: int): set<string> {
    set id <- t | IsStale(t[id], ctx, now)
  }

  function Close(d: Draft): Draft { d.(status := Expired) }

  predicate IsStale(d: Draft, ctx: Context, now: int) { d.status == Active && d.ctx == ctx && d.IsExpired(now) }

  function Closed(t: Table, ctx: Context, now: int): Table { ClosedIn(t, Stale(t, ctx, now)) }

  function ClosedIn(t: Table, ids: set<string>): Table {
    map id <- t :: if id in ids then Close(t[id]) else t[id]
  }

  datatype CasResult = Won(record: Draft) | Refused(current: Option<Draft>)

  /** The in-memory compare-and-set from active to proposing. */
  function CasMem(t: Table, id: string, p: Patch): (Table, CasResult) {
    if id in t && t[id].status == Active then
      var next := Patched(t[id], p).(status := Proposing);
      (t[id := next], Won(next))
    else (t, Refused(Lookup(t, id)))
  }

  /** The SQL one: a guarded update, then a read-back compared on status and last intention. */
  function CasSql(t: Table, id: string, p: Patch): (Table, CasResult) {
    if id !in t then (t, Refused(None))
    else
      var next := Patched(t[id], p).(status := Proposing);
      var t' := if t[id].status == Active then t[id := next] else t;
      (t', if t'[id].status == Proposing && t'[id].lastIntentionId == next.lastIntentionId then Won(t'[id])
           else Refused(Some(t'[id])))
  }

  // The two stores always end in the same table. They answer alike except when a loser
  // finds the row already proposing under the very intention its own patch carries (or
  // leaves unchanged): then, and only then, SQL tells the loser that it won.
  lemma CasAgreesExactly(t: Table, id: string, p: Patch)
    ensures CasSql(t, id, p).0 == CasMem(t, id, p).0
    ensures CasSql(t, id, p).1 == CasMem(t, id, p).1 <==>
            !(id in t && t[id].status == Proposing && Or(p.lastIntentionId, t[id].lastIntentionId) == t[id].lastIntentionId)
    ensures CasMem(t, id, p).1.Won? ==> CasSql(t, id, p).1 == CasMem(t, id, p).1
  {}

  // ----- runs of store operations

  datatype Op =
    | GetOrCreate(draft: Draft)
    | Update(id: string, patch: Patch)
    | Cas(id: string, patch: Patch)
    | ExpireStale(ctx: Context, now: int)

  function Step(t: Table, op: Op): Table {
    match op
    case GetOrCreate(d) => Stored(t, d)
    case Update(id, p) => Updated(t, id, p)
    case Cas(id, p) => CasMem(t, id, p).0
    case ExpireStale(ctx, now) => Closed(t, ctx, now)
  }

  predicate Wins(t: Table, op: Op, id: string, sql: bool) {
    op.Cas? && op.id == id && (if sql then CasSql(t, id, op.patch).1 else CasMem(t, id, op.patch).1).Won?
  }

  /** How often a compare-and-set of one draft succeeds along a run of one of the two stores. */
  function Winners(t: Table, ops: seq<Op>, id: string, sql: bool): nat
    decreases |ops|
  {
    if ops == [] then 0
    else (if Wins(t, ops[0], id, sql) then 1 else 0) + Winners(Step(t, ops[0]), ops[1..], id, sql)
  }

  predicate NeverReactivates(ops: seq<Op>) {
    forall i :: 0 <= i < |ops| ==> !(ops[i].Update? && ops[i].patch.status == Some(Active))
  }

  // Whatever else happens to the store, one draft is won at most once, as long as no
  // update writes the status back to active.
  lemma {:induction false} AtMostOneWinner(t: Table, ops: seq<Op>, id: string)
    requires NeverReactivates(ops)
    ensures Winners(t, ops, id, false) <= (if id in t && t[id].status != Active then 0 else 1)
    decreases |ops|
  {
    if ops != [] {
      assert !(ops[0].Update? && ops[0].patch.status == Some(Active));
      forall i | 0 <= i < |ops[1..]| ensures !(ops[1..][i].Update? && ops[1..][i].patch.status == Some(Active)) {
        assert ops[1..][i] == ops[i + 1];
      }
      AtMostOneWinner(Step(t, ops[0]), ops[1..], id);
    }
  }

  /** A compare-and-set that loses, because the row is proposing already, under the very intention that contends. */
  predicate Echoes(t: Table, op: Op, id: string) {
    && op.Cas? && op.id == id && id in t && t[id].status == Proposing
    && Or(op.patch.lastIntentionId, t[id].lastIntentionId) == t[id].lastIntentionId
  }

  function Echoed(t: Table, ops: seq<Op>, id: string): nat
    decreases |ops|
  {
    if ops == [] then 0 else (if Echoes(t, ops[0], id) then 1 else 0) + Echoed(Step(t, ops[0]), ops[1..], id)
  }

  // Along every run the SQL store tells a contender that it won exactly as often as the
  // in-memory store, and once more for each loser that finds its own intention stored.
  lemma {:induction false} SqlWinnersExactly(t: Table, ops: seq<Op>, id: string)
    ensures Winners(t, ops, id, true) == Winners(t, ops, id, false) + Echoed(t, ops, id)
    decreases |ops|
  {
    if ops != [] {
      if ops[0].Cas? && ops[0].id == id { CasAgreesExactly(t, id, ops[0].patch); }
      SqlWinnersExactly(Step(t, ops[0]), ops[1..], id);
    }
  }

  /** The two stores answer every compare-and-set of a draft alike along a run. */
  predicate SameWinners(t: Table, ops: seq<Op>, id: string)
    decreases |ops|
  {
    ops != [] ==> Wins(t, ops[0], id, true) == Wins(t, ops[0], id, false) && SameWinners(Step(t, ops[0]), ops[1..], id)
  }

  // The SQL store elects the winners of the in-memory store exactly when no losing
  // contender meets a proposing row under its own intention.
  lemma {:induction false} SqlElectsTheSame(t: Table, ops: seq<Op>, id: string)
    ensures SameWinners(t, ops, id) <==> Echoed(t, ops, id) == 0
    decreases |ops|
  {
    if ops != [] {
      if ops[0].Cas? && ops[0].id == id { CasAgreesExactly(t, id, ops[0].patch); }
      SqlElectsTheSame(Step(t, ops[0]), ops[1..], id);
    }
  }

  // ----- the runs that continuations make

  /** What a continuation turn writes of a draft: its completed arguments, then its claim, both under its intention. */
  datatype Continuation = Continuation(args: string, now: int, intentionId: string)

  /** The caller stamps its intention on the row and contends at once with the same intention. */
  function Contend(id: string, c: Continuation): seq<Op> {
    var stamp := NO_PATCH.(updatedAt := Some(c.now), lastIntentionId := Some(c.intentionId));
    [Update(id, stamp.(args := Some(c.args), missingFields := Some([]))), Cas(id, stamp)]
  }

  function Contention(id: string, turns: seq<Continuation>): seq<Op> {
    if turns == [] then [] else Contend(id, turns[0]) + Contention(id, turns[1..])
  }

  /** How one continuation leaves the draft, and what each store tells it. */
  lemma OneContends(t: Table, id: string, c: Continuation, rest: seq<Op>, sql: bool)
    ensures var t' := Step(Step(t, Contend(id, c)[0]), Contend(id, c)[1]);
            && (id in t' <==> id in t)
            && (id in t ==> t'[id].status == if t[id].status == Active then Proposing else t[id].status)
            && Winners(t, Contend(id, c) + rest, id, sql) == Winners(t', rest, id, sql)
                + (if id in t && (t[id].status == Active || (sql && t[id].status == Proposing)) then 1 else 0)
  {
    var ops := Contend(id, c) + rest;
    var t1 := Step(t, ops[0]);
    assert ops[1..] == [ops[1]] + rest && ops[1..][1..] == rest && ops[1..][0] == ops[1];
    assert Winners(t, ops, id, sql) == Winners(t1, ops[1..], id, sql);
    assert Winners(t1, ops[1..], id, sql) == (if Wins(t1, ops[1], id, sql) then 1 else 0) + Winners(Step(t1, ops[1]), rest, id, sql);
  }

  // Of any number of continuations that found one draft active, whatever their
  // intentions, the in-memory store lets one win; the SQL store lets every one of them.
  lemma {:induction false} EveryContinuationWins(t: Table, id: string, turns: seq<Continuation>)
    ensures Winners(t, Contention(id, turns), id, false) ==
              if id in t && t[id].status == Active && turns != [] then 1 else 0
    ensures Winners(t, Contention(id, turns), id, true) ==
              if id in t && (t[id].status == Active || t[id].status == Proposing) then |turns| else 0
  {
    if turns != [] {
      var rest := Contention(id, turns[1..]);
      OneContends(t, id, turns[0], rest, false);
      OneContends(t, id, turns[0], rest, true);
      EveryContinuationWins(Step(Step(t, Contend(id, turns[0])[0]), Contend(id, turns[0])[1]), id, turns[1..]);
    }
  }

  /** The draft as one continuation leaves it. */
  function ContinuedBy(d: Draft, c: Continuation): Draft {
    d.(args := c.args, missingFields := [], updatedAt := c.now, lastIntentionId := c.intentionId,
       status := if d.status == Active then Proposing else d.status)
  }

  function ContinuedByAll(d: Draft, turns: seq<Continuation>): Draft
    decreases |turns|
  {
    if turns == [] then d else ContinuedByAll(ContinuedBy(d, turns[0]), turns[1..])
  }

  function After(t: Table, ops: seq<Op>): Table
    decreases |ops|
  {
    if ops == [] then t else After(Step(t, ops[0]), ops[1..])
  }

  // Winner or not, each continuation writes its arguments over the draft before it
  // contends: the draft in flight carries those of the last one. Other drafts stay.
  lemma {:induction false} ContentionWrites(t: Table, id: string, turns: seq<Continuation>)
    requires id in t
    ensures After(t, Contention(id, turns)) == t[id := ContinuedByAll(t[id], turns)]
  {
    if turns != [] {
      var c := turns[0];
      var ops := Contention(id, turns);
      var t1 := Step(t, Contend(id, c)[0]);
      var t2 := Step(t1, Contend(id, c)[1]);
      assert ops[1..][1..] == Contention(id, turns[1..]) && ops[0] == Contend(id, c)[0] && ops[1..][0] == Contend(id, c)[1];
      assert After(t, ops) == After(t1, ops[1..]) == After(t2, ops[1..][1..]);
      assert t2 == t[id := ContinuedBy(t[id], c)];
      ContentionWrites(t2, id, turns[1..]);
    }
  }

  // ----- the stores

  class InMemoryDraftStore {
    var drafts: Table

    constructor ()
      ensures drafts == map[]
    {
      drafts := map[];
    }

    method GetOrCreate(record: Draft) returns (stored: Draft, created: bool)
      modifies this
      ensures drafts == Stored(old(drafts), record)
      ensures record.draftId in old(drafts) ==> drafts == old(drafts)
      ensures record.draftId !in old(drafts) ==> drafts == old(drafts)[record.draftId := record]
      ensures created == (record.draftId !in old(drafts)) && stored == drafts[record.draftId]
    {
      if record.draftId in drafts { return drafts[record.draftId], false; }
      drafts := drafts[record.draftId := record];
      return record, true;
    }

    method Get(id: string) returns (found: Option<Draft>)
      ensures found == Lookup(drafts, id)
    {
      found := if id in drafts then Some(drafts[id]) else None;
    }

    method List(ctx: Context, now: int, status: Status) returns (found: seq<string>)
      ensures forall id :: id in found <==> id in Listed(drafts, ctx, now, status)
      ensures forall id :: id in found <==>
                && id in drafts && drafts[id].status == status && drafts[id].ctx == ctx
                && !(drafts[id].expiresAt.Some? && drafts[id].expiresAt.value <= now)
      ensures forall i, j :: 0 <= i < j < |found| ==> found[i] != found[j]
    {
      found := [];
      var todo := drafts.Keys;
      while todo != {}
        invariant todo <= drafts.Keys
        invariant forall id :: id in found <==> id in Listed(drafts, ctx, now, status) && id !in todo
        invariant forall i, j :: 0 <= i < j < |found| ==> found[i] != found[j]
        decreases todo
      {
        var id :| id in todo;
        var d := drafts[id];
        if d.status == status && d.ctx == ctx && !d.IsExpired(now) { found := found + [id]; }
        todo := todo - {id};
      }
    }

    method Cas(id: string, p: Patch) returns (result: CasResult)
      modifies this
      ensures (drafts, result) == CasMem(old(drafts), id, p)
      ensures result.Won? <==> id in old(drafts) && old(drafts)[id].status == Active
      ensures result.Won? ==> drafts == old(drafts)[id := result.record]
                              && result.record == Patched(old(drafts)[id], p.(status := Some(Proposing)))
      ensures result.Refused? ==> drafts == old(drafts) && result.current == if id in drafts then Some(drafts[id]) else None
    {
      if id !in drafts || drafts[id].status != Active {
        return Refused(if id in drafts then Some(drafts[id]) else None);
      }
      var next := Patched(drafts[id], p).(status := Proposing);
      drafts := drafts[id := next];
      return Won(next);
    }

    method Update(id: string, p: Patch) returns (next: Option<Draft>)
      modifies this
      ensures drafts == Updated(old(drafts), id, p)
      ensures next == Lookup(drafts, id)
    {
      if id !in drafts { return None; }
      drafts := drafts[id := Patched(drafts[id], p)];
      return Some(drafts[id]);
    }

    method ExpireStale(ctx: Context, now: int) returns (closed: nat)
      modifies this
      ensures drafts == Closed(old(drafts), ctx, now)
      ensures drafts.Keys == old(drafts).Keys
      ensures forall id <- drafts :: var d := old(drafts)[id];
                drafts[id] == if d.status == Active && d.ctx == ctx && d.expiresAt.Some? && d.expiresAt.value <= now
                              then d.(status := Expired) else d
      ensures closed == |Stale(old(drafts), ctx, now)|
    {
      ghost var before := drafts;
      ghost var done: set<string> := {};
      closed := 0;
      var todo := drafts.Keys;
      while todo != {}
        invariant todo <= drafts.Keys
        invariant done !! todo && closed == |done|
        invariant forall id :: id in done <==> id in before && id !in todo && IsStale(before[id], ctx, now)
        invariant drafts == ClosedIn(before, done)
        decreases todo
      {
        var id :| id in todo;
        var d := drafts[id];
        assert d == before[id];
        if IsStale(d, ctx, now) {
          drafts := drafts[id := Close(d)];
          closed := closed + 1;
          done := done + {id};
        }
        todo := todo - {id};
      }
      assert done == Stale(before, ctx, now);
    }
  }

  class SqlDraftStore {
    var rows: Table

    constructor ()
      ensures rows == map[]
    {
      rows := map[];
    }

    method Get(id: string) returns (found: Option<Draft>)
      ensures found == Lookup(rows, id)
    {
      found := if id in rows then Some(rows[id]) else None;
    }

    method GetOrCreate(record: Draft) returns (stored: Draft, created: bool)
      modifies this
      ensures rows == Stored(old(rows), record)
      ensures record.draftId in old(rows) ==> rows == old(rows)
      ensures record.draftId !in old(rows) ==> rows == old(rows)[record.draftId := record]
      ensures created == (record.draftId !in old(rows)) && stored == rows[record.draftId]
    {
      var existing := Get(record.draftId);
      if existing.Some? { return existing.value, false; }
      rows := rows[record.draftId := record];
      return record, true;
    }

    method Cas(id: string, p: Patch) returns (result: CasResult)
      modifies this
      ensures (rows, result) == CasSql(old(rows), id, p)
      ensures id in old(rows) && old(rows)[id].status == Active ==>
                result == Won(Patched(old(rows)[id], p.(status := Some(Proposing)))) && rows == old(rows)[id := result.record]
      ensures !(id in old(rows) && old(rows)[id].status == Active) ==> rows == old(rows)
    {
      var current := Get(id);
      if current.None? { return Refused(None); }
      var next := Patched(current.value, p).(status := Proposing);
      if rows[id].status == Active { rows := rows[id := next]; }
      var verified := Get(id);
      if verified.value.status == Proposing && verified.value.lastIntentionId == next.lastIntentionId {
        return Won(verified.value);
      }
      return Refused(verified);
    }

    method Update(id: string, p: Patch) returns (next: Option<Draft>)
      modifies this
      ensures rows == Updated(old(rows), id, p)
      ensures next == Lookup(rows, id)
    {
      var current := Get(id);
      if current.None? { return None; }
      next := Some(Patched(current.value, p));
      rows := rows[id := next.value];
    }

    /** The query narrows by workspace, actor and status; the rest of the context and the expiry are filtered after it. */
    method List(ctx: Context, now: int, status: Status) returns (found: set<string>)
      ensures found == Listed(rows, ctx, now, status)
    {
      var selected := set id <- rows |
        rows[id].ctx.workspaceId == ctx.workspaceId && rows[id].ctx.actorId == ctx.actorId && rows[id].status == status;
      found := set id <- selected | rows[id].ctx == ctx && !rows[id].IsExpired(now);
    }

    /** Selects the stale rows first, then writes them one by one. */
    method ExpireStale(ctx: Context, now: int) returns (closed: nat)
      modifies this
      ensures rows == Closed(old(rows), ctx, now)
      ensures closed == |Stale(old(rows), ctx, now)|
    {
      var stale := Stale(rows, ctx, now);
      closed := |stale|;
      ghost var before := rows;
      var todo := stale;
      while todo != {}
        invariant todo <= stale && rows == ClosedIn(before, stale - todo)
        decreases todo
      {
        var id :| id in todo;
        rows := rows[id := Close(rows[id])];
        todo := todo - {id};
      }
    }
  }
}
