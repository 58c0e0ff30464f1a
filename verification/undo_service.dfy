/**
 * The service calls themselves, cut where they await the preview or the undo
 * endpoint. Between two awaits nothing interleaves, so each piece must land
 * exactly where its thread lands when it runs alone. A claim or a cancel of a row
 * just read as proposed then always lands; what follows a lost one belongs to the
 * interleavings, and is a step of UndoProtocol.
 */
module UndoService {
  import opened Common
  import opened UndoStore
  import opened UndoProtocol
  import opened UndoExpiry

  ghost function Rank(pc: Pc): nat {
    match pc
    case DecideRead(_, _, _) => 4
    case ClaimUpdate(_, _, _) | CancelUpdate(_, _) | ConfirmUpdate(_, _, _) | ProposeRead(_, _) => 3
    case ClaimCheck(_, _, _) | CancelCheck(_) | ConfirmCheck(_, _) | InsertRow(_, _) => 3
    case ClaimReread(_, _) | CancelReread(_) | ConfirmReread(_, _) | ProposeReread(_, _) => 2
    case ExpireThenFail(_, _) | ReplayRead(_) => 1
    case _ => 0
  }

  ghost function Order(pc: Pc): nat {
    if pc.ClaimUpdate? || pc.CancelUpdate? || pc.ConfirmUpdate? || pc.ProposeRead? then 1 else 0
  }

  /** What a thread does when no other thread takes a step until it leaves the database. */
  ghost function RunAlone(table: Table, pc: Pc, now: int): (Table, Pc)
    decreases Rank(pc), Order(pc)
  {
    if AtSql(pc) then
      var (table', pc') := SqlStep(table, pc, now);
      RunAlone(table', pc', now)
    else (table, pc)
  }

  lemma Unfold(table: Table, pc: Pc, now: int)
    requires AtSql(pc)
    ensures var next := SqlStep(table, pc, now);
            RunAlone(table, pc, now) == (if AtSql(next.1) then RunAlone(next.0, next.1, now) else next)
  {}

  class UndoProposalService {
    const store: SqlUndoProposalStore
    const ttlMs: int

    constructor (store: SqlUndoProposalStore, ttlMs: int)
      ensures this.store == store && this.ttlMs == ttlMs
    {
      this.store := store;
      this.ttlMs := ttlMs;
    }

    /** decide, up to its reply or to the call of the undo endpoint. */
    method DecideUntilUndo(id: string, decision: Decision, who: Identity, now: int) returns (out: Pc)
      requires forall i <- store.rows :: store.rows[i].requestId == i
      modifies store
      ensures (store.rows, out) == RunAlone(old(store.rows), DecideRead(id, decision, who), now)
      ensures Decided(old(store.rows), id, decision, who, now, store.rows, out)
      ensures out.Done? || out.CallUndo?
    {
      ghost var start := RunAlone(store.rows, DecideRead(id, decision, who), now);
      var found := store.Get(id);
      if found.None? { return Done(Failed(NotFound)); }
      var stored := found.value;
      assert start == RunAlone(store.rows, AfterRead(stored, decision, who, now), now);
      if stored.owner != who { return Done(Failed(BindingMismatch)); }
      if stored.status == Expired || (stored.status == Proposed && stored.expiresAt <= now) {
        if stored.status == Proposed {
          Unfold(store.rows, ExpireThenFail(id, now), now);
          store.MarkExpired(id, now);
        }
        return Done(Failed(PastExpiry));
      }
      if stored.status == Confirmed {
        if decision != Confirm { return Done(Failed(Terminal)); }
        assert start == RunAlone(store.rows, ReplayRead(stored), now);
        Unfold(store.rows, ReplayRead(stored), now);
        var current := store.Get(id);
        return Done(ConfirmedReply(if current.Some? then current.value else stored,
                                   ParseStored(stored.result, Value(OK_JSON))));
      }
      if stored.status == Cancelled {
        return if decision == Cancel then Done(CancelledReply(stored)) else Done(Failed(Terminal));
      }
      if decision == Cancel {
        if stored.status == Executing { return Done(Failed(InProgress)); }
        var next := store.CasProposedTo(id, Cancelled, now, None);
        assert start == RunAlone(store.rows, CancelCheck(id), now);
        Unfold(store.rows, CancelCheck(id), now);
        return Done(CancelledReply(next.value));
      }
      var holder := stored;
      if stored.status == Proposed {
        var claimed := store.ClaimExecuting(id);
        assert start == RunAlone(store.rows, ClaimCheck(id, who, now), now);
        Unfold(store.rows, ClaimCheck(id, who, now), now);
        holder := claimed.value;
      }
      if holder.owner != who { return Done(Failed(BindingMismatch)); }
      return CallUndo(holder, who, now);
    }

    /**
     * decide, from the answer of the undo endpoint to its reply. The endpoint was
     * called under a claim, so the row is executing or already confirmed.
     */
    method DecideAfterUndo(id: string, now: int, answer: Answer) returns (out: Pc)
      requires id in store.rows && Claimed(store.rows[id].status)
      modifies store
      ensures (store.rows, out) == RunAlone(old(store.rows), ConfirmUpdate(id, now, answer), now)
      ensures old(store.rows)[id].status == Executing ==> store.rows == old(store.rows)[id := Answered(old(store.rows)[id], now, answer)]
      ensures old(store.rows)[id].status == Confirmed ==> store.rows == old(store.rows)
      ensures out == Done(ConfirmedReply(store.rows[id], answer))
      ensures out.Done?
    {
      ghost var start := RunAlone(store.rows, ConfirmUpdate(id, now, answer), now);
      var next := store.ConfirmExecuting(id, now, Stringify(answer));
      assert start == RunAlone(store.rows, ConfirmCheck(id, answer), now);
      Unfold(store.rows, ConfirmCheck(id, answer), now);
      return Done(ConfirmedReply(next.value, answer));
    }

    /** propose, up to its reply or to the preview. */
    method ProposeUntilPreview(id: string, who: Identity) returns (out: Pc)
      ensures (store.rows, out) == RunAlone(store.rows, ProposeRead(id, who), 0)
      ensures out == if id == "" || who.workspaceId == "" || who.actorId == "" || who.deviceId == "" then Done(Failed(ContextRequired))
                     else if id !in store.rows then Preview(id, who)
                     else if store.rows[id].owner == who then Done(ProposedReply(store.rows[id], false))
                     else Done(Failed(BindingMismatch))
      ensures out.Done? || out.Preview?
    {
      if id == "" || !HasContext(who) { return Done(Failed(ContextRequired)); }
      var existing := store.Get(id);
      if existing.Some? {
        if existing.value.owner != who { return Done(Failed(BindingMismatch)); }
        return Done(ProposedReply(existing.value, false));
      }
      return Preview(id, who);
    }

    /** propose, from the target the preview fixed to its reply. */
    method ProposeAfterPreview(id: string, who: Identity, target: string, now: int) returns (out: Pc)
      modifies store
      ensures (store.rows, out)
              == RunAlone(old(store.rows), InsertRow(NewProposal(id, who, target, now, ttlMs), who), now)
      ensures id in old(store.rows) ==> store.rows == old(store.rows)
      ensures id !in old(store.rows) ==>
                store.rows == old(store.rows)[id := Proposal(id, who, target, "undo:" + who.workspaceId + ":" + id, Proposed,
                                                             now, now + ttlMs, None, None)]
      ensures out == if store.rows[id].owner == who then Done(ProposedReply(store.rows[id], store.rows[id].createdAt == now))
                     else Done(Failed(BindingMismatch))
      ensures out.Done?
    {
      var row := Proposal(id, who, target, DeriveKey(who.workspaceId, id), Proposed, now, now + ttlMs, None, None);
      assert row == NewProposal(id, who, target, now, ttlMs);
      store.Insert(row);
      Unfold(old(store.rows), InsertRow(row, who), now);
      Unfold(store.rows, ProposeReread(row, who), now);
      var read := store.Get(id);
      var stored := if read.Some? then read.value else row;
      assert stored == (if id in store.rows then store.rows[id] else row);
      if stored.owner != who { return Done(Failed(BindingMismatch)); }
      return Done(ProposedReply(stored, stored.createdAt == row.createdAt));
    }

    /** The live rows of one identity; the rows of that identity past their expiry are closed on the way. */
    method ListActive(who: Identity, now: int) returns (failed: bool, items: seq<Summary>)
      requires forall i <- store.rows :: store.rows[i].requestId == i
      modifies store
      ensures failed == !HasContext(who)
      ensures failed ==> items == [] && store.rows == old(store.rows)
      ensures !failed ==> forall item :: item in items <==> item in Summaries(old(store.rows), who, now)
      ensures !failed ==> forall item :: item in items <==>
                exists id <- old(store.rows) :: var row := old(store.rows)[id];
                  && row.owner == who && (row.status == Proposed || row.status == Executing) && now < row.expiresAt
                  && item == Summary(id, row.status, row.expiresAt)
      ensures !failed ==> store.rows.Keys == old(store.rows).Keys
      ensures !failed ==> forall id <- store.rows :: var row := old(store.rows)[id];
                store.rows[id] == if row.owner == who && row.status == Proposed && row.expiresAt <= now
                                  then row.(status := Expired, decidedAt := Some(now)) else row
    {
      items := [];
      if !HasContext(who) { return true, []; }
      failed := false;
      ghost var before := store.rows;
      var bound := store.ListBound(who);
      for i := 0 to |bound|
        invariant store.rows.Keys == before.Keys
        invariant forall id <- before ::
                    store.rows[id] == if before[id] in bound[..i] then Closed(before, who, now, id) else before[id]
        invariant forall item :: item in items <==>
                    exists row :: row in bound[..i] && Live(row, who, now) && item == Summary(row.requestId, row.status, row.expiresAt)
      {
        var row := bound[i];
        assert bound[..i + 1] == bound[..i] + [row];
        assert row !in bound[..i] && store.rows[row.requestId] == row;
        if row.status == Proposed || row.status == Executing {
          if row.expiresAt <= now {
            if row.status == Proposed { store.MarkExpired(row.requestId, now); }
          } else {
            items := items + [Summary(row.requestId, row.status, row.expiresAt)];
          }
        }
      }
      assert bound[..|bound|] == bound;
    }
  }

  /** A row after its identity's listing: closed if it was proposed and past its expiry, else as it was. */
  function Closed(rows: Table, who: Identity, now: int, id: string): Proposal
    requires id in rows
  {
    if id in Stale(rows, who, now) then rows[id].(status := Expired, decidedAt := Some(now)) else rows[id]
  }
}
