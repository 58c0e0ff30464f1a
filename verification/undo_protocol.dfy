/**
 * The undo confirmation protocol as a transition system: any number of propose,
 * decide and list calls interleave, one SQL statement at a time, around an
 * external undo endpoint that may answer late, twice, or never.
 */
module UndoProtocol {
  import opened Common
  import opened UndoStore

  datatype Decision = Confirm | Cancel

  datatype Code = ContextRequired | NotFound | BindingMismatch | PastExpiry | Terminal | InProgress | Lost

  datatype Summary = Summary(requestId: string, status: Status, expiresAt: int)

  datatype Reply =
    | Failed(code: Code)
    | ConfirmedReply(row: Proposal, answer: Answer)
    | CancelledReply(row: Proposal)
    | ProposedReply(row: Proposal, created: bool)
    | Unavailable
    | Listed(items: set<Summary>)

  /** Where a call stands between two atomic steps, with the locals it still needs. */
  datatype Pc =
    | DecideRead(id: string, decision: Decision, who: Identity)
    | ExpireThenFail(id: string, now: int)
    | ReplayRead(stored: Proposal)
    | CancelUpdate(id: string, now: int)
    | CancelCheck(id: string)
    | CancelReread(id: string)
    | ClaimUpdate(id: string, who: Identity, now: int)
    | ClaimCheck(id: string, who: Identity, now: int)
    | ClaimReread(id: string, now: int)
    | CallUndo(holder: Proposal, who: Identity, now: int)
    | Waiting(holder: Proposal, who: Identity, now: int)
    | ConfirmUpdate(id: string, now: int, answer: Answer)
    | ConfirmCheck(id: string, answer: Answer)
    | ConfirmReread(id: string, answer: Answer)
    | ProposeRead(id: string, who: Identity)
    | Preview(id: string, who: Identity)
    | InsertRow(row: Proposal, who: Identity)
    | ProposeReread(row: Proposal, who: Identity)
    | ListRead(who: Identity)
    | Marking(pending: set<string>, now: int, items: set<Summary>)
    | Done(reply: Reply)

  function DeriveKey(workspaceId: string, requestId: string): string {
    "undo:" + workspaceId + ":" + requestId
  }

  function NewProposal(id: string, who: Identity, target: string, now: int, ttl: int): Proposal {
    Proposal(id, who, target, DeriveKey(who.workspaceId, id), Proposed, now, now + ttl, None, None)
  }

  predicate HasContext(who: Identity) {
    who.workspaceId != "" && who.actorId != "" && who.deviceId != ""
  }

  // ----- one SQL statement (and the plain code up to the next one) of a decide or propose call

  /** What decide does with the row it first reads; now is the clock it reads right after. */
  function AfterRead(stored: Proposal, decision: Decision, who: Identity, now: int): Pc {
    if stored.owner != who then Done(Failed(BindingMismatch))
    else match stored.status
      case Expired => Done(Failed(PastExpiry))
      case Confirmed => if decision == Confirm then ReplayRead(stored) else Done(Failed(Terminal))
      case Cancelled => if decision == Cancel then Done(CancelledReply(stored)) else Done(Failed(Terminal))
      case Proposed =>
        if stored.expiresAt <= now then ExpireThenFail(stored.requestId, now)
        else if decision == Cancel then CancelUpdate(stored.requestId, now)
        else ClaimUpdate(stored.requestId, who, now)
      case Executing => if decision == Cancel then Done(Failed(InProgress)) else CallUndo(stored, who, now)
  }

  /** What confirm does when its claim did not find the row executing. */
  function AfterLostClaim(current: Option<Proposal>, id: string, now: int): Pc {
    if current.None? then Done(Failed(Terminal))
    else match current.value.status
      case Confirmed => Done(ConfirmedReply(current.value, ParseStored(current.value.result, Value(OK_JSON))))
      case Expired => Done(Failed(PastExpiry))
      case Proposed => if current.value.expiresAt <= now then ExpireThenFail(id, now) else Done(Failed(Terminal))
      case Cancelled => Done(Failed(Terminal))
      case Executing => Done(Failed(Terminal)) // the code picks a holder here and then fails anyway
  }

  /** What confirm does when its terminal update did not find the row confirmed. */
  function AfterLostConfirm(current: Option<Proposal>, answer: Answer): Pc {
    if current.Some? && current.value.status == Confirmed
    then Done(ConfirmedReply(current.value, ParseStored(current.value.result, answer)))
    else Done(Failed(Terminal))
  }

  predicate AtSql(pc: Pc) {
    !(pc.Preview? || pc.CallUndo? || pc.Waiting? || pc.ListRead? || pc.Marking? || pc.Done?)
  }

  function SqlStep(table: Table, pc: Pc, now: int): (Table, Pc) {
    match pc
    case DecideRead(id, decision, who) =>
      (table, if id in table then AfterRead(table[id], decision, who, now) else Done(Failed(NotFound)))
    case ExpireThenFail(id, at) =>
      (Moved(table, id, Proposed, Expired, Some(at), None), Done(Failed(PastExpiry)))
    case ReplayRead(stored) =>
      var current := if stored.requestId in table then table[stored.requestId] else stored;
      (table, Done(ConfirmedReply(current, ParseStored(stored.result, Value(OK_JSON)))))
    case CancelUpdate(id, at) =>
      (Moved(table, id, Proposed, Cancelled, Some(at), None), CancelCheck(id))
    case CancelCheck(id) =>
      (table, match ReadBack(table, id, Cancelled) case Some(row) => Done(CancelledReply(row)) case None => CancelReread(id))
    case CancelReread(id) =>
      (table, match Lookup(table, id)
              case Some(row) => if row.status == Cancelled then Done(CancelledReply(row))
                                else if row.status == Executing then Done(Failed(InProgress))
                                else Done(Failed(Terminal))
              case None => Done(Failed(Terminal)))
    case ClaimUpdate(id, who, at) =>
      (Moved(table, id, Proposed, Executing, None, None), ClaimCheck(id, who, at))
    case ClaimCheck(id, who, at) =>
      (table, match ReadBack(table, id, Executing)
              case Some(row) => if row.owner != who then Done(Failed(BindingMismatch)) else CallUndo(row, who, at)
              case None => ClaimReread(id, at))
    case ClaimReread(id, at) =>
      (table, AfterLostClaim(Lookup(table, id), id, at))
    case ConfirmUpdate(id, at, answer) =>
      (Moved(table, id, Executing, Confirmed, Some(at), Some(Stringify(answer))), ConfirmCheck(id, answer))
    case ConfirmCheck(id, answer) =>
      (table, match ReadBack(table, id, Confirmed)
              case Some(row) => Done(ConfirmedReply(row, answer))
              case None => ConfirmReread(id, answer))
    case ConfirmReread(id, answer) =>
      (table, AfterLostConfirm(Lookup(table, id), answer))
    case ProposeRead(id, who) =>
      (table, if id == "" || !HasContext(who) then Done(Failed(ContextRequired))
              else match Lookup(table, id)
                case Some(row) => if row.owner != who then Done(Failed(BindingMismatch)) else Done(ProposedReply(row, false))
                case None => Preview(id, who))
    case InsertRow(row, who) =>
      (Inserted(table, row), ProposeReread(row, who))
    case ProposeReread(row, who) =>
      var stored := if row.requestId in table then table[row.requestId] else row;
      (table, if stored.owner != who then Done(Failed(BindingMismatch))
              else Done(ProposedReply(stored, stored.createdAt == row.createdAt)))
    case _ => (table, pc)
  }

  // ----- the whole system

  /** One invocation of api.undo. */
  datatype Call = Call(proposal: string, key: string, target: string, who: Identity)

  /** One financial effect performed by the endpoint. */
  datatype Effect = Effect(key: string, target: string)

  datatype World = World(
    table: Table,
    threads: map<nat, Pc>,
    calls: seq<Call>,
    ledger: map<string, Answer>,   // the endpoint's idempotency record
    effects: seq<Effect>,
    ttl: int)

  datatype Event =
    | Start(t: nat, request: Pc)
    | Sql(t: nat, now: int)
    | PreviewAnswers(t: nat, target: Option<string>, now: int)
    | SendUndo(t: nat)
    | Deliver(call: nat, answer: Answer)
    | UndoReturns(t: nat)
    | ListBound(t: nat, now: int)
    | MarkOne(t: nat, id: string)
    | EndListing(t: nat)
    | Crash(t: nat)

  function Init(ttl: int): World { World(map[], map[], [], map[], [], ttl) }

  function Live(row: Proposal, who: Identity, now: int): bool {
    row.owner == who && (row.status == Proposed || row.status == Executing) && now < row.expiresAt
  }

  function Summaries(table: Table, who: Identity, now: int): set<Summary> {
    set id <- table | Live(table[id], who, now) :: Summary(table[id].requestId, table[id].status, table[id].expiresAt)
  }

  /** The rows of one identity that a listing must mark expired. */
  function Stale(table: Table, who: Identity, now: int): set<string> {
    set id <- table | table[id].owner == who && table[id].status == Proposed && table[id].expiresAt <= now
  }

  /** The endpoint performs a call once per key, and remembers the answer under that key. */
  function Delivered(w: World, call: Call, answer: Answer): World {
    if call.key in w.ledger then w
    else w.(ledger := w.ledger[call.key := answer], effects := w.effects + [Effect(call.key, call.target)])
  }

  function Put(w: World, t: nat, pc: Pc): World { w.(threads := w.threads[t := pc]) }

  /** An event that is not enabled changes nothing. */
  function Apply(w: World, e: Event): World {
    match e
    case Start(t, request) =>
      if t !in w.threads && (request.DecideRead? || request.ProposeRead? || request.ListRead?) then Put(w, t, request) else w
    case Sql(t, now) =>
      if t in w.threads && AtSql(w.threads[t]) then
        var (table, pc) := SqlStep(w.table, w.threads[t], now);
        Put(w, t, pc).(table := table)
      else w
    case PreviewAnswers(t, target, now) =>
      if t in w.threads && w.threads[t].Preview? then
        var Preview(id, who) := w.threads[t];
        Put(w, t, if target.None? then Done(Unavailable)
                  else InsertRow(NewProposal(id, who, target.value, now, w.ttl), who))
      else w
    case SendUndo(t) =>
      if t in w.threads && w.threads[t].CallUndo? then
        var CallUndo(holder, who, now) := w.threads[t];
        Put(w, t, Waiting(holder, who, now)).(calls := w.calls + [Call(holder.requestId, holder.key, holder.target, who)])
      else w
    case Deliver(i, answer) =>
      if i < |w.calls| then Delivered(w, w.calls[i], answer) else w
    case UndoReturns(t) =>
      if t in w.threads && w.threads[t].Waiting? && w.threads[t].holder.key in w.ledger then
        var Waiting(holder, who, now) := w.threads[t];
        Put(w, t, ConfirmUpdate(holder.requestId, now, w.ledger[holder.key]))
      else w
    case ListBound(t, now) =>
      if t in w.threads && w.threads[t].ListRead? then
        var who := w.threads[t].who;
        Put(w, t, if !HasContext(who) then Done(Failed(ContextRequired))
                  else Marking(Stale(w.table, who, now), now, Summaries(w.table, who, now)))
      else w
    case MarkOne(t, id) =>
      if t in w.threads && w.threads[t].Marking? && id in w.threads[t].pending then
        var Marking(pending, now, items) := w.threads[t];
        Put(w, t, Marking(pending - {id}, now, items)).(table := Moved(w.table, id, Proposed, Expired, Some(now), None))
      else w
    case EndListing(t) =>
      if t in w.threads && w.threads[t].Marking? && w.threads[t].pending == {} then Put(w, t, Done(Listed(w.threads[t].items))) else w
    case Crash(t) =>
      if t in w.threads && !w.threads[t].Done? then Put(w, t, Done(Failed(Lost))) else w
  }

  function Run(w: World, es: seq<Event>): World
    decreases |es|
  {
    if es == [] then w else Run(Apply(w, es[0]), es[1..])
  }

  // ----- what no step ever undoes

  predicate SameBinding(a: Proposal, b: Proposal) {
    && a.requestId == b.requestId && a.owner == b.owner && a.target == b.target && a.key == b.key
    && a.createdAt == b.createdAt && a.expiresAt == b.expiresAt
  }

  predicate Final(s: Status) { s == Confirmed || s == Cancelled || s == Expired }

  predicate StatusLeq(a: Status, b: Status) {
    a == b || (a == Proposed) || (a == Executing && b == Confirmed)
  }

  predicate RowEvolves(a: Proposal, b: Proposal) {
    SameBinding(a, b) && StatusLeq(a.status, b.status) && (Final(a.status) ==> b == a)
  }

  predicate TableEvolves(a: Table, b: Table) {
    forall id <- a :: id in b && RowEvolves(a[id], b[id])
  }

  predicate Evolves(w: World, w': World) {
    && TableEvolves(w.table, w'.table)
    && w.calls <= w'.calls
    && w.effects <= w'.effects
    && (forall k <- w.ledger :: k in w'.ledger && w'.ledger[k] == w.ledger[k])
    && (forall t <- w.threads | w.threads[t].Done? :: t in w'.threads && w'.threads[t] == w.threads[t])
  }

  lemma MovedEvolves(table: Table, id: string, from: Status, to: Status, decidedAt: Option<int>, result: Option<Json>)
    requires (from == Proposed && to != Proposed) || (from == Executing && to == Confirmed)
    ensures TableEvolves(table, Moved(table, id, from, to, decidedAt, result))
  {}

  lemma SqlStepEvolves(table: Table, pc: Pc, now: int)
    ensures TableEvolves(table, SqlStep(table, pc, now).0)
  {
    match pc
    case ExpireThenFail(id, at) => MovedEvolves(table, id, Proposed, Expired, Some(at), None);
    case CancelUpdate(id, at) => MovedEvolves(table, id, Proposed, Cancelled, Some(at), None);
    case ClaimUpdate(id, who, at) => MovedEvolves(table, id, Proposed, Executing, None, None);
    case ConfirmUpdate(id, at, answer) => MovedEvolves(table, id, Executing, Confirmed, Some(at), Some(Stringify(answer)));
    case _ =>
  }

  lemma StepEvolves(w: World, e: Event)
    ensures Evolves(w, Apply(w, e))
  {
    match e
    case Sql(t, now) =>
      if t in w.threads && AtSql(w.threads[t]) { SqlStepEvolves(w.table, w.threads[t], now); }
    case MarkOne(t, id) =>
      if t in w.threads && w.threads[t].Marking? && id in w.threads[t].pending {
        MovedEvolves(w.table, id, Proposed, Expired, Some(w.threads[t].now), None);
      }
    case _ =>
  }

  lemma EvolvesTransitive(a: World, b: World, c: World)
    requires Evolves(a, b) && Evolves(b, c)
    ensures Evolves(a, c)
  {}

  // Bindings, target, key and expiry of a row never change, status only moves
  // proposed -> executing -> confirmed or proposed -> cancelled/expired, a final
  // row is frozen, and neither calls, effects nor replies are ever withdrawn.
  lemma {:induction false} RunEvolves(w: World, es: seq<Event>)
    ensures Evolves(w, Run(w, es))
    decreases |es|
  {
    if es != [] {
      StepEvolves(w, es[0]);
      RunEvolves(Apply(w, es[0]), es[1..]);
      EvolvesTransitive(w, Apply(w, es[0]), Run(w, es));
    }
  }

  // ----- the invariant

  predicate Claimed(s: Status) { s == Executing || s == Confirmed }

  predicate RowOk(w: World, id: string)
    requires id in w.table
  {
    var row := w.table[id];
    && row.requestId == id && id != "" && HasContext(row.owner)
    && row.key == DeriveKey(row.owner.workspaceId, id)
    && (row.status == Confirmed ==> row.key in w.ledger && row.result == Some(Stringify(w.ledger[row.key])))
    && (row.status != Confirmed ==> row.result == None)
  }

  predicate CallOk(w: World, call: Call) {
    && call.proposal in w.table
    && var row := w.table[call.proposal];
       Claimed(row.status) && row.key == call.key && row.target == call.target && row.owner == call.who
  }

  predicate AnswerOk(w: World, id: string, answer: Answer) {
    && id in w.table && w.table[id].key in w.ledger
    && (answer == w.ledger[w.table[id].key] || (w.ledger[w.table[id].key] == Nothing && answer == Value(OK_JSON)))
  }

  predicate ReplyOk(w: World, reply: Reply) {
    match reply
    case ConfirmedReply(row, answer) =>
      row.requestId in w.table && w.table[row.requestId] == row && row.status == Confirmed && AnswerOk(w, row.requestId, answer)
    case CancelledReply(row) =>
      row.requestId in w.table && w.table[row.requestId] == row && row.status == Cancelled
    case ProposedReply(row, created) =>
      row.requestId in w.table && RowEvolves(row, w.table[row.requestId])
    case _ => true
  }

  predicate ThreadOk(w: World, pc: Pc) {
    match pc
    case ReplayRead(stored) => stored.status == Confirmed && stored.requestId in w.table && w.table[stored.requestId] == stored
    case CancelUpdate(id, now) => id in w.table
    case CancelCheck(id) => id in w.table && w.table[id].status != Proposed
    case CancelReread(id) => id in w.table && w.table[id].status != Proposed
    case ClaimUpdate(id, who, now) => id in w.table && w.table[id].owner == who && now < w.table[id].expiresAt
    case ClaimCheck(id, who, now) => id in w.table && w.table[id].owner == who && w.table[id].status != Proposed
    case ClaimReread(id, now) => id in w.table && Final(w.table[id].status)
    case CallUndo(holder, who, now) => HolderOk(w, holder, who)
    case Waiting(holder, who, now) => HolderOk(w, holder, who)
    case ConfirmUpdate(id, now, answer) =>
      id in w.table && Claimed(w.table[id].status) && w.table[id].key in w.ledger && answer == w.ledger[w.table[id].key]
    case ConfirmCheck(id, answer) =>
      id in w.table && w.table[id].status == Confirmed && w.table[id].key in w.ledger && answer == w.ledger[w.table[id].key]
    case ConfirmReread(id, answer) => false
    case Preview(id, who) => id != "" && HasContext(who)
    case InsertRow(row, who) => row.requestId != "" && HasContext(who) && row.owner == who && row.status == Proposed && row.result == None
                             && row.key == DeriveKey(who.workspaceId, row.requestId)
    case ProposeReread(row, who) => row.requestId in w.table
    case Done(reply) => ReplyOk(w, reply)
    case _ => true
  }

  predicate HolderOk(w: World, holder: Proposal, who: Identity) {
    && holder.requestId in w.table && SameBinding(holder, w.table[holder.requestId])
    && holder.owner == who && Claimed(w.table[holder.requestId].status)
  }

  /** The endpoint has performed each recorded key exactly once, for a call that was made. */
  ghost predicate EndpointOk(w: World) {
    && (forall i, j :: 0 <= i < j < |w.effects| ==> w.effects[i].key != w.effects[j].key)
    && (forall i :: 0 <= i < |w.effects| ==> w.effects[i].key in w.ledger)
    && (forall k <- w.ledger :: exists i :: 0 <= i < |w.effects| && w.effects[i].key == k)
    && (forall e <- w.effects :: exists c :: c in w.calls && c.key == e.key && c.target == e.target)
  }

  ghost predicate RowsOk(w: World) { forall id <- w.table :: RowOk(w, id) }

  ghost predicate CallsOk(w: World) { forall c <- w.calls :: CallOk(w, c) }

  ghost predicate ThreadsOk(w: World) { forall t <- w.threads :: ThreadOk(w, w.threads[t]) }

  ghost predicate Inv(w: World) {
    RowsOk(w) && CallsOk(w) && ThreadsOk(w) && EndpointOk(w)
  }
}
