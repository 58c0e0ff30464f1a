/** What a propose call is told about having created its proposal, and when two calls are told so. */
module UndoCreation {
  import opened Common
  import opened UndoStore
  import opened UndoProtocol
  import opened UndoSafety

  /** The row that an insert leaves stored under the id of the given one. */
  function Winner(table: Table, row: Proposal): Proposal {
    if row.requestId in table then table[row.requestId] else row
  }

  /** What a call that inserts into a table is told in the end, whatever happens before its read. */
  predicate Told(pc: Pc, table: Table, row: Proposal, who: Identity) {
    if Winner(table, row).owner != who then pc == Done(Failed(BindingMismatch))
    else
      && pc.Done? && pc.reply.ProposedReply? && RowEvolves(Winner(table, row), pc.reply.row)
      && (pc.reply.created <==> row.requestId !in table || table[row.requestId].createdAt == row.createdAt)
  }

  /** What the insert of a call leaves: the winner is stored, and the call waits for its read. */
  lemma AfterInsert(w: World, t: nat, now: int)
    requires t in w.threads && w.threads[t].InsertRow?
    ensures var InsertRow(row, who) := w.threads[t];
            var w1 := Apply(w, Sql(t, now));
            && t in w1.threads && w1.threads[t] == ProposeReread(row, who)
            && row.requestId in w1.table && w1.table[row.requestId] == Winner(w.table, row)
  {}

  /** What the read tells, when the winner stored for a call has evolved meanwhile. */
  lemma AfterReread(w: World, t: nat, row: Proposal, who: Identity, table: Table, now: int)
    requires t in w.threads && w.threads[t] == ProposeReread(row, who)
    requires row.requestId in w.table && RowEvolves(Winner(table, row), w.table[row.requestId])
    ensures var w' := Apply(w, Sql(t, now)); t in w'.threads && Told(w'.threads[t], table, row, who)
  {}

  // A propose call is told that it created the proposal exactly when it did, or when the
  // row it lost to bears the very time it read itself, however long it waits between its
  // insert and its read, and whatever else happens in between.
  lemma ToldCreatedExactly(w: World, t: nat, now: int, es: seq<Event>, readAt: int)
    requires t in w.threads && w.threads[t].InsertRow?
    requires var w1 := Apply(w, Sql(t, now)); t in Run(w1, es).threads && Run(w1, es).threads[t] == w1.threads[t]
    ensures var w3 := Apply(Run(Apply(w, Sql(t, now)), es), Sql(t, readAt));
            t in w3.threads && Told(w3.threads[t], w.table, w.threads[t].row, w.threads[t].who)
  {
    var InsertRow(row, who) := w.threads[t];
    AfterInsert(w, t, now);
    RunEvolves(Apply(w, Sql(t, now)), es);
    AfterReread(Run(Apply(w, Sql(t, now)), es), t, row, who, w.table, readAt);
  }

  /** A call that was told it created the proposal, or that it reused one. */
  predicate Proposed(w: World, t: nat, row: Proposal, created: bool) {
    t in w.threads && w.threads[t] == Done(ProposedReply(row, created))
  }

  lemma OtherThread(w: World, t: nat, pc: Pc, u: nat, pc': Pc)
    requires t != u
    ensures Put(Put(w, t, pc), u, pc') == Put(Put(w, u, pc'), t, pc)
  {
    assert w.threads[t := pc][u := pc'] == w.threads[u := pc'][t := pc];
  }

  /** A call up to its insert. */
  lemma ReachesInsert(ttl: int, es: seq<Event>, w: World, t: nat, id: string, who: Identity, target: string, now: int)
    returns (es': seq<Event>)
    requires w == Run(Init(ttl), es) && w.ttl == ttl && t !in w.threads && id !in w.table && id != "" && HasContext(who)
    ensures Put(w, t, InsertRow(NewProposal(id, who, target, now, ttl), who)) == Run(Init(ttl), es')
  {
    es' := Begins(ttl, es, w, t, ProposeRead(id, who));
    ProposeSteps(w.table, NewProposal(id, who, target, now, ttl), who);
    es' := Steps(ttl, es', w, t, ProposeRead(id, who), 0, w.table, Preview(id, who));
    es' := Previews(ttl, es', w, t, id, who, target, now);
  }

  lemma InsertSteps(table: Table, row: Proposal, who: Identity)
    ensures SqlStep(table, InsertRow(row, who), 0) == (Inserted(table, row), ProposeReread(row, who))
    ensures Winner(table, row).owner == who && row.requestId in table ==>
              SqlStep(table, ProposeReread(row, who), 0)
              == (table, Done(ProposedReply(Winner(table, row), Winner(table, row).createdAt == row.createdAt)))
  {}

  // Two calls race for one request id, both past their first read before either inserts.
  // The first is told that it created the proposal, and so is the second exactly when it
  // read the same millisecond.
  lemma TwoProposers(ttl: int, id: string, who: Identity, first: string, second: string, at1: int, at2: int) returns (es: seq<Event>)
    requires id != "" && HasContext(who)
    ensures var w := Run(Init(ttl), es);
            var row := NewProposal(id, who, first, at1, ttl);
            w.table == map[id := row] && Proposed(w, 0, row, true) && Proposed(w, 1, row, at1 == at2)
  {
    var row1, row2 := NewProposal(id, who, first, at1, ttl), NewProposal(id, who, second, at2, ttl);
    var w := Init(ttl);
    var table := w.table[id := row1];
    es := ReachesInsert(ttl, [], w, 0, id, who, first, at1);
    var w0 := Put(w, 0, InsertRow(row1, who));
    es := ReachesInsert(ttl, es, w0, 1, id, who, second, at2);
    var v := Put(w, 1, InsertRow(row2, who));
    OtherThread(w, 0, InsertRow(row1, who), 1, InsertRow(row2, who));
    InsertSteps(w.table, row1, who);
    es := Steps(ttl, es, v, 0, InsertRow(row1, who), 0, table, ProposeReread(row1, who));
    InsertSteps(table, row1, who);
    es := Steps(ttl, es, v.(table := table), 0, ProposeReread(row1, who), 0, table, Done(ProposedReply(row1, true)));
    var w1 := Put(w, 0, Done(ProposedReply(row1, true))).(table := table);
    OtherThread(w.(table := table), 0, Done(ProposedReply(row1, true)), 1, InsertRow(row2, who));
    InsertSteps(table, row2, who);
    es := Steps(ttl, es, w1, 1, InsertRow(row2, who), 0, table, ProposeReread(row2, who));
    es := Steps(ttl, es, w1, 1, ProposeReread(row2, who), 0, table, Done(ProposedReply(row1, at1 == at2)));
  }
}
