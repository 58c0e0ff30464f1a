/**
 * The persistent undo proposal table and the store that updates it.
 * Every SQL statement of the store is one atomic change of the table.
 */
module UndoStore {
  import opened Common

  datatype Status = Proposed | Executing | Confirmed | Cancelled | Expired

  datatype Identity = Identity(workspaceId: string, actorId: string, deviceId: string)

  /** JSON text is never empty; a stored text is read back as the value it was written from. */
  type Json = s: string | s != "" witness "0"

  /** What the undo endpoint answers: null/undefined, or a JSON value. */
  datatype Answer = Nothing | Value(json: Json)

  const OK_JSON: Json := "{\"ok\":true}"

  /** The text persisted for an answer: a missing answer is replaced before it is printed. */
  function Stringify(answer: Answer): Json {
    if answer.Value? then answer.json else OK_JSON
  }

  /** The answer replayed from a stored text. */
  function ParseStored(stored: Option<Json>, fallback: Answer): Answer {
    if stored.Some? then Value(stored.value) else fallback
  }

  datatype Proposal = Proposal(
    requestId: string,
    owner: Identity,
    target: string,
    key: string,
    status: Status,
    createdAt: int,
    expiresAt: int,
    decidedAt: Option<int>,
    result: Option<Json>)

  type Table = map<string, Proposal>

  function Lookup(table: Table, id: string): Option<Proposal> {
    if id in table then Some(table[id]) else None
  }

  /** INSERT ... ON CONFLICT DO NOTHING. */
  function Inserted(table: Table, row: Proposal): Table {
    if row.requestId in table then table else table[row.requestId := row]
  }

  /**
   * UPDATE ... SET status = to WHERE request_id = id AND status = from.
   * A None leaves the column as it is.
   */
  function Moved(table: Table, id: string, from: Status, to: Status,
                 decidedAt: Option<int>, result: Option<Json>): Table {
    if id in table && table[id].status == from then
      var row := table[id];
      table[id := row.(status := to,
                       decidedAt := if decidedAt.Some? then decidedAt else row.decidedAt,
                       result := if result.Some? then result else row.result)]
    else table
  }

  /** The store reports the row it reads back, and only when that row is in the wanted status. */
  function ReadBack(table: Table, id: string, wanted: Status): Option<Proposal> {
    if id in table && table[id].status == wanted then Some(table[id]) else None
  }

  class SqlUndoProposalStore {
    var rows: Table

    constructor ()
      ensures rows == map[]
    {
      rows := map[];
    }

    method Get(id: string) returns (row: Option<Proposal>)
      ensures row == Lookup(rows, id)
    {
      if id in rows { row := Some(rows[id]); } else { row := None; }
    }

    method Insert(row: Proposal)
      modifies this
      ensures rows == Inserted(old(rows), row)
      ensures row.requestId in old(rows) ==> rows == old(rows)
    {
      if row.requestId !in rows { rows := rows[row.requestId := row]; }
    }

    method CasProposedTo(id: string, to: Status, decidedAt: int, result: Option<Json>)
      returns (row: Option<Proposal>)
      requires to == Cancelled || to == Expired
      modifies this
      ensures rows == Moved(old(rows), id, Proposed, to, Some(decidedAt), result)
      ensures row == ReadBack(rows, id, to)
    {
      if id in rows && rows[id].status == Proposed {
        var result' := if result == None then rows[id].result else result;
        rows := rows[id := rows[id].(status := to, decidedAt := Some(decidedAt), result := result')];
      }
      var current := Get(id);
      row := if current.Some? && current.value.status == to then current else None;
    }

    method ClaimExecuting(id: string) returns (row: Option<Proposal>)
      modifies this
      ensures rows == Moved(old(rows), id, Proposed, Executing, None, None)
      ensures row == ReadBack(rows, id, Executing)
    {
      if id in rows && rows[id].status == Proposed {
        rows := rows[id := rows[id].(status := Executing)];
      }
      var current := Get(id);
      row := if current.Some? && current.value.status == Executing then current else None;
    }

    method ConfirmExecuting(id: string, decidedAt: int, result: Json) returns (row: Option<Proposal>)
      modifies this
      ensures rows == Moved(old(rows), id, Executing, Confirmed, Some(decidedAt), Some(result))
      ensures row == ReadBack(rows, id, Confirmed)
    {
      if id in rows && rows[id].status == Executing {
        rows := rows[id := rows[id].(status := Confirmed, decidedAt := Some(decidedAt), result := Some(result))];
      }
      var current := Get(id);
      row := if current.Some? && current.value.status == Confirmed then current else None;
    }

    method MarkExpired(id: string, decidedAt: int)
      modifies this
      ensures rows == Moved(old(rows), id, Proposed, Expired, Some(decidedAt), None)
    {
      if id in rows && rows[id].status == Proposed {
        rows := rows[id := rows[id].(status := Expired, decidedAt := Some(decidedAt))];
      }
    }

    /** All rows bound to one exact identity, each once, in an order of the engine's choice. */
    method ListBound(who: Identity) returns (bound: seq<Proposal>)
      requires forall id <- rows :: rows[id].requestId == id
      ensures forall row :: row in bound <==> row.requestId in rows && rows[row.requestId] == row && row.owner == who
      ensures forall i, j :: 0 <= i < j < |bound| ==> bound[i].requestId != bound[j].requestId
    {
      bound := [];
      var todo := rows.Keys;
      while todo != {}
        invariant todo <= rows.Keys
        invariant forall row :: row in bound <==>
                    row.requestId in rows.Keys - todo && rows[row.requestId] == row && row.owner == who
        invariant forall i, j :: 0 <= i < j < |bound| ==> bound[i].requestId != bound[j].requestId
        decreases todo
      {
        var id :| id in todo;
        if rows[id].owner == who { bound := bound + [rows[id]]; }
        todo := todo - {id};
      }
    }
  }
}
