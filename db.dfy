/**
 * The query-building and error-wrapping layer of `db.mjs`.
 *
 * The pg client is an oracle `db: Query -> QueryResult` that either returns
 * rows or fails with some diagnostic. Each operation returns a `Reply`: the
 * queries it issued, in order, and either the rows it returns or the one
 * message it raises. Table and column names, which the source splices into the
 * SQL text from the environment, are left out: a statement is identified by
 * its kind, and for an update by its SET list.
 */
module Db {
  import opened Wrappers
  import opened Text

  /** A value bound to a `$n` placeholder. */
  datatype SqlValue = Str(s: string) | Int(i: int)

  /** A row as the client returns it; the adapter passes rows through untouched. */
  type Row = map<string, SqlValue>

  datatype Statement =
    | SelectAll                   // SELECT the three columns FROM the table
    | SelectById                  // ... WHERE the id column = $1
    | Insert                      // INSERT (description, status) VALUES ($1, $2) RETURNING *
    | UpdateSet(setList: string)  // UPDATE ... SET <setList> WHERE the id column = $1 RETURNING *
    | Delete                      // DELETE ... WHERE the id column = $1 RETURNING *

  datatype Query = Query(statement: Statement, params: seq<SqlValue>)

  datatype QueryResult = Rows(rows: seq<Row>) | Failed(cause: string)

  datatype Reply = Reply(issued: seq<Query>, outcome: Result<seq<Row>, string>)

  /** One own property of the object passed to `updateById`, in `Object.keys` order. */
  datatype Field = Field(key: string, value: SqlValue)

  const GetTasksFailed := "Could not get tasks."
  const GetTaskFailed := "Could not get the task."
  const CreateFailed := "Could not create the task."
  const UpdateFailed := "Could not update the task."
  const DeleteFailed := "Could not delete the task."

  /** The status every new row is inserted with. */
  const InitialStatus := "TODO"

  /** Issue `q`; pass its rows through, or replace whatever went wrong by `message`. */
  function Settle(q: Query, db: Query -> QueryResult, message: string): (r: Reply)
    ensures r.issued == [q]
    ensures r.outcome.Ok? <==> db(q).Rows?
    ensures r.outcome.Ok? ==> r.outcome.value == db(q).rows
    ensures r.outcome.Err? ==> r.outcome.error == message
  {
    match db(q)
    case Rows(rows) => Reply([q], Ok(rows))
    case Failed(_) => Reply([q], Err(message))
  }

  /** `findAll`: one select; the rows come back unchanged, any failure becomes one fixed message. */
  function FindAll(db: Query -> QueryResult): (r: Reply)
    ensures r.issued == [Query(SelectAll, [])]
    ensures r.outcome.Ok? <==> db(Query(SelectAll, [])).Rows?
    ensures r.outcome.Ok? ==> r.outcome.value == db(Query(SelectAll, [])).rows
    ensures r.outcome.Err? ==> r.outcome.error == GetTasksFailed
  {
    Settle(Query(SelectAll, []), db, GetTasksFailed)
  }

  /** `findById`: one select bound to the id; an empty result is returned, not raised. */
  function FindById(id: SqlValue, db: Query -> QueryResult): (r: Reply)
    ensures r.issued == [Query(SelectById, [id])]
    ensures r.outcome.Ok? <==> db(Query(SelectById, [id])).Rows?
    ensures r.outcome.Ok? ==> r.outcome.value == db(Query(SelectById, [id])).rows
    ensures r.outcome.Err? ==> r.outcome.error == GetTaskFailed
  {
    Settle(Query(SelectById, [id]), db, GetTaskFailed)
  }

  /** `create`: one insert binding the given description and the fixed status `TODO`. */
  function Create(data: SqlValue, db: Query -> QueryResult): (r: Reply)
    ensures |r.issued| == 1 && r.issued[0].statement == Insert
    ensures r.issued[0].params == [data, Str(InitialStatus)]
    ensures r.outcome.Ok? <==> db(r.issued[0]).Rows?
    ensures r.outcome.Ok? ==> r.outcome.value == db(r.issued[0]).rows
    ensures r.outcome.Err? ==> r.outcome.error == CreateFailed
  {
    Settle(Query(Insert, [data, Str(InitialStatus)]), db, CreateFailed)
  }

  /** `${key} = $${slot}`: one entry of the SET list, whose placeholder digits read back as `slot`. */
  function Assignment(column: string, slot: nat): (r: string)
    ensures |r| > |column| + 4
    ensures r[..|column|] == column && r[|column|..|column| + 4] == " = $"
    ensures IsDigits(r[|column| + 4..]) && ParseDigits(r[|column| + 4..]) == slot
  {
    var head := column + " = $";
    var digits := NatToString(slot);
    ParseNatToString(slot);
    assert |head| == |column| + 4 && (head + digits)[|head|..] == digits;
    assert (head + digits)[..|column|] == column;
    head + digits
  }

  /** The SET entries for `data`, the first one naming placeholder `slot`, each next one the next placeholder. */
  function AssignmentsFrom(data: seq<Field>, slot: nat): (r: seq<string>)
    ensures |r| == |data|
    ensures forall i :: 0 <= i < |data| ==> r[i] == Assignment(data[i].key, slot + i)
  {
    if data == [] then [] else [Assignment(data[0].key, slot)] + AssignmentsFrom(data[1..], slot + 1)
  }

  /** The values of `data`, in key order. */
  function ValuesOf(data: seq<Field>): (r: seq<SqlValue>)
    ensures |r| == |data|
    ensures forall i :: 0 <= i < |data| ==> r[i] == data[i].value
  {
    if data == [] then [] else [data[0].value] + ValuesOf(data[1..])
  }

  /** The update statement for a non-empty field map: SET entries from `$2` on, parameters `[id] + values`. */
  function UpdateQuery(id: SqlValue, data: seq<Field>): Query {
    Query(UpdateSet(Join(AssignmentsFrom(data, 2), ", ")), [id] + ValuesOf(data))
  }

  /** What `updateById` does: nothing is issued for an empty field map, and every failure is one message. */
  function UpdateReply(id: SqlValue, data: seq<Field>, db: Query -> QueryResult): (r: Reply)
    ensures data == [] <==> r.issued == []
    ensures data == [] ==> r.outcome == Err(UpdateFailed)
    ensures data != [] ==> r.issued == [UpdateQuery(id, data)]
    ensures data != [] ==> (r.outcome.Ok? <==> db(UpdateQuery(id, data)).Rows?)
    ensures r.outcome.Ok? ==> r.outcome.value == db(UpdateQuery(id, data)).rows
    ensures r.outcome.Err? ==> r.outcome.error == UpdateFailed
  {
    if data == [] then Reply([], Err(UpdateFailed)) else Settle(UpdateQuery(id, data), db, UpdateFailed)
  }

  /**
   * The SET list and the parameter list stay aligned: `$1` is the id of the
   * WHERE clause, the i-th SET entry names the i-th key and a placeholder whose
   * digits read back as i + 2, so no SET placeholder is `$1`, and parameter
   * i + 2 (counting from 1) is the i-th value. The keys themselves are spliced
   * into the text unescaped, so this alignment is the one a reader of the SQL
   * sees only when every key is a plain column name.
   */
  lemma SlotsBindValues(id: SqlValue, data: seq<Field>)
    ensures UpdateQuery(id, data).params[0] == id
    ensures |UpdateQuery(id, data).params| == |data| + 1
    ensures forall i :: 0 <= i < |data| ==>
      AssignmentsFrom(data, 2)[i] == Assignment(data[i].key, i + 2) &&
      ParseDigits(NatToString(i + 2)) == i + 2 &&
      UpdateQuery(id, data).params[i + 1] == data[i].value
  {
    var values := ValuesOf(data);
    assert UpdateQuery(id, data).params == [id] + values;
    forall i | 0 <= i < |data|
      ensures AssignmentsFrom(data, 2)[i] == Assignment(data[i].key, i + 2) &&
        ParseDigits(NatToString(i + 2)) == i + 2 &&
        UpdateQuery(id, data).params[i + 1] == data[i].value
    {
      assert AssignmentsFrom(data, 2)[i] == Assignment(data[i].key, 2 + i);
      ParseNatToString(i + 2);
      assert UpdateQuery(id, data).params[i + 1] == values[i];
    }
  }

  /** `updateById`: build the SET entries and values key by key, refuse an empty map, then issue the update. */
  method UpdateById(id: SqlValue, data: seq<Field>, db: Query -> QueryResult) returns (r: Reply)
    ensures r == UpdateReply(id, data, db)
  {
    var fields: seq<string> := [];
    var values: seq<SqlValue> := [];
    var index := 0;
    while index < |data|
      invariant 0 <= index <= |data|
      invariant |fields| == index && |values| == index
      invariant forall i :: 0 <= i < index ==> fields[i] == Assignment(data[i].key, i + 2)
      invariant forall i :: 0 <= i < index ==> values[i] == data[i].value
    {
      fields := fields + [Assignment(data[index].key, index + 2)];
      values := values + [data[index].value];
      index := index + 1;
    }
    if |fields| == 0 && |values| == 0 {
      return Reply([], Err(UpdateFailed));
    }
    assert fields == AssignmentsFrom(data, 2);
    assert values == ValuesOf(data);
    r := Settle(Query(UpdateSet(Join(fields, ", ")), [id] + values), db, UpdateFailed);
  }

  /** `deleteById`: one delete; zero returned rows is a failure, and every failure is one message. */
  function DeleteById(id: SqlValue, db: Query -> QueryResult): (r: Reply)
    ensures r.issued == [Query(Delete, [id])]
    ensures r.outcome.Ok? <==> db(Query(Delete, [id])).Rows? && db(Query(Delete, [id])).rows != []
    ensures r.outcome.Ok? ==> r.outcome.value == db(Query(Delete, [id])).rows
    ensures r.outcome.Err? ==> r.outcome.error == DeleteFailed
  {
    var q := Query(Delete, [id]);
    match db(q)
    case Rows(rows) => if |rows| == 0 then Reply([q], Err(DeleteFailed)) else Reply([q], Ok(rows))
    case Failed(_) => Reply([q], Err(DeleteFailed))
  }

  /** Two clients that agree on which queries succeed and on their rows. */
  ghost predicate SameSuccesses(db1: Query -> QueryResult, db2: Query -> QueryResult) {
    forall q :: (db1(q).Rows? <==> db2(q).Rows?) && (db1(q).Rows? ==> db1(q).rows == db2(q).rows)
  }

  /**
   * The adapter's replies never depend on a failure's diagnostic: clients that
   * differ only in why a query fails give the same replies.
   */
  lemma {:induction false} DiagnosticsAreDropped(db1: Query -> QueryResult, db2: Query -> QueryResult, id: SqlValue, data: seq<Field>, description: SqlValue)
    requires SameSuccesses(db1, db2)
    ensures FindAll(db1) == FindAll(db2)
    ensures FindById(id, db1) == FindById(id, db2)
    ensures Create(description, db1) == Create(description, db2)
    ensures UpdateReply(id, data, db1) == UpdateReply(id, data, db2)
    ensures DeleteById(id, db1) == DeleteById(id, db2)
  {
    forall q ensures Settle(q, db1, UpdateFailed) == Settle(q, db2, UpdateFailed) {
      assert db1(q).Rows? <==> db2(q).Rows?;
    }
  }
}
