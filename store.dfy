/**
  The hosted `tasks` table, reduced to what the client code relies on: rows carry an
  owner (`user_id`), the store assigns ids, and every update and delete the code
  issues is filtered by both `id` and `user_id`. Whether a request reaches the store
  and is accepted is an input (`Reply`), as is the id the store generates.
 */
module Store {
  import opened Common
  import opened Tasks

  /** A stored row: the owner column beside the task columns. */
  datatype Row = Row(owner: string, task: Task)

  /** How the store answers one request: an error, or the statement applied, with or without a row in `data`. */
  datatype Reply = Rejected | Applied(returnsRow: bool)

  /** The error a store request reports (the caller rethrows it). */
  datatype StoreError = RequestRejected | DuplicateId

  /** The columns an update may set: `{ title?, is_complete? }`. */
  datatype Patch = Patch(title: Option<string>, isComplete: Option<bool>)

  function RowIds(rows: seq<Row>): set<string> {
    set r | r in rows :: r.task.id
  }

  /** The primary-key constraint: no two rows share an id. */
  ghost predicate DistinctRowIds(rows: seq<Row>) {
    forall i, j :: 0 <= i < j < |rows| ==> rows[i].task.id != rows[j].task.id
  }

  /** The filter `.eq('id', id).eq('user_id', owner)`. */
  predicate Scoped(row: Row, id: string, owner: string) {
    row.task.id == id && row.owner == owner
  }

  // ---------------------------------------------------------------- insert

  /** An insert is stored when the request is accepted and the generated id is new. */
  predicate InsertAccepted(rows: seq<Row>, newId: string, reply: Reply) {
    reply.Applied? && newId !in RowIds(rows)
  }

  /** The table after `insert([{ title, user_id: owner, is_complete }])`. */
  function InsertRows(rows: seq<Row>, owner: string, title: string, isComplete: bool,
                      newId: string, now: Stamp, reply: Reply): (r: seq<Row>)
    ensures InsertAccepted(rows, newId, reply) ==>
      r == rows + [Row(owner, Task(newId, title, isComplete, Some(now), None))]
    ensures !InsertAccepted(rows, newId, reply) ==> r == rows
    ensures DistinctRowIds(rows) ==> DistinctRowIds(r)
  {
    if InsertAccepted(rows, newId, reply) then
      rows + [Row(owner, Task(newId, title, isComplete, Some(now), None))]
    else
      rows
  }

  /** What the insert returns: `select('id, title, is_complete')` of the new row, or the error. */
  function InsertResult(rows: seq<Row>, title: string, isComplete: bool,
                        newId: string, reply: Reply): (r: Result<Option<Task>, StoreError>)
    ensures r.Ok? <==> InsertAccepted(rows, newId, reply)
    ensures r.Ok? && r.value.Some? ==>
      reply == Applied(true) && r.value.value == Task(newId, title, isComplete, None, None)
    ensures reply == Applied(true) && r.Ok? ==> r.value.Some?
  {
    if reply.Rejected? then Err(RequestRejected)
    else if newId in RowIds(rows) then Err(DuplicateId)
    else if reply.returnsRow then Ok(Some(Task(newId, title, isComplete, None, None)))
    else Ok(None)
  }

  // ---------------------------------------------------------------- update

  /** A task with the supplied columns of the patch written over it. */
  function Patched(t: Task, p: Patch): (r: Task)
    ensures r.id == t.id && r.createdAt == t.createdAt && r.updatedAt == t.updatedAt
    ensures p.title.None? ==> r.title == t.title
    ensures p.isComplete.None? ==> r.isComplete == t.isComplete
    ensures p.title.Some? ==> r.title == p.title.value
    ensures p.isComplete.Some? ==> r.isComplete == p.isComplete.value
  {
    t.(title := if p.title.Some? then p.title.value else t.title,
       isComplete := if p.isComplete.Some? then p.isComplete.value else t.isComplete)
  }

  /** `.update(p).eq('id', id).eq('user_id', owner)`: only scoped rows change, and only in the patched columns. */
  function UpdateRows(rows: seq<Row>, id: string, owner: string, p: Patch): (r: seq<Row>)
    ensures |r| == |rows|
    ensures forall i :: 0 <= i < |rows| && !Scoped(rows[i], id, owner) ==> r[i] == rows[i]
    ensures forall i :: 0 <= i < |rows| && Scoped(rows[i], id, owner) ==>
      r[i].owner == rows[i].owner && r[i].task == Patched(rows[i].task, p)
  {
    seq(|rows|, i requires 0 <= i < |rows| =>
      if Scoped(rows[i], id, owner) then Row(rows[i].owner, Patched(rows[i].task, p)) else rows[i])
  }

  /** The task of the first row matching the filter, if any. */
  function FirstScoped(rows: seq<Row>, id: string, owner: string): (r: Option<Task>)
    ensures r.None? <==> forall i :: 0 <= i < |rows| ==> !Scoped(rows[i], id, owner)
    ensures r.Some? ==> (exists i :: 0 <= i < |rows| && Scoped(rows[i], id, owner) && rows[i].task == r.value)
  {
    if |rows| == 0 then None
    else if Scoped(rows[0], id, owner) then Some(rows[0].task)
    else
      var r := FirstScoped(rows[1..], id, owner);
      assert forall i :: 1 <= i < |rows| ==> rows[i] == rows[1..][i - 1];
      r
  }

  /** What the update returns: the updated row when the store sends one back, or the error. */
  function UpdateResult(rows: seq<Row>, id: string, owner: string, p: Patch,
                        reply: Reply): (r: Result<Option<Task>, StoreError>)
    ensures r.Err? <==> reply.Rejected?
    ensures r.Ok? && r.value.Some? ==> reply == Applied(true)
    ensures r.Ok? && r.value.Some? ==>
      exists i :: 0 <= i < |rows| && Scoped(rows[i], id, owner) && r.value.value == Patched(rows[i].task, p)
    ensures reply == Applied(true) ==>
      (r.Ok? && r.value.Some? <==> exists i :: 0 <= i < |rows| && Scoped(rows[i], id, owner))
    ensures reply == Applied(false) ==> r == Ok(None)
  {
    UpdateReturnsPatchedRow(rows, id, owner, p);
    var updated := UpdateRows(rows, id, owner, p);
    assert forall i :: 0 <= i < |rows| ==> (Scoped(updated[i], id, owner) <==> Scoped(rows[i], id, owner));
    match reply
    case Rejected => Err(RequestRejected)
    case Applied(returnsRow) =>
      if returnsRow then Ok(FirstScoped(UpdateRows(rows, id, owner, p), id, owner)) else Ok(None)
  }

  /** The update never changes which ids the table holds, so the key constraint is kept. */
  lemma UpdateKeepsIds(rows: seq<Row>, id: string, owner: string, p: Patch)
    ensures RowIds(UpdateRows(rows, id, owner, p)) == RowIds(rows)
    ensures DistinctRowIds(rows) ==> DistinctRowIds(UpdateRows(rows, id, owner, p))
  {
    var r := UpdateRows(rows, id, owner, p);
    forall x | x in RowIds(rows) ensures x in RowIds(r) {
      var i :| 0 <= i < |rows| && rows[i].task.id == x;
      assert r[i] in r;
    }
    forall x | x in RowIds(r) ensures x in RowIds(rows) {
      var i :| 0 <= i < |r| && r[i].task.id == x;
      assert rows[i] in rows;
    }
  }

  /** Applying the same update twice is applying it once: a patch sets columns to fixed values. */
  lemma UpdateIdempotent(rows: seq<Row>, id: string, owner: string, p: Patch)
    ensures UpdateRows(UpdateRows(rows, id, owner, p), id, owner, p) == UpdateRows(rows, id, owner, p)
  {
    var once := UpdateRows(rows, id, owner, p);
    var twice := UpdateRows(once, id, owner, p);
    forall i | 0 <= i < |rows| ensures twice[i] == once[i] {
      if Scoped(rows[i], id, owner) {
        assert Scoped(once[i], id, owner);
      }
    }
  }

  /** The row an update returns is the scoped row with the patch applied. */
  lemma UpdateReturnsPatchedRow(rows: seq<Row>, id: string, owner: string, p: Patch)
    ensures FirstScoped(UpdateRows(rows, id, owner, p), id, owner).Some? ==>
      exists i :: (0 <= i < |rows| && Scoped(rows[i], id, owner)
        && FirstScoped(UpdateRows(rows, id, owner, p), id, owner).value == Patched(rows[i].task, p))
  {
    var r := UpdateRows(rows, id, owner, p);
    if FirstScoped(r, id, owner).Some? {
      var i :| 0 <= i < |r| && Scoped(r[i], id, owner) && r[i].task == FirstScoped(r, id, owner).value;
      assert Scoped(rows[i], id, owner);
    }
  }

  // ---------------------------------------------------------------- delete

  /** `.delete().eq('id', id).eq('user_id', owner)`: the table without its scoped rows, in order. */
  function DeleteRows(rows: seq<Row>, id: string, owner: string): (r: seq<Row>)
    ensures |r| <= |rows|
    ensures forall x :: x in r ==> x in rows && !Scoped(x, id, owner)
    ensures forall x :: x in rows && !Scoped(x, id, owner) ==> x in r
  {
    if |rows| == 0 then []
    else if Scoped(rows[0], id, owner) then DeleteRows(rows[1..], id, owner)
    else [rows[0]] + DeleteRows(rows[1..], id, owner)
  }

  /** Deleting again removes nothing more: a repeated delete is not an error and changes nothing. */
  lemma {:induction false} DeleteIdempotent(rows: seq<Row>, id: string, owner: string)
    ensures DeleteRows(DeleteRows(rows, id, owner), id, owner) == DeleteRows(rows, id, owner)
  {
    if |rows| > 0 {
      DeleteIdempotent(rows[1..], id, owner);
      if !Scoped(rows[0], id, owner) {
        var tail := DeleteRows(rows[1..], id, owner);
        assert ([rows[0]] + tail)[1..] == tail;
      }
    }
  }

  /** Deleting keeps the key constraint: the surviving rows are a subsequence of the table. */
  lemma {:induction false} DeleteKeepsDistinct(rows: seq<Row>, id: string, owner: string)
    requires DistinctRowIds(rows)
    ensures DistinctRowIds(DeleteRows(rows, id, owner))
  {
    if |rows| > 0 {
      var tail := rows[1..];
      assert DistinctRowIds(tail) by {
        forall i, j | 0 <= i < j < |tail| ensures tail[i].task.id != tail[j].task.id {
          assert tail[i] == rows[i + 1] && tail[j] == rows[j + 1];
        }
      }
      DeleteKeepsDistinct(tail, id, owner);
      if !Scoped(rows[0], id, owner) {
        var rest := DeleteRows(tail, id, owner);
        var r := [rows[0]] + rest;
        forall i, j | 0 <= i < j < |r| ensures r[i].task.id != r[j].task.id {
          if i == 0 {
            assert r[j] in rest;
            var k :| 0 <= k < |tail| && tail[k] == r[j];
            assert tail[k] == rows[k + 1];
          } else {
            assert r[i] == rest[i - 1] && r[j] == rest[j - 1];
          }
        }
      }
    }
  }

  /** A delete whose filter matches no row leaves the table as it was. */
  lemma {:induction false} DeleteMissingIsNoop(rows: seq<Row>, id: string, owner: string)
    requires forall x :: x in rows ==> !Scoped(x, id, owner)
    ensures DeleteRows(rows, id, owner) == rows
  {
    if |rows| > 0 {
      DeleteMissingIsNoop(rows[1..], id, owner);
      assert [rows[0]] + rows[1..] == rows;
    }
  }

  /** Under the key constraint a delete removes at most one row. */
  lemma {:induction false} DeleteRemovesAtMostOne(rows: seq<Row>, id: string, owner: string)
    requires DistinctRowIds(rows)
    ensures |DeleteRows(rows, id, owner)| >= |rows| - 1
  {
    if |rows| > 0 {
      var tail := rows[1..];
      if Scoped(rows[0], id, owner) {
        forall x | x in tail ensures !Scoped(x, id, owner) {
          var k :| 0 <= k < |tail| && tail[k] == x;
          assert tail[k] == rows[k + 1];
        }
        DeleteMissingIsNoop(tail, id, owner);
      } else {
        assert DistinctRowIds(tail) by {
          forall i, j | 0 <= i < j < |tail| ensures tail[i].task.id != tail[j].task.id {
            assert tail[i] == rows[i + 1] && tail[j] == rows[j + 1];
          }
        }
        DeleteRemovesAtMostOne(tail, id, owner);
      }
    }
  }

  // ---------------------------------------------------------------- the table

  /** The table, updated in place by the three statements the code issues. */
  class TaskTable {
    var rows: seq<Row>

    ghost predicate Valid()
      reads this
    {
      DistinctRowIds(rows)
    }

    constructor ()
      ensures Valid() && rows == []
    {
      rows := [];
    }

    /** Inserts a row with a store-generated id; rejected requests and id clashes leave the table as it was. */
    method Insert(owner: string, title: string, isComplete: bool, newId: string, now: Stamp, reply: Reply)
      returns (r: Result<Option<Task>, StoreError>)
      requires Valid()
      modifies this
      ensures Valid()
      ensures rows == InsertRows(old(rows), owner, title, isComplete, newId, now, reply)
      ensures r == InsertResult(old(rows), title, isComplete, newId, reply)
    {
      r := InsertResult(rows, title, isComplete, newId, reply);
      rows := InsertRows(rows, owner, title, isComplete, newId, now, reply);
    }

    /** Updates the rows matching both `id` and `owner`; a rejected request changes nothing. */
    method Update(id: string, owner: string, p: Patch, reply: Reply)
      returns (r: Result<Option<Task>, StoreError>)
      requires Valid()
      modifies this
      ensures Valid()
      ensures rows == if reply.Rejected? then old(rows) else UpdateRows(old(rows), id, owner, p)
      ensures r == UpdateResult(old(rows), id, owner, p, reply)
    {
      r := UpdateResult(rows, id, owner, p, reply);
      if reply.Applied? {
        UpdateKeepsIds(rows, id, owner, p);
        rows := UpdateRows(rows, id, owner, p);
      }
    }

    /** Deletes the rows matching both `id` and `owner`; a rejected request changes nothing. */
    method Delete(id: string, owner: string, reply: Reply) returns (r: Outcome<StoreError>)
      requires Valid()
      modifies this
      ensures Valid()
      ensures reply.Rejected? ==> r == Fail(RequestRejected) && rows == old(rows)
      ensures reply.Applied? ==> r == Pass && rows == DeleteRows(old(rows), id, owner)
    {
      if reply.Rejected? {
        r := Fail(RequestRejected);
      } else {
        DeleteKeepsDistinct(rows, id, owner);
        rows := DeleteRows(rows, id, owner);
        r := Pass;
      }
    }
  }
}
