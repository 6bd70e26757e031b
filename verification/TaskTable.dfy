/** The task table and its repository: atomic operations on task rows. */
module TaskTable {
  import opened Base

  type TaskId = string

  datatype Status = Pending | Scheduled | Running | Completed | Failed | Retrying

  /** What a task asks for; no operation below reads it. */
  datatype Job = Job(taskType: string, payload: string)

  /** A row of the `tasks` table. An absent provider is the empty string. */
  datatype Row = Row(
    status: Status, job: Job, provider: string, attempts: int, maxAttempts: int,
    result: Option<string>, error: Option<string>, createdAt: int)

  type Table = map<TaskId, Row>

  /** The effect of one status update: optional columns keep their value when not given,
      and an update of a missing task changes nothing. */
  function SetStatus(t: Table, id: TaskId, status: Status, result: Option<string>,
                     error: Option<string>, attempts: Option<int>): Table
  {
    if id !in t then t
    else t[id := t[id].(
      status := status,
      result := if result.Some? then result else t[id].result,
      error := if error.Some? then error else t[id].error,
      attempts := if attempts.Some? then attempts.value else t[id].attempts)]
  }

  /** The oldest pending rows, at most `limit` of them, oldest first. Rows created at
      the same instant may come in any order. */
  predicate IsPendingSnapshot(t: Table, ids: seq<TaskId>, limit: nat) {
    && Distinct(ids)
    && (forall i :: 0 <= i < |ids| ==> ids[i] in t && t[ids[i]].status == Pending)
    && (forall i, j :: 0 <= i < j < |ids| ==> t[ids[i]].createdAt <= t[ids[j]].createdAt)
    && |ids| <= limit
    && (forall id, i :: id in t && t[id].status == Pending && id !in ids && 0 <= i < |ids|
          ==> t[ids[i]].createdAt <= t[id].createdAt)
    && (|ids| < limit ==> forall id :: id in t && t[id].status == Pending ==> id in ids)
  }

  // The statement `update_status` assembles: column assignments that refer to
  // numbered parameters.

  datatype Column = StatusCol | ResultCol | ErrorCol | AttemptsCol
  datatype Assignment = Assignment(column: Column, param: nat)
  datatype Param = IdParam(id: TaskId) | StatusParam(status: Status) | TextParam(text: string) | IntParam(int)

  predicate Fits(a: Assignment, params: seq<Param>) {
    && 1 <= a.param <= |params|
    && match a.column
       case StatusCol => params[a.param - 1].StatusParam?
       case ResultCol => params[a.param - 1].TextParam?
       case ErrorCol => params[a.param - 1].TextParam?
       case AttemptsCol => params[a.param - 1].IntParam?
  }

  function Assign(row: Row, a: Assignment, params: seq<Param>): Row
    requires Fits(a, params)
  {
    var p := params[a.param - 1];
    match a.column
    case StatusCol => row.(status := p.status)
    case ResultCol => row.(result := Some(p.text))
    case ErrorCol => row.(error := Some(p.text))
    case AttemptsCol => var IntParam(n) := p; row.(attempts := n)
  }

  function AssignAll(row: Row, sets: seq<Assignment>, params: seq<Param>): Row
    requires forall a :: a in sets ==> Fits(a, params)
  {
    if sets == [] then row
    else Assign(AssignAll(row, sets[..|sets| - 1], params), sets[|sets| - 1], params)
  }

  /** Parameters appended later do not disturb assignments made earlier. */
  lemma {:induction false} AssignAllExtends(row: Row, sets: seq<Assignment>, params: seq<Param>, more: seq<Param>)
    requires forall a :: a in sets ==> Fits(a, params)
    ensures forall a :: a in sets ==> Fits(a, params + more)
    ensures AssignAll(row, sets, params + more) == AssignAll(row, sets, params)
  {
    if sets != [] {
      AssignAllExtends(row, sets[..|sets| - 1], params, more);
      assert sets[|sets| - 1] in sets;
    }
  }

  /** An update statement under construction; `idx` is the next free parameter number. */
  datatype Update = Update(sets: seq<Assignment>, params: seq<Param>, idx: nat) {
    ghost predicate Valid() {
      idx == |params| + 1 && forall a :: a in sets ==> Fits(a, params)
    }
  }

  function TextOf(text: Option<string>): Option<Param> {
    if text.Some? then Some(TextParam(text.value)) else None
  }

  predicate Accepts(column: Column, p: Param) {
    match column
    case StatusCol => p.StatusParam?
    case AttemptsCol => p.IntParam?
    case _ => p.TextParam?
  }

  /** The row an update statement produces. */
  function Effect(u: Update, row: Row): Row
    requires u.Valid()
  {
    AssignAll(row, u.sets, u.params)
  }

  /** Give one more column its own numbered parameter, if there is a value for it. */
  method Bind(u: Update, column: Column, p: Option<Param>, ghost row: Row) returns (v: Update)
    requires u.Valid() && (p.Some? ==> Accepts(column, p.value))
    ensures v.Valid()
    ensures p.None? ==> v == u
    ensures p.Some? ==> Effect(v, row) == Assign(Effect(u, row), Assignment(column, 1), [p.value])
  {
    v := u;
    if p.Some? {
      v := Update(u.sets + [Assignment(column, u.idx)], u.params + [p.value], u.idx + 1);
      assert v.sets[..|u.sets|] == u.sets;
      assert v.params[u.idx - 1] == p.value;
      AssignAllExtends(row, u.sets, u.params, [p.value]);
    }
  }

  /** The statement every status update starts from. */
  function StatusOnly(id: TaskId, status: Status): Update {
    Update([Assignment(StatusCol, 2)], [IdParam(id), StatusParam(status)], 3)
  }

  lemma StatusOnlyEffect(id: TaskId, status: Status, row: Row)
    ensures Effect(StatusOnly(id, status), row) == row.(status := status)
  {
    var u := StatusOnly(id, status);
    assert AssignAll(row, u.sets[..0], u.params) == row;
  }

  class TaskRepository {
    var rows: Table

    constructor ()
      ensures rows == map[]
    {
      rows := map[];
    }

    /** Insert a row with the status the task carries. A taken id violates the primary key. */
    method Create(id: TaskId, status: Status, job: Job, provider: string, maxAttempts: int, now: int) returns (ok: bool)
      modifies this
      ensures ok <==> id !in old(rows)
      ensures rows == if ok
                      then old(rows)[id := Row(status, job, provider, 0, maxAttempts, None, None, now)]
                      else old(rows)
    {
      ok := id !in rows;
      if ok {
        rows := rows[id := Row(status, job, provider, 0, maxAttempts, None, None, now)];
      }
    }

    method Get(id: TaskId) returns (row: Option<Row>)
      ensures row.Some? <==> id in rows
      ensures row.Some? ==> row.value == rows[id]
    {
      if id in rows {
        row := Some(rows[id]);
      } else {
        row := None;
      }
    }

    /** The numbered parameters are assembled so that each column receives the value
        the caller gave for it. */
    method UpdateStatus(id: TaskId, status: Status, result: Option<string>, error: Option<string>,
                        attempts: Option<int>)
      modifies this
      ensures rows == SetStatus(old(rows), id, status, result, error, attempts)
      ensures rows.Keys == old(rows).Keys && forall k :: k in rows && k != id ==> rows[k] == old(rows)[k]
      ensures id in rows ==>
        && rows[id].status == status
        && (result.Some? ==> rows[id].result == result) && (result.None? ==> rows[id].result == old(rows)[id].result)
        && (error.Some? ==> rows[id].error == error) && (error.None? ==> rows[id].error == old(rows)[id].error)
        && (attempts.Some? ==> rows[id].attempts == attempts.value)
        && (attempts.None? ==> rows[id].attempts == old(rows)[id].attempts)
        && rows[id].job == old(rows)[id].job && rows[id].provider == old(rows)[id].provider
        && rows[id].maxAttempts == old(rows)[id].maxAttempts && rows[id].createdAt == old(rows)[id].createdAt
    {
      ghost var row := if id in rows then rows[id] else Row(status, Job("", ""), "", 0, 0, None, None, 0);
      var stmt := StatusOnly(id, status);
      StatusOnlyEffect(id, status, row);
      stmt := Bind(stmt, ResultCol, TextOf(result), row);
      stmt := Bind(stmt, ErrorCol, TextOf(error), row);
      stmt := Bind(stmt, AttemptsCol, if attempts.Some? then Some(IntParam(attempts.value)) else None, row);
      if id in rows {
        rows := rows[id := Effect(stmt, rows[id])];
      }
    }

    /** The oldest pending tasks, found by selecting one minimum after another. */
    method GetPending(limit: nat) returns (ids: seq<TaskId>)
      ensures IsPendingSnapshot(rows, ids, limit)
    {
      ids := [];
      var left := set id | id in rows && rows[id].status == Pending;
      while |ids| < limit && left != {}
        invariant |ids| <= limit && Distinct(ids)
        invariant forall i :: 0 <= i < |ids| ==> ids[i] in rows && rows[ids[i]].status == Pending && ids[i] !in left
        invariant forall id :: id in rows && rows[id].status == Pending ==> id in ids || id in left
        invariant forall id :: id in left ==> id in rows && rows[id].status == Pending
        invariant forall i, j :: 0 <= i < j < |ids| ==> rows[ids[i]].createdAt <= rows[ids[j]].createdAt
        invariant forall id, i :: id in left && 0 <= i < |ids| ==> rows[ids[i]].createdAt <= rows[id].createdAt
        decreases |left|
      {
        var oldest := Oldest(left);
        ids := ids + [oldest];
        left := left - {oldest};
      }
    }

    method Oldest(candidates: set<TaskId>) returns (oldest: TaskId)
      requires candidates != {} && candidates <= rows.Keys
      ensures oldest in candidates
      ensures forall id :: id in candidates ==> rows[oldest].createdAt <= rows[id].createdAt
    {
      oldest :| oldest in candidates;
      var left := candidates - {oldest};
      while left != {}
        invariant left <= candidates && oldest in candidates
        invariant forall id :: id in candidates - left ==> rows[oldest].createdAt <= rows[id].createdAt
        decreases |left|
      {
        var id :| id in left;
        if rows[id].createdAt < rows[oldest].createdAt {
          oldest := id;
        }
        left := left - {id};
      }
    }
  }
}
