/**
 * The entities of the task store: a notify task's row, the producer (the
 * notification destination) and its secrets, the hydrated task the
 * dispatcher works on, and the partial update `updateNotifyTask` applies.
 * Times are milliseconds since the epoch.
 */
module Records {
  import opened Wrappers

  datatype Status = Handing | Retry | Succeed | Failure

  /** Only these two states are picked up for dispatch. */
  predicate Dispatchable(s: Status) { s == Handing || s == Retry }

  /** A JSON value, as `JSON.parse` produces it. */
  datatype Json =
    | JNull
    | JBool(b: bool)
    | JNumber(n: real)
    | JString(s: string)
    | JArray(elems: seq<Json>)
    | JObject(fields: map<string, Json>)

  /** A row of the notify-task table (the source's `type` column is `kind` here). */
  datatype TaskRow = TaskRow(
    id: nat,
    kind: string,
    data: Option<string>,
    status: Status,
    producerId: nat,
    retries: nat,
    retryAt: Option<int>,
    handledAt: Option<int>,
    finishedAt: Option<int>,
    failureReasons: Option<string>)

  datatype Producer = Producer(id: nat, name: string, code: string, notifyUrl: Option<string>)

  /** A secret; `secretKey` is the ciphertext stored at rest. */
  datatype Secret = Secret(id: nat, secretId: string, secretKey: string, producerId: nat)

  /**
   * A task as the dispatcher sees it: the row, the joined producer (None when
   * the join found none), and the two properties the hydration assigns
   * (None until it has assigned them).
   */
  datatype Task = Task(row: TaskRow, producer: Option<Producer>, dataParsed: Option<Json>, secrets: Option<seq<Secret>>)

  /**
   * The `values` object of `updateNotifyTask`: None leaves a column alone,
   * Some(v) writes v. `retryAt` and `failureReasons` can also be written as
   * null, so their v is itself an Option; `handledAt` and `finishedAt` are only
   * ever written with a time.
   */
  datatype Patch = Patch(
    status: Option<Status>,
    handledAt: Option<int>,
    finishedAt: Option<int>,
    retries: Option<nat>,
    retryAt: Option<Option<int>>,
    failureReasons: Option<Option<string>>)

  function Overwrite<T>(o: Option<T>, current: T): T
  {
    if o.Some? then o.value else current
  }

  /** The row after writing the listed columns of `p`. */
  function ApplyPatch(row: TaskRow, p: Patch): (r: TaskRow)
    ensures r.id == row.id && r.kind == row.kind && r.data == row.data && r.producerId == row.producerId
  {
    row.(status := Overwrite(p.status, row.status),
         handledAt := if p.handledAt.Some? then p.handledAt else row.handledAt,
         finishedAt := if p.finishedAt.Some? then p.finishedAt else row.finishedAt,
         retries := Overwrite(p.retries, row.retries),
         retryAt := Overwrite(p.retryAt, row.retryAt),
         failureReasons := Overwrite(p.failureReasons, row.failureReasons))
  }

  /** The table after `UPDATE ... WHERE id = id`: no row matches when the id is absent. */
  function UpdateById(rows: map<nat, TaskRow>, p: Patch, id: nat): (rows': map<nat, TaskRow>)
    ensures rows'.Keys == rows.Keys
  {
    if id in rows then rows[id := ApplyPatch(rows[id], p)] else rows
  }

  /** A sequence of updates of the same row, applied in order. */
  function UpdatesById(rows: map<nat, TaskRow>, ps: seq<Patch>, id: nat): (rows': map<nat, TaskRow>)
    ensures rows'.Keys == rows.Keys
    decreases |ps|
  {
    if ps == [] then rows else UpdatesById(UpdateById(rows, ps[0], id), ps[1..], id)
  }

  /**
   * A partial update by id changes exactly the listed columns of the row with
   * that id; every other column and every other row keep their values.
   */
  lemma UpdateChangesOnlyListedFields(rows: map<nat, TaskRow>, p: Patch, id: nat)
    ensures var rows' := UpdateById(rows, p, id);
      && rows'.Keys == rows.Keys
      && (forall k :: k in rows && k != id ==> rows'[k] == rows[k])
      && (id in rows ==>
           var r, r' := rows[id], rows'[id];
           && r'.id == r.id && r'.kind == r.kind && r'.data == r.data && r'.producerId == r.producerId
           && r'.status == (if p.status.Some? then p.status.value else r.status)
           && r'.handledAt == (if p.handledAt.Some? then p.handledAt else r.handledAt)
           && r'.finishedAt == (if p.finishedAt.Some? then p.finishedAt else r.finishedAt)
           && r'.retries == (if p.retries.Some? then p.retries.value else r.retries)
           && r'.retryAt == (if p.retryAt.Some? then p.retryAt.value else r.retryAt)
           && r'.failureReasons == (if p.failureReasons.Some? then p.failureReasons.value else r.failureReasons))
  {
  }

  /** A sequence of updates of one row leaves every other row alone. */
  lemma {:induction false} UpdatesTouchOneRow(rows: map<nat, TaskRow>, ps: seq<Patch>, id: nat)
    ensures forall k :: k in rows && k != id ==> UpdatesById(rows, ps, id)[k] == rows[k]
    decreases |ps|
  {
    if ps != [] {
      UpdatesTouchOneRow(UpdateById(rows, ps[0], id), ps[1..], id);
    }
  }

  /** Applying one more update after a sequence of them is the sequence extended by it. */
  lemma {:induction false} UpdatesSnoc(rows: map<nat, TaskRow>, ps: seq<Patch>, p: Patch, id: nat)
    ensures UpdatesById(rows, ps + [p], id) == UpdateById(UpdatesById(rows, ps, id), p, id)
    decreases |ps|
  {
    if ps == [] {
      assert [] + [p] == [p];
    } else {
      assert (ps + [p])[1..] == ps[1..] + [p];
      UpdatesSnoc(UpdateById(rows, ps[0], id), ps[1..], p, id);
    }
  }

  /** One or two updates in a row, unfolded. */
  lemma UpdatesOneOrTwo(rows: map<nat, TaskRow>, p: Patch, q: Patch, id: nat)
    ensures UpdatesById(rows, [p], id) == UpdateById(rows, p, id)
    ensures UpdatesById(rows, [p, q], id) == UpdateById(UpdateById(rows, p, id), q, id)
  {
    assert [p][1..] == [];
    assert [p, q][1..] == [q];
    assert [q][1..] == [];
    var rows1 := UpdateById(rows, p, id);
    assert UpdatesById(rows, [p, q], id) == UpdatesById(rows1, [q], id);
    assert UpdatesById(rows1, [q], id) == UpdatesById(UpdateById(rows1, q, id), [], id);
  }

  /** The table the dispatcher updates (`updateNotifyTask`), keyed by primary key. */
  class TaskStore {
    var rows: map<nat, TaskRow>

    constructor (initial: map<nat, TaskRow>)
      ensures rows == initial
    {
      rows := initial;
    }

    /** `updateNotifyTask(values, { id })`: last writer wins, no locking. */
    method UpdateNotifyTask(values: Patch, id: nat)
      modifies this
      ensures rows == UpdateById(old(rows), values, id)
    {
      if id in rows {
        rows := rows[id := ApplyPatch(rows[id], values)];
      }
    }
  }
}
