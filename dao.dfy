/**
 * The post-processing of the task lookup (`dao.queryTasks`): every task found
 * gets its parsed `data` and the secrets of its producer, in place over the
 * lookup's result array. The lookup itself (the `IN` query with the producer
 * join) and the secret query are given as their answers; `JSON.parse` is the
 * parameter `parse`, None where it throws.
 */
module Dao {
  import opened Wrappers
  import opened Records

  /** `error500('通知任务数据有误(data)')`: some task's stored data does not parse. */
  datatype DaoError = BadTaskData(taskId: nat)

  /** `if (task.data)`: the column is neither null nor the empty string. */
  predicate HasData(t: Task)
  {
    t.row.data.Some? && t.row.data.value != ""
  }

  /** `allSecret.filter((s) => s.producerId === pid)`. */
  function SecretsOf(allSecret: seq<Secret>, pid: nat): seq<Secret>
    decreases |allSecret|
  {
    if allSecret == [] then []
    else (if allSecret[0].producerId == pid then [allSecret[0]] else []) + SecretsOf(allSecret[1..], pid)
  }

  /** `notifyTasks.map((t) => t.producerId)`: the ids the secret query asks for. */
  function ProducerIds(ts: seq<Task>): (ids: seq<nat>)
    ensures |ids| == |ts| && forall i :: 0 <= i < |ts| ==> ids[i] == ts[i].row.producerId
    decreases |ts|
  {
    if ts == [] then [] else [ts[0].row.producerId] + ProducerIds(ts[1..])
  }

  /** One iteration of the `forEach`: parse `data` (or `{}`), then attach the producer's secrets. */
  function Hydrate(t: Task, allSecret: seq<Secret>, parse: string -> Option<Json>): Result<Task, DaoError>
  {
    var parsed := if HasData(t) then parse(t.row.data.value) else Some(JObject(map[]));
    if parsed.None? then Err(BadTaskData(t.row.id))
    else Ok(t.(dataParsed := parsed, secrets := Some(SecretsOf(allSecret, t.row.producerId))))
  }

  /** The whole `forEach`: the first task whose data does not parse aborts it. */
  function HydrateAll(ts: seq<Task>, allSecret: seq<Secret>, parse: string -> Option<Json>): Result<seq<Task>, DaoError>
    decreases |ts|
  {
    if ts == [] then Ok([])
    else match HydrateAll(ts[..|ts| - 1], allSecret, parse)
      case Err(err) => Err(err)
      case Ok(done) =>
        match Hydrate(ts[|ts| - 1], allSecret, parse)
        case Err(err) => Err(err)
        case Ok(t) => Ok(done + [t])
  }

  // ---------------------------------------------------------------------------
  // The imperative post-processing
  // ---------------------------------------------------------------------------

  /** The `forEach` that assigns `notifyTasks[i].dataParsed` and `notifyTasks[i].Secrets`. */
  method HydrateInPlace(notifyTasks: array<Task>, allSecret: seq<Secret>, parse: string -> Option<Json>)
    returns (r: Result<(), DaoError>)
    modifies notifyTasks
    ensures r.Ok? ==> HydrateAll(old(notifyTasks[..]), allSecret, parse) == Ok(notifyTasks[..])
    ensures r.Err? ==> HydrateAll(old(notifyTasks[..]), allSecret, parse) == Err(r.error)
  {
    ghost var found := notifyTasks[..];
    var i := 0;
    while i < notifyTasks.Length
      invariant 0 <= i <= notifyTasks.Length
      invariant HydrateAll(found[..i], allSecret, parse) == Ok(notifyTasks[..i])
      invariant notifyTasks[i..] == found[i..]
    {
      assert found[..i + 1][..i] == found[..i];
      assert notifyTasks[i] == found[i];
      var task := notifyTasks[i];
      var parsed := if HasData(task) then parse(task.row.data.value) else Some(JObject(map[]));
      if parsed.None? {
        HydratePrefixFailure(found, allSecret, parse, i + 1);
        return Err(BadTaskData(task.row.id));
      }
      notifyTasks[i] := task.(dataParsed := parsed, secrets := Some(SecretsOf(allSecret, task.row.producerId)));
      assert notifyTasks[..i + 1] == notifyTasks[..i] + [notifyTasks[i]];
      assert notifyTasks[i + 1..] == found[i + 1..] by {
        assert forall k :: i + 1 <= k < notifyTasks.Length ==> notifyTasks[k] == found[k];
      }
      i := i + 1;
    }
    assert found[..notifyTasks.Length] == found;
    assert notifyTasks[..notifyTasks.Length] == notifyTasks[..];
    return Ok(());
  }

  /**
   * `dao.queryTasks` after the lookup returned `notifyTasks`: an empty lookup is
   * returned as it is and no secret query is issued (`secretQuery` is None);
   * otherwise the secret query asks for the tasks' producer ids and the tasks
   * are hydrated in place.
   */
  method QueryTasks(notifyTasks: seq<Task>, allSecret: seq<Secret>, parse: string -> Option<Json>)
    returns (r: Result<seq<Task>, DaoError>, secretQuery: Option<seq<nat>>)
    ensures notifyTasks == [] ==> r == Ok([]) && secretQuery == None
    ensures notifyTasks != [] ==> secretQuery == Some(ProducerIds(notifyTasks))
    ensures r == HydrateAll(notifyTasks, allSecret, parse)
  {
    if |notifyTasks| == 0 {
      return Ok(notifyTasks), None;
    }
    secretQuery := Some(ProducerIds(notifyTasks));
    var a := new Task[|notifyTasks|](i requires 0 <= i < |notifyTasks| => notifyTasks[i]);
    assert a[..] == notifyTasks;
    var h := HydrateInPlace(a, allSecret, parse);
    if h.Err? {
      return Err(h.error), secretQuery;
    }
    r := Ok(a[..]);
  }

  // ---------------------------------------------------------------------------
  // Properties
  // ---------------------------------------------------------------------------

  lemma {:induction false} HydratePrefixFailure(ts: seq<Task>, allSecret: seq<Secret>, parse: string -> Option<Json>, i: nat)
    requires i <= |ts|
    requires HydrateAll(ts[..i], allSecret, parse).Err?
    ensures HydrateAll(ts, allSecret, parse) == HydrateAll(ts[..i], allSecret, parse)
    decreases |ts| - i
  {
    if i < |ts| {
      assert ts[..i + 1][..i] == ts[..i];
      HydratePrefixFailure(ts, allSecret, parse, i + 1);
    } else {
      assert ts[..i] == ts;
    }
  }

  /** The data of this task parses (or there is none to parse). */
  predicate Parses(t: Task, parse: string -> Option<Json>)
  {
    HasData(t) ==> parse(t.row.data.value).Some?
  }

  /**
   * The hydration fails exactly when some task's data does not parse, and it
   * then reports the first such task. When it succeeds, it returns the same
   * tasks in the same order, each with `dataParsed = parse(data)` (or `{}`
   * when there is no data) and `Secrets` = the secrets of its producer; nothing
   * else about a task changes.
   */
  lemma {:induction false} HydrateAllSpec(ts: seq<Task>, allSecret: seq<Secret>, parse: string -> Option<Json>)
    ensures var r := HydrateAll(ts, allSecret, parse);
      && (r.Ok? <==> forall i :: 0 <= i < |ts| ==> Parses(ts[i], parse))
      && (r.Err? ==> exists k :: 0 <= k < |ts| && !Parses(ts[k], parse) && r.error == BadTaskData(ts[k].row.id)
                                   && forall i :: 0 <= i < k ==> Parses(ts[i], parse))
      && (r.Ok? ==>
            && |r.value| == |ts|
            && forall i :: 0 <= i < |ts| ==>
                 && r.value[i].row == ts[i].row
                 && r.value[i].producer == ts[i].producer
                 && r.value[i].dataParsed == (if HasData(ts[i]) then parse(ts[i].row.data.value) else Some(JObject(map[])))
                 && r.value[i].secrets == Some(SecretsOf(allSecret, ts[i].row.producerId)))
    decreases |ts|
  {
    if ts != [] {
      var init := ts[..|ts| - 1];
      HydrateAllSpec(init, allSecret, parse);
      assert forall i :: 0 <= i < |init| ==> init[i] == ts[i];
      var r := HydrateAll(ts, allSecret, parse);
      if r.Err? && HydrateAll(init, allSecret, parse).Ok? {
        assert !Parses(ts[|ts| - 1], parse);
      }
    }
  }

  /**
   * The secrets attached to a task are exactly those of its producer, in the
   * order the secret query returned them: filtering distributes over the
   * answer's concatenation.
   */
  lemma {:induction false} SecretsOfSpec(allSecret: seq<Secret>, more: seq<Secret>, pid: nat)
    ensures forall s :: s in SecretsOf(allSecret, pid) <==> s in allSecret && s.producerId == pid
    ensures |SecretsOf(allSecret, pid)| <= |allSecret|
    ensures SecretsOf(allSecret + more, pid) == SecretsOf(allSecret, pid) + SecretsOf(more, pid)
    decreases |allSecret|
  {
    if allSecret != [] {
      assert (allSecret + more)[1..] == allSecret[1..] + more;
      SecretsOfSpec(allSecret[1..], more, pid);
      assert allSecret == [allSecret[0]] + allSecret[1..];
    } else {
      assert allSecret + more == more;
    }
  }
}
