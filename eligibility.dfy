/**
 * The service's `queryTasks`: after the store lookup, walk the requested task
 * ids in order and keep the task each one names, when there is one and it is
 * still waiting for dispatch (`handing` or `retry`). Ids are compared as the
 * strings `${t.id}` and `${taskId}`.
 */
module Eligibility {
  import opened Wrappers
  import opened JsStrings
  import opened QueueReply
  import opened Records
  import Dao

  /**
   * `${v}` for a value taken from a queue reply: a string is itself, nil is
   * "null", and an array is its elements' strings joined with "," (nil
   * elements giving "").
   */
  function ReplyString(r: Reply): string
    decreases r
  {
    match r
    case Nil => "null"
    case Bulk(s) => s
    case Multi(items) =>
      Join(seq(|items|, i requires 0 <= i < |items| => if items[i].Nil? then "" else ReplyString(items[i])), ",")
  }

  /** `rsts.find((t) => `${t.id}` === key)`. */
  function FindTask(rsts: seq<Task>, key: string): (r: Option<Task>)
    ensures r.Some? ==> r.value in rsts && NatToString(r.value.row.id) == key
    ensures r.Some? ==>
      exists i :: (0 <= i < |rsts| && rsts[i] == r.value &&
        forall j :: 0 <= j < i ==> NatToString(rsts[j].row.id) != key)
    ensures r.None? ==> forall t :: t in rsts ==> NatToString(t.row.id) != key
    decreases |rsts|
  {
    if rsts == [] then None
    else if NatToString(rsts[0].row.id) == key then Some(rsts[0])
    else FindTask(rsts[1..], key)
  }

  /** What one iteration of the loop pushes for `taskId`: the named task, if it is dispatchable. */
  function Pick(taskId: Reply, rsts: seq<Task>): seq<Task>
  {
    var task := FindTask(rsts, ReplyString(taskId));
    if task.None? then []
    else if !Dispatchable(task.value.row.status) then []
    else [task.value]
  }

  /** The tasks the loop keeps for `taskIds`, in their order. */
  function Eligible(taskIds: seq<Reply>, rsts: seq<Task>): seq<Task>
    decreases |taskIds|
  {
    if taskIds == [] then []
    else Eligible(taskIds[..|taskIds| - 1], rsts) + Pick(taskIds[|taskIds| - 1], rsts)
  }

  // ---------------------------------------------------------------------------
  // The imperative filter
  // ---------------------------------------------------------------------------

  /** The loop of `queryTasks` over the lookup result `rsts`. */
  method FilterTasks(taskIds: seq<Reply>, rsts: seq<Task>) returns (tasks: seq<Task>)
    ensures tasks == Eligible(taskIds, rsts)
  {
    tasks := [];
    var i := 0;
    while i < |taskIds|
      invariant 0 <= i <= |taskIds|
      invariant tasks == Eligible(taskIds[..i], rsts)
    {
      assert taskIds[..i + 1][..i] == taskIds[..i];
      var taskId := taskIds[i];
      var task := FindTask(rsts, ReplyString(taskId));
      if task.None? {
        i := i + 1;
        continue;
      }
      if !Dispatchable(task.value.row.status) {
        i := i + 1;
        continue;
      }
      tasks := tasks + [task.value];
      i := i + 1;
    }
    assert taskIds[..|taskIds|] == taskIds;
    if |tasks| <= 0 {
      return [];
    }
  }

  /**
   * `queryTasks(taskIds)`: hydrate the store's lookup result `found` (an error
   * of the hydration propagates), then filter it by `taskIds`.
   */
  method QueryTasks(taskIds: seq<Reply>, found: seq<Task>, allSecret: seq<Secret>, parse: string -> Option<Json>)
    returns (r: Result<seq<Task>, Dao.DaoError>)
    ensures var hydrated := Dao.HydrateAll(found, allSecret, parse);
      && (r.Ok? <==> hydrated.Ok?)
      && (r.Ok? ==> r.value == Eligible(taskIds, hydrated.value))
      && (r.Err? ==> r.error == hydrated.error)
  {
    var rsts, _ := Dao.QueryTasks(found, allSecret, parse);
    if rsts.Err? {
      return Err(rsts.error);
    }
    var tasks := FilterTasks(taskIds, rsts.value);
    return Ok(tasks);
  }

  // ---------------------------------------------------------------------------
  // Properties
  // ---------------------------------------------------------------------------

  /** The filter is applied id by id: it distributes over concatenation of the id list. */
  lemma {:induction false} EligibleAppend(a: seq<Reply>, b: seq<Reply>, rsts: seq<Task>)
    ensures Eligible(a + b, rsts) == Eligible(a, rsts) + Eligible(b, rsts)
    decreases |b|
  {
    if b == [] {
      assert a + b == a;
    } else {
      var b' := b[..|b| - 1];
      assert (a + b)[..|a + b| - 1] == a + b';
      assert (a + b)[|a + b| - 1] == b[|b| - 1];
      EligibleAppend(a, b', rsts);
    }
  }

  /**
   * Every task kept is one of the looked-up tasks, is named by one of the
   * requested ids (as strings) and is `handing` or `retry`; at most one task is
   * kept per id.
   */
  lemma {:induction false} EligibleSound(taskIds: seq<Reply>, rsts: seq<Task>)
    ensures |Eligible(taskIds, rsts)| <= |taskIds|
    ensures forall t :: t in Eligible(taskIds, rsts) ==>
      && t in rsts && Dispatchable(t.row.status)
      && exists j :: 0 <= j < |taskIds| && NatToString(t.row.id) == ReplyString(taskIds[j])
    decreases |taskIds|
  {
    if taskIds != [] {
      var init := taskIds[..|taskIds| - 1];
      EligibleSound(init, rsts);
      forall t | t in Eligible(taskIds, rsts)
        ensures exists j :: 0 <= j < |taskIds| && NatToString(t.row.id) == ReplyString(taskIds[j])
      {
        if t in Eligible(init, rsts) {
          var j :| 0 <= j < |init| && NatToString(t.row.id) == ReplyString(init[j]);
          assert init[j] == taskIds[j];
        } else {
          assert NatToString(t.row.id) == ReplyString(taskIds[|taskIds| - 1]);
        }
      }
    }
  }

  /** The contribution of the id at position `j` sits between those of the ids before and after it. */
  lemma EligibleAt(taskIds: seq<Reply>, rsts: seq<Task>, j: nat)
    requires j < |taskIds|
    ensures Eligible(taskIds, rsts) ==
      Eligible(taskIds[..j], rsts) + Pick(taskIds[j], rsts) + Eligible(taskIds[j + 1..], rsts)
  {
    var pre, x, post := taskIds[..j], taskIds[j], taskIds[j + 1..];
    assert taskIds == pre + [x] + post;
    EligibleAppend(pre + [x], post, rsts);
    EligibleAppend(pre, [x], rsts);
    assert [x][..0] == [];
    assert Eligible([x], rsts) == Pick(x, rsts);
  }

  /**
   * Conversely, every requested id that names a dispatchable looked-up task
   * contributes that task (the first looked-up task with that id).
   */
  lemma EligibleComplete(taskIds: seq<Reply>, rsts: seq<Task>, j: nat)
    requires j < |taskIds|
    requires FindTask(rsts, ReplyString(taskIds[j])).Some?
    requires Dispatchable(FindTask(rsts, ReplyString(taskIds[j])).value.row.status)
    ensures FindTask(rsts, ReplyString(taskIds[j])).value in Eligible(taskIds, rsts)
  {
    EligibleAt(taskIds, rsts, j);
  }

  /** An id with no matching task, or whose task is not dispatchable, is skipped. */
  lemma SkippedId(taskIds: seq<Reply>, rsts: seq<Task>, j: nat)
    requires j < |taskIds|
    requires FindTask(rsts, ReplyString(taskIds[j])).None?
          || !Dispatchable(FindTask(rsts, ReplyString(taskIds[j])).value.row.status)
    ensures Eligible(taskIds, rsts) == Eligible(taskIds[..j], rsts) + Eligible(taskIds[j + 1..], rsts)
  {
    EligibleAt(taskIds, rsts, j);
    assert Pick(taskIds[j], rsts) == [];
  }

  /** The queue carries the decimal id of a task, which names that task. */
  lemma DecimalIdFindsTask(rsts: seq<Task>, t: Task)
    requires t in rsts
    requires forall u :: u in rsts && u.row.id == t.row.id ==> u == t
    ensures FindTask(rsts, ReplyString(Bulk(NatToString(t.row.id)))) == Some(t)
  {
    var r := FindTask(rsts, NatToString(t.row.id));
    assert r.Some?;
    DecimalRoundTrip(r.value.row.id);
    DecimalRoundTrip(t.row.id);
  }
}
