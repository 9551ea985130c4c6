/**
 * The per-task state machine of the dispatcher: `notify` validates the
 * destination and the secret, marks the task as handled, signs and posts the
 * notification and marks it as succeeded; `handler` turns an error of
 * `notify` into a failure or a scheduled retry. Both write through
 * `updateNotifyTask` into the task table.
 *
 * Library calls are parameters (`Env`): URL parsing, AES decryption,
 * HMAC-SHA1, Base64, `JSON.stringify`, the HTTP POST (true when it resolves)
 * and the failure-reason text `JSON.stringify({ message, stack })`, which
 * depends on the error thrown. The clock readings of one run are a `Clock`.
 */
module Dispatch {
  import opened Wrappers
  import opened JsStrings
  import opened Records
  import opened QueryString
  import opened Signing
  import opened Backoff

  /** The ways `notify` can throw; only a failed POST carries `retry = true`. */
  datatype NotifyError =
    | SecretsMissing      // `const [secret] = Secrets` on an undefined list
    | NoNotifyUrl         // no producer, or its `notifyUrl` is null or ""
    | NoSecret            // the producer has no secret
    | InvalidUrl          // `new URL(notifyUrl)` throws
    | NoPayload           // `task.dataParsed.body` on a null or undefined `dataParsed`
    | KeyNotDecryptable   // `aesDecrypt(secretKey)` throws
    | DeliveryFailed      // the POST rejected

  predicate Retryable(e: NotifyError) { e == DeliveryFailed }

  datatype Url = Url(pathname: string)

  datatype Env = Env(
    parseUrl: string -> Option<Url>,
    aesDecrypt: string -> Option<string>,
    hmacSha1: (string, string) -> Digest,
    base64: Digest -> string,
    stringify: Json -> string,
    post: Request -> bool,
    describe: NotifyError -> string)

  /** The readings of `Date.now()` / `moment()` in one run, in milliseconds, in call order. */
  datatype Clock = Clock(handledAt: nat, signedAt: nat, succeededAt: nat, failedAt: nat, retryBase: nat)

  /** The POST: `url`, the two headers and `data` (None when `JSON.stringify` gave undefined). */
  datatype Request = Request(url: string, contentType: string, authorization: string, body: Option<string>)

  /** Where a validated task goes: the producer's URL and the first of its secrets. */
  datatype Target = Target(notifyUrl: string, secret: Secret)

  /** The checks before the first write (src/service.js:137-142). */
  function Validate(task: Task): Result<Target, NotifyError>
  {
    if task.secrets.None? then Err(SecretsMissing)
    else if task.producer.None? || task.producer.value.notifyUrl.None? || task.producer.value.notifyUrl.value == "" then Err(NoNotifyUrl)
    else if task.secrets.value == [] then Err(NoSecret)
    else Ok(Target(task.producer.value.notifyUrl.value, task.secrets.value[0]))
  }

  /** The handled-mark: the attempt is counted only when an earlier one scheduled a retry. */
  function HandledMark(row: TaskRow, handledAt: nat): Patch
  {
    Patch(status := None, handledAt := Some(handledAt), finishedAt := None,
          retries := Some(if row.retryAt.None? then 0 else row.retries + 1),
          retryAt := None, failureReasons := None)
  }

  function SucceedMark(finishedAt: nat): Patch
  {
    Patch(status := Some(Succeed), handledAt := None, finishedAt := Some(finishedAt),
          retries := None, retryAt := None, failureReasons := None)
  }

  /** `JSON.stringify(task.dataParsed.body)`: a missing `body` field stringifies to undefined. */
  function RawBody(dataParsed: Option<Json>, stringify: Json -> string): Result<Option<string>, NotifyError>
  {
    if dataParsed.None? || dataParsed.value.JNull? then Err(NoPayload)
    else if dataParsed.value.JObject? && "body" in dataParsed.value.fields then Ok(Some(stringify(dataParsed.value.fields["body"])))
    else Ok(None)
  }

  /** The signed request `notify` posts to a validated target (src/service.js:153-178). */
  function BuildRequest(task: Task, target: Target, env: Env, signedAt: nat): Result<Request, NotifyError>
  {
    var url := env.parseUrl(target.notifyUrl);
    if url.None? then Err(InvalidUrl)
    else
      var timestamp := UnixSeconds(signedAt);
      // `getQueryStr(url.searchParams)`: a URLSearchParams object has no own
      // enumerable keys, so the signer always signs an empty query string.
      var queryStr := QueryStr(map[], []);
      var rawBody := RawBody(task.dataParsed, env.stringify);
      if rawBody.Err? then Err(rawBody.error)
      else
        var key := env.aesDecrypt(target.secret.secretKey);
        if key.None? then Err(KeyNotDecryptable)
        else
          var message := CanonicalString(target.secret.secretId, NatToString(timestamp), url.value.pathname, queryStr, BodyText(rawBody.value));
          var signature := Signature(message, key.value, env.hmacSha1, env.base64);
          Ok(Request(target.notifyUrl, "application/json", AuthHeader(target.secret.secretId, timestamp, signature), rawBody.value))
  }

  /** What one run of `notify` does: the writes it makes, the request it posts and the error it throws. */
  datatype Attempt = Attempt(writes: seq<Patch>, request: Option<Request>, error: Option<NotifyError>)

  function NotifyAttempt(task: Task, env: Env, clock: Clock): Attempt
  {
    var target := Validate(task);
    if target.Err? then Attempt([], None, Some(target.error))
    else
      var handled := HandledMark(task.row, clock.handledAt);
      var request := BuildRequest(task, target.value, env, clock.signedAt);
      if request.Err? then Attempt([handled], None, Some(request.error))
      else if !env.post(request.value) then Attempt([handled], Some(request.value), Some(DeliveryFailed))
      else Attempt([handled, SucceedMark(clock.succeededAt)], Some(request.value), None)
  }

  /** The writes of one run of `handler`: those of `notify`, then the failure record if it threw. */
  function HandlerWrites(task: Task, env: Env, clock: Clock): seq<Patch>
  {
    var a := NotifyAttempt(task, env, clock);
    if a.error.None? then a.writes
    else a.writes + [FailureMark(task.row.retries, Retryable(a.error.value), clock.failedAt, clock.retryBase, env.describe(a.error.value))]
  }

  // ---------------------------------------------------------------------------
  // The imperative notify and handler
  // ---------------------------------------------------------------------------

  /** `notify(task)`: two ordered writes around the POST; an exception is the returned `error`. */
  method Notify(store: TaskStore, task: Task, env: Env, clock: Clock) returns (request: Option<Request>, error: Option<NotifyError>)
    modifies store
    ensures request == NotifyAttempt(task, env, clock).request
    ensures error == NotifyAttempt(task, env, clock).error
    ensures store.rows == UpdatesById(old(store.rows), NotifyAttempt(task, env, clock).writes, task.row.id)
  {
    if task.secrets.None? {
      return None, Some(SecretsMissing);
    }
    var secrets := task.secrets.value;
    var producer := task.producer;
    if producer.None? || producer.value.notifyUrl.None? || producer.value.notifyUrl.value == "" {
      return None, Some(NoNotifyUrl);
    }
    if |secrets| == 0 {
      return None, Some(NoSecret);
    }
    var secret := secrets[0];
    var notifyUrl := producer.value.notifyUrl.value;

    var handled := Patch(status := None, handledAt := Some(clock.handledAt), finishedAt := None,
                         retries := Some(if task.row.retryAt.None? then 0 else task.row.retries + 1),
                         retryAt := None, failureReasons := None);
    store.UpdateNotifyTask(handled, task.row.id);
    UpdatesOneOrTwo(old(store.rows), handled, handled, task.row.id);

    var url := env.parseUrl(notifyUrl);
    if url.None? {
      return None, Some(InvalidUrl);
    }
    var timestamp := clock.signedAt / 1000;
    var path := url.value.pathname;
    // `url.searchParams` has no own enumerable keys: the query is always empty.
    var queryStr := GetQueryStr(map[], []);
    if task.dataParsed.None? || task.dataParsed.value.JNull? {
      return None, Some(NoPayload);
    }
    var rawBody := None;
    if task.dataParsed.value.JObject? && "body" in task.dataParsed.value.fields {
      rawBody := Some(env.stringify(task.dataParsed.value.fields["body"]));
    }
    var key := env.aesDecrypt(secret.secretKey);
    if key.None? {
      return None, Some(KeyNotDecryptable);
    }
    var signature := env.base64(env.hmacSha1(secret.secretId + NatToString(timestamp) + path + queryStr + BodyText(rawBody), key.value));

    var sent := Request(notifyUrl, "application/json", AuthHeader(secret.secretId, timestamp, signature), rawBody);
    request := Some(sent);
    if !env.post(sent) {
      return request, Some(DeliveryFailed);
    }

    var succeeded := Patch(status := Some(Succeed), handledAt := None, finishedAt := Some(clock.succeededAt),
                           retries := None, retryAt := None, failureReasons := None);
    store.UpdateNotifyTask(succeeded, task.row.id);
    UpdatesOneOrTwo(old(store.rows), handled, succeeded, task.row.id);
    error := None;
  }

  /** `handler(task)`: run `notify`; if it threw, write a failure, or a retry when the error allows one. */
  method Handler(store: TaskStore, task: Task, env: Env, clock: Clock) returns (request: Option<Request>)
    modifies store
    ensures request == NotifyAttempt(task, env, clock).request
    ensures store.rows == UpdatesById(old(store.rows), HandlerWrites(task, env, clock), task.row.id)
  {
    ghost var before := store.rows;
    var error;
    request, error := Notify(store, task, env, clock);
    if error.Some? {
      var data := Patch(status := Some(Failure), handledAt := None, finishedAt := Some(clock.failedAt),
                        retries := None, retryAt := Some(None), failureReasons := Some(Some(env.describe(error.value))));
      if Retryable(error.value) {
        data := data.(status := Some(if task.row.retries > 9 then Failure else Retry));
        var interval := RetryInterval(task.row.retries);
        data := data.(retryAt := Some(if interval.Some? then Some(clock.retryBase + IntervalMillis(interval.value)) else None));
      }
      assert data == FailureMark(task.row.retries, Retryable(error.value), clock.failedAt, clock.retryBase, env.describe(error.value));
      store.UpdateNotifyTask(data, task.row.id);
      UpdatesSnoc(before, NotifyAttempt(task, env, clock).writes, data, task.row.id);
    }
  }

  // ---------------------------------------------------------------------------
  // Properties
  // ---------------------------------------------------------------------------

  /**
   * A task is rejected before any write exactly when its secret list is
   * missing, it has no producer, the producer's URL is null or empty, or the
   * list is empty; otherwise the target is the producer's URL and first secret.
   */
  lemma ValidateSpec(task: Task)
    ensures Validate(task).Err? <==>
      || task.secrets.None? || task.producer.None? || task.producer.value.notifyUrl.None?
      || task.producer.value.notifyUrl.value == "" || task.secrets.value == []
    ensures Validate(task).Ok? ==>
      && Validate(task).value.notifyUrl == task.producer.value.notifyUrl.value
      && Validate(task).value.secret == task.secrets.value[0]
  {
  }

  /**
   * A task that fails validation is not written by `notify`, nothing is
   * posted, the error is not retryable, and `handler` finalises the task as a
   * failure with no retry time, leaving `handledAt` and `retries` alone.
   */
  lemma RejectedTaskFailsOutright(task: Task, env: Env, clock: Clock)
    requires Validate(task).Err?
    ensures var a := NotifyAttempt(task, env, clock);
      && a.writes == [] && a.request.None? && a.error == Some(Validate(task).error) && !Retryable(a.error.value)
      && HandlerWrites(task, env, clock) == [FailureMark(task.row.retries, false, clock.failedAt, clock.retryBase, env.describe(a.error.value))]
      && HandlerWrites(task, env, clock)[0].status == Some(Failure)
      && HandlerWrites(task, env, clock)[0].retryAt == Some(None)
  {
    var e := Validate(task).error;
    assert !Retryable(e) by {
      assert e != DeliveryFailed;
    }
    FailureMarkSpec(task.row.retries, false, clock.failedAt, clock.retryBase, env.describe(e));
  }

  /**
   * `notify` succeeds exactly when the task validates, the request can be
   * built and the POST resolves; only a failed POST is retryable, and a
   * request is posted exactly when the task validates and it can be built.
   */
  lemma NotifyOutcome(task: Task, env: Env, clock: Clock)
    ensures var a := NotifyAttempt(task, env, clock);
      var built := if Validate(task).Ok? then BuildRequest(task, Validate(task).value, env, clock.signedAt) else Err(Validate(task).error);
      && (a.request.Some? <==> built.Ok?)
      && (a.request.Some? ==> a.request.value == built.value)
      && (a.error.None? <==> built.Ok? && env.post(built.value))
      && (a.error.Some? && Retryable(a.error.value) <==> built.Ok? && !env.post(built.value))
      && (a.writes == [] <==> Validate(task).Err?)
      && (a.writes != [] ==> a.writes[0] == HandledMark(task.row, clock.handledAt))
  {
    if Validate(task).Ok? {
      var b := BuildRequest(task, Validate(task).value, env, clock.signedAt);
      if b.Err? {
        assert b.error != DeliveryFailed;
      }
    } else {
      assert Validate(task).error != DeliveryFailed;
    }
  }

  /**
   * The handled-mark sets `handledAt` to the first clock reading and `retries`
   * to 0 when no retry was scheduled (`retryAt` null), else to one more than
   * the loaded count; nothing else.
   */
  lemma HandledMarkSpec(rows: map<nat, TaskRow>, row: TaskRow, handledAt: nat)
    requires row.id in rows
    ensures var r, r' := rows[row.id], UpdateById(rows, HandledMark(row, handledAt), row.id)[row.id];
      r' == r.(handledAt := Some(handledAt), retries := if row.retryAt.None? then 0 else row.retries + 1)
  {
  }

  /**
   * The state of the task's row after one run of `handler`, starting from
   * `rows`: it is `succeed`, `retry` or `failure`; `succeed` exactly when
   * `notify` did not throw, `retry` exactly when the POST failed and the
   * loaded count is at most 9. On success only status and finishedAt change
   * after the handled-mark; on failure status, finishedAt, failureReasons and
   * retryAt; `retries` and `handledAt` are only ever written by the
   * handled-mark.
   */
  lemma HandlerOutcome(rows: map<nat, TaskRow>, task: Task, env: Env, clock: Clock)
    requires task.row.id in rows
    ensures var id, a := task.row.id, NotifyAttempt(task, env, clock);
      var r, r' := rows[id], UpdatesById(rows, HandlerWrites(task, env, clock), id)[id];
      var retrying := a.error == Some(DeliveryFailed) && task.row.retries <= 9;
      && id in UpdatesById(rows, HandlerWrites(task, env, clock), id)
      && r'.id == r.id && r'.kind == r.kind && r'.data == r.data && r'.producerId == r.producerId
      && (r'.status == Succeed || r'.status == Retry || r'.status == Failure)
      && (r'.status == Succeed <==> a.error.None?)
      && (r'.status == Retry <==> retrying)
      && (r'.status == Failure <==> a.error.Some? && !retrying)
      && r'.handledAt == (if Validate(task).Ok? then Some(clock.handledAt) else r.handledAt)
      && r'.retries == (if Validate(task).Ok? then (if task.row.retryAt.None? then 0 else task.row.retries + 1) else r.retries)
      && (a.error.None? ==>
            r'.finishedAt == Some(clock.succeededAt) && r'.retryAt == r.retryAt && r'.failureReasons == r.failureReasons)
      && (a.error.Some? ==>
            && r'.finishedAt == Some(clock.failedAt)
            && r'.failureReasons == Some(env.describe(a.error.value))
            && r'.retryAt == (if retrying then Some(clock.retryBase + RetryDelayMillis(task.row.retries).value) else None))
  {
    var id, a := task.row.id, NotifyAttempt(task, env, clock);
    NotifyOutcome(task, env, clock);
    var ws := HandlerWrites(task, env, clock);
    if Validate(task).Err? {
      RejectedTaskFailsOutright(task, env, clock);
      UpdatesOneOrTwo(rows, ws[0], ws[0], id);
    } else {
      var h := HandledMark(task.row, clock.handledAt);
      var rows1 := UpdateById(rows, h, id);
      assert a.writes[0] == h;
      if a.error.None? {
        assert ws == [h, SucceedMark(clock.succeededAt)];
        UpdatesOneOrTwo(rows, h, SucceedMark(clock.succeededAt), id);
      } else {
        var e := a.error.value;
        var f := FailureMark(task.row.retries, Retryable(e), clock.failedAt, clock.retryBase, env.describe(e));
        FailureMarkSpec(task.row.retries, Retryable(e), clock.failedAt, clock.retryBase, env.describe(e));
        assert a.writes == [h];
        assert ws == [h] + [f];
        UpdatesOneOrTwo(rows, h, f, id);
      }
    }
  }

  /** The failure record never writes `retries` or `handledAt`, whatever the error. */
  lemma HandlerWritesRetriesOnlyInHandledMark(task: Task, env: Env, clock: Clock)
    ensures forall i :: 0 <= i < |HandlerWrites(task, env, clock)| && HandlerWrites(task, env, clock)[i].retries.Some? ==>
      i == 0 && HandlerWrites(task, env, clock)[i] == HandledMark(task.row, clock.handledAt)
  {
    var a := NotifyAttempt(task, env, clock);
    NotifyOutcome(task, env, clock);
    if a.error.Some? {
      var e := a.error.value;
      FailureMarkSpec(task.row.retries, Retryable(e), clock.failedAt, clock.retryBase, env.describe(e));
    }
  }

  /**
   * The ten-retry limit: a task loaded with 10 or more counted attempts is
   * finalised as a failure with no retry time even when its POST fails.
   */
  lemma RetryLimit(rows: map<nat, TaskRow>, task: Task, env: Env, clock: Clock)
    requires task.row.id in rows && task.row.retries >= 10
    requires NotifyAttempt(task, env, clock).error == Some(DeliveryFailed)
    ensures UpdatesById(rows, HandlerWrites(task, env, clock), task.row.id)[task.row.id].status == Failure
    ensures UpdatesById(rows, HandlerWrites(task, env, clock), task.row.id)[task.row.id].retryAt == None
  {
    HandlerOutcome(rows, task, env, clock);
  }

  /**
   * The backoff reads the count as loaded, before the handled-mark's
   * increment: a fresh task's first attempt (no retries, retryAt null) whose POST fails is retried
   * after 15 s with `retries` 0; when that retry's POST fails too, `retries`
   * becomes 1 but the next delay is again the 15 s of entry 0.
   */
  lemma PreIncrementBackoff(rows: map<nat, TaskRow>, task: Task, env: Env, first: Clock, second: Clock)
    requires task.row.id in rows && rows[task.row.id] == task.row
    requires task.row.retries == 0 && task.row.retryAt.None?
    requires NotifyAttempt(task, env, first).error == Some(DeliveryFailed)
    ensures var rows1 := UpdatesById(rows, HandlerWrites(task, env, first), task.row.id);
      var row1 := rows1[task.row.id];
      && row1.status == Retry && row1.retries == 0 && row1.retryAt == Some(first.retryBase + 15_000)
      && (NotifyAttempt(task.(row := row1), env, second).error == Some(DeliveryFailed) ==>
            var rows2 := UpdatesById(rows1, HandlerWrites(task.(row := row1), env, second), task.row.id);
            var row2 := rows2[task.row.id];
            row2.status == Retry && row2.retries == 1 && row2.retryAt == Some(second.retryBase + 15_000))
  {
    var id := task.row.id;
    NotifyOutcome(task, env, first);
    HandlerOutcome(rows, task, env, first);
    BackoffSchedule(0);
    var rows1 := UpdatesById(rows, HandlerWrites(task, env, first), id);
    var task1 := task.(row := rows1[id]);
    assert task1.row.id == id;
    if NotifyAttempt(task1, env, second).error == Some(DeliveryFailed) {
      NotifyOutcome(task1, env, second);
      HandlerOutcome(rows1, task1, env, second);
    }
  }
}
