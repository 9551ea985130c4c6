/**
 * The queue-reply decoder of the consumer loop (`readMsgs`): it takes the
 * reply of a consumer-group read on the task stream and extracts, in entry
 * order, the `tid` value of every message, or rejects the whole reply.
 *
 * The reply is a value of the queue protocol: nil, a bulk string or an array
 * of replies. JavaScript's destructuring and truthiness are written out:
 * reading past the end of an array gives `undefined` (None), and only nil and
 * the empty string are falsy.
 */
module QueueReply {
  import opened Wrappers

  datatype Reply = Nil | Bulk(s: string) | Multi(items: seq<Reply>)

  /** The errors `readMsgs` raises, one per check, in the order the checks run. */
  datatype ReadError =
    | MalformedReply     // not an array whose first element is an array
    | WrongStream        // the first stream key is not the task stream's name
    | EntriesNotIndexable // `infos.length` on nil or undefined raises a TypeError
    | BadMessageId       // an entry without a (truthy) message id
    | BadContent         // an entry whose content is not an array
    | BadField           // the content's first field is not `tid`
    | BadTid             // the `tid` value is missing or empty

  /** JavaScript truthiness of a reply value. */
  predicate Truthy(r: Reply)
  {
    match r
    case Nil => false
    case Bulk(s) => s != ""
    case Multi(_) => true
  }

  predicate TruthyAt(xs: seq<Reply>, i: nat)
  {
    i < |xs| && Truthy(xs[i])
  }

  /** The stream name the service reads: the configured key under the `insbiz:` namespace. */
  function StreamName(queueKey: string): string
  {
    "insbiz:" + queueKey
  }

  /** One iteration of the entry loop: `const [id, content] = infos[i] || []` and the four checks. */
  function DecodeEntry(e: Reply): Result<Reply, ReadError>
  {
    match e
    case Nil => Err(BadMessageId)
    // a non-empty string destructures into its characters: the id is its first
    // character and the content is a one-character string or undefined
    case Bulk(s) => if s == "" then Err(BadMessageId) else Err(BadContent)
    case Multi(xs) =>
      if !TruthyAt(xs, 0) then Err(BadMessageId)
      else if !(|xs| >= 2 && xs[1].Multi?) then Err(BadContent)
      else
        var content := xs[1].items;
        if At(content, 0) != Some(Bulk("tid")) then Err(BadField)
        else if !TruthyAt(content, 1) then Err(BadTid)
        else Ok(content[1])
  }

  /** The entry loop over a list of entries: the first failing entry decides the error. */
  function DecodeEntries(es: seq<Reply>): Result<seq<Reply>, ReadError>
    decreases |es|
  {
    if es == [] then Ok([])
    else match DecodeEntries(es[..|es| - 1])
      case Err(err) => Err(err)
      case Ok(ids) =>
        match DecodeEntry(es[|es| - 1])
        case Err(err) => Err(err)
        case Ok(v) => Ok(ids + [v])
  }

  /** The loop over `infos`, whatever value the reply put there. */
  function DecodeInfos(infos: Option<Reply>): Result<seq<Reply>, ReadError>
  {
    match infos
    case None => Err(EntriesNotIndexable)
    case Some(Nil) => Err(EntriesNotIndexable)
    // a string is indexable: its first character gives an entry without content
    case Some(Bulk(s)) => if s == "" then Ok([]) else Err(BadContent)
    case Some(Multi(es)) => DecodeEntries(es)
  }

  /** What `readMsgs` returns or raises for the reply `rst`. */
  function DecodeReply(rst: Reply, queueKey: string): Result<seq<Reply>, ReadError>
  {
    if !Truthy(rst) then Ok([])
    else if !(rst.Multi? && |rst.items| > 0 && rst.items[0].Multi?) then Err(MalformedReply)
    else
      var stream := rst.items[0].items;
      if At(stream, 0) != Some(Bulk(StreamName(queueKey))) then Err(WrongStream)
      else DecodeInfos(At(stream, 1))
  }

  // ---------------------------------------------------------------------------
  // The imperative decoder
  // ---------------------------------------------------------------------------

  /** `readMsgs` after the read: the shape checks, then the index loop that pushes each `tid`. */
  method ReadMsgs(rst: Reply, queueKey: string) returns (r: Result<seq<Reply>, ReadError>)
    ensures r == DecodeReply(rst, queueKey)
  {
    if !Truthy(rst) {
      return Ok([]);
    }
    if !rst.Multi? || |rst.items| == 0 || !rst.items[0].Multi? {
      return Err(MalformedReply);
    }
    var stream := rst.items[0].items;
    if At(stream, 0) != Some(Bulk(StreamName(queueKey))) {
      return Err(WrongStream);
    }
    var infos := At(stream, 1);
    if infos.None? || infos.value.Nil? {
      return Err(EntriesNotIndexable);
    }
    if infos.value.Bulk? {
      if infos.value.s == "" {
        return Ok([]);
      }
      return Err(BadContent);
    }
    var es := infos.value.items;
    var taskIds: seq<Reply> := [];
    var i := 0;
    while i < |es|
      invariant 0 <= i <= |es|
      invariant DecodeEntries(es[..i]) == Ok(taskIds)
    {
      assert es[..i + 1][..i] == es[..i];
      var entry := DecodeEntry(es[i]);
      if entry.Err? {
        PrefixFailure(es, i + 1);
        return Err(entry.error);
      }
      taskIds := taskIds + [entry.value];
      i := i + 1;
    }
    assert es[..|es|] == es;
    return Ok(taskIds);
  }

  // ---------------------------------------------------------------------------
  // Properties
  // ---------------------------------------------------------------------------

  /** A failure on a prefix of the entries is the failure of the whole list. */
  lemma {:induction false} PrefixFailure(es: seq<Reply>, i: nat)
    requires i <= |es|
    requires DecodeEntries(es[..i]).Err?
    ensures DecodeEntries(es) == DecodeEntries(es[..i])
    decreases |es| - i
  {
    if i < |es| {
      assert es[..i + 1][..i] == es[..i];
      PrefixFailure(es, i + 1);
    } else {
      assert es[..i] == es;
    }
  }

  /** An entry the service accepts: `[id, ["tid", value, ...], ...]` with a truthy id and value. */
  predicate WellFormedEntry(e: Reply)
  {
    && e.Multi? && |e.items| >= 2 && Truthy(e.items[0])
    && e.items[1].Multi? && |e.items[1].items| >= 2
    && e.items[1].items[0] == Bulk("tid") && Truthy(e.items[1].items[1])
  }

  /** The `tid` value of a well-formed entry. */
  function TidOf(e: Reply): Reply
    requires WellFormedEntry(e)
  {
    e.items[1].items[1]
  }

  /** One entry is accepted exactly when it is well formed, and then yields its `tid`. */
  lemma EntryAccepted(e: Reply)
    ensures DecodeEntry(e).Ok? <==> WellFormedEntry(e)
    ensures WellFormedEntry(e) ==> DecodeEntry(e).value == TidOf(e)
  {
  }

  /**
   * The entry loop succeeds exactly when every entry is well formed; then it
   * returns one `tid` per entry, in entry order.
   */
  lemma {:induction false} EntriesAccepted(es: seq<Reply>)
    ensures DecodeEntries(es).Ok? <==> forall i :: 0 <= i < |es| ==> WellFormedEntry(es[i])
    ensures DecodeEntries(es).Ok? ==>
      |DecodeEntries(es).value| == |es| &&
      forall i :: 0 <= i < |es| ==> DecodeEntries(es).value[i] == TidOf(es[i])
    decreases |es|
  {
    if es != [] {
      var init := es[..|es| - 1];
      EntriesAccepted(init);
      EntryAccepted(es[|es| - 1]);
      assert forall i :: 0 <= i < |init| ==> init[i] == es[i];
    }
  }

  /** When some entry is malformed, the error is that of the first malformed entry. */
  lemma {:induction false} FirstMalformedEntryDecides(es: seq<Reply>, k: nat)
    requires k < |es| && !WellFormedEntry(es[k])
    requires forall i :: 0 <= i < k ==> WellFormedEntry(es[i])
    ensures DecodeEntries(es) == Err(DecodeEntry(es[k]).error)
  {
    var pre := es[..k];
    EntriesAccepted(pre);
    EntryAccepted(es[k]);
    assert es[..k + 1][..k] == pre;
    PrefixFailure(es, k + 1);
  }

  /** A falsy reply (no new messages) yields no task ids. */
  lemma EmptyReply(rst: Reply, queueKey: string)
    requires rst == Nil || rst == Bulk("")
    ensures DecodeReply(rst, queueKey) == Ok([])
  {
  }

  /**
   * A truthy reply that is not an array of arrays, or whose first stream key is
   * not this service's stream, is rejected.
   */
  lemma RejectedShapes(rst: Reply, queueKey: string)
    requires Truthy(rst)
    requires !(rst.Multi? && |rst.items| > 0 && rst.items[0].Multi?)
          || At(rst.items[0].items, 0) != Some(Bulk(StreamName(queueKey)))
    ensures DecodeReply(rst, queueKey).Err?
  {
  }

  /**
   * A well-formed reply `[[stream, [e0, e1, ...]], ...]` for this stream yields
   * exactly the `tid` of each entry in order; any malformed entry rejects the
   * whole reply, so no partial list is ever returned.
   */
  lemma {:induction false} DecodeWellFormedReply(stream: string, es: seq<Reply>, rest: seq<Reply>, queueKey: string)
    requires stream == StreamName(queueKey)
    ensures var r := DecodeReply(Multi([Multi([Bulk(stream), Multi(es)])] + rest), queueKey);
      && (r.Ok? <==> forall i :: 0 <= i < |es| ==> WellFormedEntry(es[i]))
      && (r.Ok? ==> |r.value| == |es| && forall i :: 0 <= i < |es| ==> r.value[i] == TidOf(es[i]))
  {
    EntriesAccepted(es);
  }
}
