/**
 * Multipart uploads: a file is cut into numbered parts, each part is
 * uploaded (with retries) and credited to the throughput and progress
 * counters, and once every part has settled the upload is completed with
 * the parts' ETags, or failed with the first part's error.
 *
 * The S3 client, the Deferreds and the reactor are not modelled: what a
 * retried request finally fires with arrives as a parameter of the method
 * that handles it, and clock times are parameters too.
 */
module Up {

  import opened Wrappers
  import opened Bytes
  import opened Common
  import opened Stats
  import Arith

  /** 5 MiB, the default part size. */
  const DEFAULT_PART_SIZE: nat := 0x500000

  /** A part as `generate_parts` yields it: its bytes and its number. */
  datatype Part = Part(bytes: seq<byte>, number: nat)

  /** The bytes of each part, in order. */
  function Pieces(parts: seq<Part>): (ps: seq<seq<byte>>)
    ensures |ps| == |parts| && forall i :: 0 <= i < |parts| ==> ps[i] == parts[i].bytes
  {
    seq(|parts|, i requires 0 <= i < |parts| => parts[i].bytes)
  }

  /** `fd.read(size)` at offset `pos`: up to `size` bytes, fewer only at the end of the data. */
  function Read(data: seq<byte>, pos: nat, size: nat): seq<byte>
    requires pos <= |data|
  {
    if pos + size <= |data| then data[pos..pos + size] else data[pos..]
  }

  /**
   * `count_parts(fd)`: the number of parts of a source of `length` bytes,
   * rounded up, or `'?'` when the source has no byte length. A part size
   * of 0 is a division by zero in the source.
   */
  function CountParts(length: Option<nat>, partSize: nat): (e: Expected)
    requires partSize > 0
    ensures e.Unknown? <==> length.None?
    ensures e.Known? ==> (e.count - 1) * partSize < length.value <= e.count * partSize
  {
    match length
    case None => Unknown
    case Some(size) =>
      var count := size / partSize;
      Arith.CeilDiv(size, partSize);
      if size % partSize != 0 then Known(count + 1) else Known(count)
  }

  /** The count of parts is the only count that covers the length this tightly. */
  lemma CountPartsUnique(length: nat, partSize: nat, n: int)
    requires partSize > 0
    requires (n - 1) * partSize < length <= n * partSize
    ensures CountParts(Some(length), partSize) == Known(n)
  {
    var e := CountParts(Some(length), partSize);
    Arith.CeilUnique(length, partSize, e.count, n);
  }

  /**
   * What holds while `generate_parts` reads: the parts yielded so far are
   * numbered from 1, none empty, all full but perhaps the last, which is
   * full too if another part was read after it; the parts and the part
   * just read make up the first `pos` bytes; a short read happens only at
   * the end of the data.
   */
  ghost predicate Reading(data: seq<byte>, size: nat, parts: seq<Part>, part: seq<byte>, pos: nat) {
    && pos <= |data| && |part| <= size
    && Flatten(Pieces(parts)) + part == data[..pos]
    && (|part| < size ==> pos == |data|)
    && (forall i :: 0 <= i < |parts| ==> parts[i].number == i + 1)
    && (forall i :: 0 <= i < |parts| ==> 0 < |parts[i].bytes| <= size)
    && (forall i :: 0 <= i < |parts| - 1 ==> |parts[i].bytes| == size)
    && (|part| > 0 && parts != [] ==> |parts[|parts| - 1].bytes| == size)
    && (parts == [] ==> pos == |part|)
    && (parts != [] ==> pos == (|parts| - 1) * size + |parts[|parts| - 1].bytes| + |part|)
  }

  /** A read at `pos` continues the data read so far, and falls short only at the end. */
  lemma ReadContinues(data: seq<byte>, pos: nat, size: nat)
    requires pos <= |data|
    ensures var next := Read(data, pos, size);
      && data[..pos] + next == data[..pos + |next|]
      && |next| <= size && (|next| < size ==> pos + |next| == |data|)
  {
  }

  /** The first read starts the walk. */
  lemma ReadingStarts(data: seq<byte>, size: nat)
    ensures Reading(data, size, [], Read(data, 0, size), |Read(data, 0, size)|)
  {
    ReadContinues(data, 0, size);
  }

  /** Yielding a non-empty part and reading the next one keeps `Reading`. */
  lemma ReadingStep(data: seq<byte>, size: nat, parts: seq<Part>, part: seq<byte>, pos: nat)
    requires Reading(data, size, parts, part, pos) && |part| > 0
    ensures var next := Read(data, pos, size);
      Reading(data, size, parts + [Part(part, |parts| + 1)], next, pos + |next|)
  {
    var parts' := parts + [Part(part, |parts| + 1)];
    var next := Read(data, pos, size);
    ReadContinues(data, pos, size);
    if parts != [] {
      Arith.MulSucc(|parts|, size);
    }
    YieldedData(parts, part);
  }

  /** The bytes of the parts after one more is yielded. */
  lemma YieldedData(parts: seq<Part>, part: seq<byte>)
    ensures Flatten(Pieces(parts + [Part(part, |parts| + 1)])) == Flatten(Pieces(parts)) + part
  {
    assert Pieces(parts + [Part(part, |parts| + 1)]) == Pieces(parts) + [part];
    FlattenAppend(Pieces(parts), part);
  }

  /** When a read comes back empty, the parts are the whole data, counted as `count_parts` counts. */
  lemma ReadingDone(data: seq<byte>, size: nat, parts: seq<Part>, pos: nat)
    requires Reading(data, size, parts, [], pos)
    ensures size > 0 ==> Flatten(Pieces(parts)) == data
    ensures size > 0 ==> CountParts(Some(|data|), size) == Known(|parts|)
    ensures size == 0 ==> parts == []
  {
    if size > 0 {
      assert data[..pos] == data;
      if parts == [] {
        CountPartsUnique(|data|, size, 0);
      } else {
        Arith.MulSucc(|parts|, size);
        CountPartsUnique(|data|, size, |parts|);
      }
    }
  }

  /**
   * `FileIOPartsGenerator.generate_parts(fd)` over the whole contents
   * `data`: parts numbered from 1, none empty, all but the last exactly
   * `partSize` bytes long, and together exactly the data, so that there are
   * as many parts as `count_parts` reports. A part size of 0 reads nothing
   * and gives no parts.
   */
  method GenerateParts(data: seq<byte>, partSize: nat) returns (parts: seq<Part>)
    ensures forall i :: 0 <= i < |parts| ==> parts[i].number == i + 1
    ensures forall i :: 0 <= i < |parts| ==> 0 < |parts[i].bytes| <= partSize
    ensures forall i :: 0 <= i < |parts| - 1 ==> |parts[i].bytes| == partSize
    ensures partSize > 0 ==> Flatten(Pieces(parts)) == data
    ensures partSize > 0 ==> CountParts(Some(|data|), partSize) == Known(|parts|)
    ensures partSize == 0 ==> parts == []
  {
    var pos: nat := 0;
    var partNumber := 1;
    var part := Read(data, pos, partSize);
    pos := pos + |part|;
    parts := [];
    ReadingStarts(data, partSize);
    while |part| > 0
      invariant Reading(data, partSize, parts, part, pos)
      invariant partNumber == |parts| + 1
      decreases |data| - pos + |part|
    {
      ReadingStep(data, partSize, parts, part, pos);
      parts := parts + [Part(part, partNumber)];
      partNumber := partNumber + 1;
      part := Read(data, pos, partSize);
      pos := pos + |part|;
    }
    ReadingDone(data, partSize, parts, pos);
  }

  /**
   * `_handle_headers(headers, part_number)`: the part's number and the
   * ETag the server returned for it; without an `ETag` header the lookup
   * raises and there is no result.
   */
  function HandleHeaders(headers: map<string, string>, partNumber: nat): (r: Option<(nat, string)>)
    ensures r.Some? <==> "ETag" in headers
    ensures r.Some? ==> r.value.0 == partNumber && r.value.1 == headers["ETag"]
  {
    if "ETag" in headers then Some((partNumber, headers["ETag"])) else None
  }

  /** Why something failed: a failure's description. */
  type Why = string

  /** What a part's Deferred fires with: its number and ETag, or a failure. */
  datatype PartOutcome = Uploaded(number: nat, etag: string) | PartFailed(why: Why)

  /** `[r[1] for r in result if r[0]]`: the successes, in order. */
  function Successes(results: seq<PartOutcome>): (s: seq<(nat, string)>)
    ensures |s| <= |results|
  {
    if results == [] then []
    else
      var rest := Successes(results[..|results| - 1]);
      match results[|results| - 1]
      case Uploaded(n, e) => rest + [(n, e)]
      case PartFailed(_) => rest
  }

  /** `[r[1] for r in result if not r[0]]`: the failures, in order. */
  function Failures(results: seq<PartOutcome>): (f: seq<Why>)
    ensures |f| <= |results|
  {
    if results == [] then []
    else
      var rest := Failures(results[..|results| - 1]);
      match results[|results| - 1]
      case Uploaded(_, _) => rest
      case PartFailed(why) => rest + [why]
  }

  /**
   * How `_parts_uploaded` decides: the first failure, if any part failed,
   * else the list of parts to complete the upload with.
   */
  function Collate(results: seq<PartOutcome>): Result<seq<(nat, string)>, Why> {
    var errors := Failures(results);
    if errors != [] then Err(errors[0]) else Ok(Successes(results))
  }

  predicate AllUploaded(results: seq<PartOutcome>) {
    forall i :: 0 <= i < |results| ==> results[i].Uploaded?
  }

  /** Index of the first failed part. */
  function FirstFailure(results: seq<PartOutcome>): (k: nat)
    requires !AllUploaded(results)
    ensures k < |results| && results[k].PartFailed?
    ensures AllUploaded(results[..k])
  {
    if results[0].PartFailed? then 0
    else
      assert results[1..][..FirstFailure(results[1..])] == results[1..FirstFailure(results[1..]) + 1];
      1 + FirstFailure(results[1..])
  }

  /** With no failure at all, the successes are every result in order. */
  lemma {:induction false} SuccessesAll(results: seq<PartOutcome>)
    requires AllUploaded(results)
    ensures Failures(results) == []
    ensures Successes(results) == seq(|results|, i requires 0 <= i < |results| => (results[i].number, results[i].etag))
  {
    if results != [] {
      var init := results[..|results| - 1];
      assert AllUploaded(init) by {
        forall i | 0 <= i < |init| ensures init[i].Uploaded? {
          assert init[i] == results[i];
        }
      }
      SuccessesAll(init);
    }
  }

  /** The failures of a list with no failure in its first `k` results start at result `k`'s. */
  lemma {:induction false} FailuresFrom(results: seq<PartOutcome>, k: nat)
    requires k < |results| && AllUploaded(results[..k]) && results[k].PartFailed?
    ensures Failures(results) != [] && Failures(results)[0] == results[k].why
    decreases |results|
  {
    if |results| == k + 1 {
      assert results[..|results| - 1] == results[..k];
      SuccessesAll(results[..k]);
    } else {
      var init := results[..|results| - 1];
      assert init[..k] == results[..k];
      FailuresFrom(init, k);
    }
  }

  /**
   * `_parts_uploaded` fails with the error of the first part that failed,
   * in generation order, and otherwise completes with every part's number
   * and ETag, in generation order.
   */
  lemma CollateMeaning(results: seq<PartOutcome>)
    ensures Collate(results).Err? <==> !AllUploaded(results)
    ensures !AllUploaded(results) ==> Collate(results).error == results[FirstFailure(results)].why
    ensures AllUploaded(results) ==>
      Collate(results).value == seq(|results|, i requires 0 <= i < |results| => (results[i].number, results[i].etag))
  {
    if AllUploaded(results) {
      SuccessesAll(results);
    } else {
      FailuresFrom(results, FirstFailure(results));
    }
  }

  /** Parts generated and all uploaded complete the upload with the part numbers 1, 2, ... in order. */
  lemma CollateNumbersParts(results: seq<PartOutcome>)
    requires AllUploaded(results)
    requires forall i :: 0 <= i < |results| ==> results[i].number == i + 1
    ensures Collate(results).Ok? && |Collate(results).value| == |results|
    ensures forall i :: 0 <= i < |results| ==> Collate(results).value[i].0 == i + 1
  {
    CollateMeaning(results);
  }

  /** An entity id of the throughput counter: `'%s-%s' % (id(upload), part_number)`. */
  datatype EntityId = EntityId(upload: nat, part: nat)

  /**
   * What `finished` is fired with: the upload itself, once completed (its
   * completion response is then in `completionResponse`), or the failure.
   */
  datatype Settlement = UploadCompleted | UploadFailed(why: Why)

  /** The failure a missing start time turns a part's result into. */
  const KEY_ERROR: Why := "KeyError"

  /** The failure a counter without a verb turns a part's result into. */
  const TYPE_ERROR: Why := "TypeError"

  /** The throughput counter's start times for each part's entity, in part order. */
  function StartAll(starts: map<EntityId, int>, upload: nat, parts: seq<Part>, now: int): (m: map<EntityId, int>)
    ensures forall k :: k in starts ==> k in m
  {
    if parts == [] then starts
    else StartAll(starts, upload, parts[..|parts| - 1], now)[EntityId(upload, parts[|parts| - 1].number) := now]
  }

  /** Every part's entity starts at `now`; every other entity keeps its start time. */
  lemma {:induction false} StartAllMeaning(starts: map<EntityId, int>, upload: nat, parts: seq<Part>, now: int, k: EntityId)
    ensures k in StartAll(starts, upload, parts, now) <==>
      k in starts || exists i :: 0 <= i < |parts| && k == EntityId(upload, parts[i].number)
    ensures (exists i :: 0 <= i < |parts| && k == EntityId(upload, parts[i].number)) ==>
      StartAll(starts, upload, parts, now)[k] == now
    ensures (k in starts && forall i :: 0 <= i < |parts| ==> k != EntityId(upload, parts[i].number)) ==>
      StartAll(starts, upload, parts, now)[k] == starts[k]
  {
    if parts != [] {
      var init := parts[..|parts| - 1];
      StartAllMeaning(starts, upload, init, now, k);
      if exists i :: 0 <= i < |init| && k == EntityId(upload, init[i].number) {
        var i :| 0 <= i < |init| && k == EntityId(upload, init[i].number);
        assert parts[i] == init[i];
      }
      if exists i :: 0 <= i < |parts| && k == EntityId(upload, parts[i].number) {
        var i :| 0 <= i < |parts| && k == EntityId(upload, parts[i].number);
        if i < |init| {
          assert init[i] == parts[i];
        }
      }
    }
  }

  /**
   * A `MultipartUpload`. `id` stands for `id(self)`; `armed` says whether
   * `finished` is still set, and `settled` records what it was fired with.
   * `completionRequests` holds the part lists `complete_multipart_upload`
   * was asked to complete.
   */
  class MultipartUpload {
    const id: nat
    const counter: BaseCounter
    const throughput: Option<ThroughputCounter<EntityId>>
    var armed: bool
    var settled: seq<Settlement>
    var completionResponse: Option<string>
    var completionRequests: seq<seq<(nat, string)>>

    /** `finished` is fired at most once, and is unset exactly once it has been fired. */
    ghost predicate Valid()
      reads this
    {
      |settled| <= 1 && (armed <==> settled == [])
    }

    constructor (id: nat, counter: BaseCounter, throughput: Option<ThroughputCounter<EntityId>>)
      ensures Valid() && armed && settled == []
      ensures this.id == id && this.counter == counter && this.throughput == throughput
      ensures completionResponse == None && completionRequests == []
    {
      this.id := id;
      this.counter := counter;
      this.throughput := throughput;
      armed := true;
      settled := [];
      completionResponse := None;
      completionRequests := [];
    }

    /**
     * The bookkeeping `_generate_parts` does as it dispatches each part:
     * with a throughput counter, each part's entity starts at `now`.
     */
    method DispatchParts(parts: seq<Part>, now: int)
      requires throughput.Some? ==> throughput.value.Valid()
      modifies if throughput.Some? then {throughput.value} else {}
      ensures throughput.Some? ==> throughput.value.Valid()
      ensures throughput.Some? ==> throughput.value.starts == StartAll(old(throughput.value.starts), id, parts, now)
    {
      if throughput.None? {
        return;
      }
      var tc := throughput.value;
      for i := 0 to |parts|
        invariant tc.Valid()
        invariant tc.starts == StartAll(old(tc.starts), id, parts[..i], now)
      {
        assert parts[..i + 1][..i] == parts[..i];
        tc.StartEntity(EntityId(id, parts[i].number), now);
      }
      assert parts[..|parts|] == parts;
    }

    /**
     * `_stop_entity(result, entity_id, size)`: credit the part's `size`
     * bytes if it was uploaded and 0 bytes if it failed, and pass the
     * result on. A part whose entity was never started makes
     * `stop_entity` raise, and the result becomes that failure.
     */
    method StopEntity(outcome: PartOutcome, entity: EntityId, size: nat, now: int) returns (passthru: PartOutcome)
      requires throughput.Some? && throughput.value.Valid()
      modifies throughput.value, throughput.value.stats
      ensures throughput.value.Valid()
      ensures var tc, credited := throughput.value, if outcome.PartFailed? then 0 else size;
        && tc.starts == old(tc.starts) - {entity}
        && (entity in old(tc.starts) ==>
              && passthru == outcome
              && tc.stats.slots == UpdateAll(old(tc.stats.slots), tc.stats.slotDurationSecs,
                                             CreditTimes(old(tc.starts)[entity], now), credited))
        && (entity !in old(tc.starts) ==> passthru == PartFailed(KEY_ERROR) && tc.stats.slots == old(tc.stats.slots))
    {
      var credited := if outcome.PartFailed? then 0 else size;
      var found := throughput.value.StopEntity(entity, credited, now);
      passthru := if found then outcome else PartFailed(KEY_ERROR);
    }

    /**
     * The callbacks `_generate_parts` chains on part `partNumber`'s
     * Deferred, run when the retried upload of its `size` bytes fires with
     * `outcome` at clock time `now`: the throughput counter's
     * `_stop_entity`, then `count`, which raises the progress count only for
     * a success (and turns the result into a failure if the counter raises).
     */
    method PartSettled(outcome: PartOutcome, partNumber: nat, size: nat, now: int) returns (r: PartOutcome)
      requires throughput.Some? ==> throughput.value.Valid()
      modifies counter, counter.log
      modifies if throughput.Some? then {throughput.value, throughput.value.stats} else {}
      ensures throughput.Some? ==> throughput.value.Valid()
      ensures throughput.Some? ==>
        var tc, entity, credited := throughput.value, EntityId(id, partNumber), if outcome.PartFailed? then 0 else size;
        && tc.starts == old(tc.starts) - {entity}
        && (entity in old(tc.starts) ==>
              tc.stats.slots == UpdateAll(old(tc.stats.slots), tc.stats.slotDurationSecs,
                                          CreditTimes(old(tc.starts)[entity], now), credited))
        && (entity !in old(tc.starts) ==> tc.stats.slots == old(tc.stats.slots))
      ensures counter.log == old(counter.log) && counter.expected == old(counter.expected)
      ensures counter.receiving == old(counter.receiving) && counter.context == old(counter.context)
      ensures counter.formatForStdout == old(counter.formatForStdout)
      ensures var stopped := throughput.None? || EntityId(id, partNumber) in old(throughput.value.starts);
        var passed := if stopped then outcome else PartFailed(KEY_ERROR);
        var logged := passed.Uploaded? && counter.receiving.Some?;
        && (logged ==>
              counter.log.messages == old(counter.log.messages) + [ProgressMessage(counter.context,
                counter.receiving.value, counter.completed, counter.expected, counter.formatForStdout)])
        && (!logged ==> counter.log.messages == old(counter.log.messages))
      ensures var stopped := throughput.None? || EntityId(id, partNumber) in old(throughput.value.starts);
        var passed := if stopped then outcome else PartFailed(KEY_ERROR);
        && (passed.PartFailed? ==> r == passed && counter.completed == old(counter.completed))
        && (passed.Uploaded? ==> counter.completed == old(counter.completed) + 1)
        && (passed.Uploaded? ==> r == if old(counter.receiving).Some? then passed else PartFailed(TYPE_ERROR))
    {
      r := outcome;
      if throughput.Some? {
        r := StopEntity(outcome, EntityId(id, partNumber), size, now);
      }
      if r.Uploaded? {
        var ok := counter.IncrementCount();
        if !ok {
          r := PartFailed(TYPE_ERROR);
        }
      }
    }

    /**
     * `_completed(completion_response)`: record the response and fire
     * `finished` with the upload. Once `finished` has been fired it is
     * unset, and a second completion raises without firing anything.
     */
    method Completed(response: string) returns (ok: bool)
      requires Valid()
      modifies this
      ensures Valid()
      ensures ok <==> old(armed)
      ensures completionResponse == Some(response) && completionRequests == old(completionRequests)
      ensures ok ==> settled == [UploadCompleted]
      ensures !ok ==> settled == old(settled)
      ensures !armed
    {
      completionResponse := Some(response);
      ok := armed;
      if armed {
        armed := false;
        settled := [UploadCompleted];
      }
    }

    /** `_error(why)`: errback `finished` with the failure, at most once in the same way. */
    method Error(why: Why) returns (ok: bool)
      requires Valid()
      modifies this
      ensures Valid()
      ensures ok <==> old(armed)
      ensures completionResponse == old(completionResponse) && completionRequests == old(completionRequests)
      ensures ok ==> settled == [UploadFailed(why)]
      ensures !ok ==> settled == old(settled)
      ensures !armed
    {
      ok := armed;
      if armed {
        armed := false;
        settled := [UploadFailed(why)];
      }
    }

    /**
     * `_parts_uploaded(result)` once every part's Deferred has fired, with
     * their results in generation order: fail the upload with the first
     * error, or ask for the upload to be completed with the parts' numbers
     * and ETags. The completion's own outcome arrives later, through
     * `Completed` or `Error`.
     */
    method PartsUploaded(results: seq<PartOutcome>) returns (ok: bool)
      requires Valid()
      modifies this
      ensures Valid() && completionResponse == old(completionResponse)
      ensures !AllUploaded(results) ==>
        && completionRequests == old(completionRequests)
        && ok == old(armed) && !armed
        && settled == (if ok then [UploadFailed(results[FirstFailure(results)].why)] else old(settled))
      ensures AllUploaded(results) ==>
        && ok && armed == old(armed) && settled == old(settled)
        && completionRequests == old(completionRequests) +
             [seq(|results|, i requires 0 <= i < |results| => (results[i].number, results[i].etag))]
    {
      CollateMeaning(results);
      match Collate(results)
      case Err(why) =>
        ok := Error(why);
      case Ok(partsList) =>
        completionRequests := completionRequests + [partsList];
        ok := true;
    }
  }

  /** A `PartsTransferredCounter(expected)`: a counter of parts sent, not received. */
  method NewPartsTransferredCounter(expected: Expected, log: Log) returns (c: BaseCounter)
    ensures fresh(c) && c.receiving == Some(false)
    ensures c.expected == expected && c.log == log && c.completed == 0 && c.context == "" && c.formatForStdout
  {
    c := new BaseCounter(expected, log);
    c.receiving := Some(false);
  }

  /**
   * `MultipartUploadsManager`. `defaultLog` is the module-level log the
   * counters write to; `nextId` hands out the identities of the uploads.
   */
  class MultipartUploadsManager {
    const defaultLog: Log
    const log: Log
    const throughput: Option<ThroughputCounter<EntityId>>
    var uploads: set<MultipartUpload>
    var nextId: nat

    /** Every registered upload has an identity handed out earlier; no two share one. */
    ghost predicate Valid()
      reads this, uploads
    {
      && (forall t :: t in uploads ==> t.id < nextId)
      && (forall t, u :: t in uploads && u in uploads && t.id == u.id ==> t == u)
    }

    /** `MultipartUploadsManager(log=log, throughput_counter=throughput)`: no uploads yet. */
    constructor (defaultLog: Log, log: Option<Log>, throughput: Option<ThroughputCounter<EntityId>>)
      ensures Valid() && uploads == {}
      ensures this.log == (if log.Some? then log.value else defaultLog)
      ensures this.defaultLog == defaultLog && this.throughput == throughput
    {
      this.defaultLog := defaultLog;
      this.log := if log.Some? then log.value else defaultLog;
      this.throughput := throughput;
      uploads := {};
      nextId := 0;
    }

    /**
     * `upload(fd, bucket, object_name)` for a source of `length` bytes
     * (`None` when it has none): log the start, make the upload with a
     * parts counter expecting `count_parts(fd)` parts and the object name
     * as its context, share the throughput counter, and register the
     * upload until it settles.
     */
    method Upload(length: Option<nat>, bucket: string, objectName: string) returns (task: MultipartUpload)
      requires Valid()
      modifies this, log
      ensures Valid() && fresh(task) && fresh(task.counter) && task.Valid() && task.armed
      ensures uploads == old(uploads) + {task} && task !in old(uploads)
      ensures log.messages == old(log.messages) + ["Beginning upload to bucket=" + bucket + ",key=" + objectName]
      ensures task.throughput == throughput && task.settled == [] && task.completionRequests == []
      ensures task.counter.expected == CountParts(length, DEFAULT_PART_SIZE) && task.counter.receiving == Some(false)
      ensures task.counter.completed == 0 && task.counter.log == defaultLog
      ensures task.counter.context == "[object_name=" + objectName + "] "
    {
      log.Msg("Beginning upload to bucket=" + bucket + ",key=" + objectName);
      var counter := NewPartsTransferredCounter(CountParts(length, DEFAULT_PART_SIZE), defaultLog);
      counter.context := "[object_name=" + objectName + "] ";
      task := new MultipartUpload(nextId, counter, throughput);
      uploads := uploads + {task};
      nextId := nextId + 1;
    }

    /**
     * `_remove_upload(_, task)`, run whichever way the upload settled:
     * unregister it. Removing an upload that is not registered raises.
     */
    method RemoveUpload(task: MultipartUpload) returns (ok: bool)
      requires Valid()
      modifies this
      ensures Valid() && nextId == old(nextId)
      ensures ok <==> task in old(uploads)
      ensures uploads == old(uploads) - {task}
    {
      ok := task in uploads;
      uploads := uploads - {task};
    }
  }

  /** Two uploads registered by the same manager never share an entity id for any part. */
  lemma EntityIdsDistinct(m: MultipartUploadsManager, t: MultipartUpload, u: MultipartUpload, p: nat, q: nat)
    requires m.Valid() && t in m.uploads && u in m.uploads && t != u
    ensures EntityId(t.id, p) != EntityId(u.id, q)
  {
  }
}
