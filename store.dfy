/**
 * The `BlobStore` class of index.js: a table of named blobs with
 * insert-only `add`, idempotent `delete`, and a `fetch` that downloads a
 * resource and stores it under a key, replacing what was there, while the
 * fields `downloading` and `error` report how the last download went.
 */
module Store {
  import opened Wrappers
  import opened Stream

  /** A stored record: the key it is stored under (the object store's key path `name`) and the blob. */
  datatype Entry = Entry(name: string, blob: seq<byte>)

  /** Why the table rejects a request. */
  datatype StoreError =
    | DuplicateKey  // `add` on a key that is already present

  /** What the HTTP client answers for the requested URL. */
  datatype Reply =
    | NetworkError(message: string)                        // `fetch(url)` rejects
    | Response(contentLength: Option<string>, body: Body)   // the header, if sent, and the body

  /** The length check of the source: the header must be present and non-empty; its text is not parsed. */
  predicate HeaderPresent(contentLength: Option<string>)
  {
    contentLength.Some? && contentLength.value != ""
  }

  /** A reply that gets past the length check, so that the old entry is deleted. */
  predicate PassesLengthCheck(reply: Reply)
  {
    reply.Response? && HeaderPresent(reply.contentLength)
  }

  /** The error message recorded when the length header is missing. */
  function MissingLengthMessage(url: string): (message: string)
    ensures message != ""
  {
    "response for " + url + " is missing content-length header"
  }

  /** The stages of one `fetch` call, in the order it reaches them. */
  datatype Phase = Requesting | DeletingOld | Streaming | Storing | ReadingBack

  const Pipeline: seq<Phase> := [Requesting, DeletingOld, Streaming, Storing, ReadingBack]

  /** The state another task could observe when a `fetch` call enters a phase. */
  datatype Snapshot = Snapshot(phase: Phase, downloading: bool, error: Option<string>, db: map<string, Entry>)

  /**
   * The snapshots one `fetch` call passes through when it starts on table `db`
   * with `error` recorded: it stops after the request unless the length check
   * passes, and after streaming unless the body completes.
   */
  ghost function FetchTrace(db: map<string, Entry>, error: Option<string>, key: string, reply: Reply): seq<Snapshot>
  {
    var requesting := Snapshot(Requesting, true, error, db);
    if !PassesLengthCheck(reply) then [requesting]
    else
      var cleared := db - {key};
      var read := [requesting, Snapshot(DeletingOld, true, error, db), Snapshot(Streaming, true, error, cleared)];
      if reply.body.end.Broken? then read
      else
        var stored := cleared[key := Entry(key, Concat(reply.body.chunks))];
        read + [Snapshot(Storing, true, error, cleared), Snapshot(ReadingBack, true, None, stored)]
  }

  /**
   * A `fetch` call walks a prefix of the pipeline, in order, with `downloading`
   * set throughout; the old `error` stays visible until the blob is stored.
   */
  lemma FetchFollowsPipeline(db: map<string, Entry>, error: Option<string>, key: string, reply: Reply)
    ensures var t := FetchTrace(db, error, key, reply);
      && 1 <= |t| <= |Pipeline|
      && (forall i :: 0 <= i < |t| ==> t[i].phase == Pipeline[i] && t[i].downloading)
      && (forall i :: 0 <= i < |t| && t[i].phase != ReadingBack ==> t[i].error == error)
  {
  }

  /**
   * The length check comes before the delete, and the delete before any chunk
   * is read; a record is stored only after the body completes.
   */
  lemma FetchDeletesBeforeReading(db: map<string, Entry>, error: Option<string>, key: string, reply: Reply)
    ensures var t := FetchTrace(db, error, key, reply);
      && (|t| > 1 <==> PassesLengthCheck(reply))
      && (forall i :: 0 <= i < |t| && t[i].phase in {Requesting, DeletingOld} ==> t[i].db == db)
      && (forall i :: 0 <= i < |t| && t[i].phase in {Streaming, Storing} ==> t[i].db == db - {key})
      && (|t| == |Pipeline| <==> PassesLengthCheck(reply) && reply.body.end.Complete?)
  {
  }

  /**
   * The length check is JavaScript truthiness of the header: an absent or
   * empty header fails, and any other text passes, "0" included.
   */
  lemma HeaderCheckIsTruthiness(text: string)
    ensures !HeaderPresent(None) && !HeaderPresent(Some(""))
    ensures HeaderPresent(Some(text)) <==> text != ""
    ensures HeaderPresent(Some("0"))
  {
  }

  class BlobStore {
    /** The object store's contents, by key. */
    var db: map<string, Entry>
    /** True while a download is in progress. */
    var downloading: bool
    /** The message of the last failed download, cleared by the next successful one. */
    var error: Option<string>

    /** Every record is stored under its own name. */
    ghost predicate Valid()
      reads this
    {
      forall key :: key in db ==> db[key].name == key
    }

    /** A store over an empty, freshly opened table. */
    constructor ()
      ensures Valid()
      ensures db == map[] && !downloading && error == None
    {
      db := map[];
      downloading := false;
      error := None;
    }

    /** The record stored under `key`, if any. */
    method Get(key: string) returns (entry: Option<Entry>)
      requires Valid()
      ensures entry.Some? <==> key in db
      ensures entry.Some? ==> entry.value == db[key] && entry.value.name == key
    {
      entry := if key in db then Some(db[key]) else None;
    }

    /** Whether a record is stored under `key`, decided by reading it back. */
    method Has(key: string) returns (present: bool)
      requires Valid()
      ensures present <==> key in db
    {
      var entry := Get(key);
      present := entry.Some?;
    }

    /** Insert-only: stores `{name: key, blob}` under a key that is absent, and fails otherwise. */
    method Add(key: string, blob: seq<byte>) returns (result: Result<string, StoreError>)
      requires Valid()
      modifies this`db
      ensures Valid()
      ensures key in old(db) ==> result == Err(DuplicateKey) && db == old(db)
      ensures key !in old(db) ==> result == Ok(key) && db == old(db)[key := Entry(key, blob)]
    {
      if key in db {
        result := Err(DuplicateKey);
      } else {
        db := db[key := Entry(key, blob)];
        result := Ok(key);
      }
    }

    /** Removes the record under `key` if there is one, and reports success either way. */
    method Delete(key: string) returns (ok: bool)
      requires Valid()
      modifies this`db
      ensures Valid()
      ensures ok
      ensures db == old(db) - {key}
    {
      var present := Has(key);
      if present {
        db := db - {key};
      }
      ok := true;
    }

    /**
     * Downloads `url`, for which the HTTP client answers `reply`, and stores
     * its body under `key`, replacing the old record. `onProgress` says whether
     * a progress callback was supplied; `reports` are the calls it receives.
     * Failures are not raised: they land in `error` and `result` is absent.
     * `trace` records the state each time the call enters a phase.
     */
    method Fetch(key: string, url: string, reply: Reply, onProgress: bool)
      returns (result: Option<Entry>, reports: seq<Progress>, ghost trace: seq<Snapshot>)
      requires Valid()
      modifies this
      ensures Valid()
      ensures !downloading
      ensures trace == FetchTrace(old(db), old(error), key, reply)
      // no response: nothing is stored or reported
      ensures reply.NetworkError? ==>
                db == old(db) && result == None && reports == [] && error == Some(reply.message)
      // missing or empty length header: the old record is untouched
      ensures reply.Response? && !HeaderPresent(reply.contentLength) ==>
                db == old(db) && result == None && reports == [] && error == Some(MissingLengthMessage(url))
      // past the length check, every chunk read is reported
      ensures PassesLengthCheck(reply) ==>
                reports == if onProgress then ProgressTrace(reply.body.chunks, reply.contentLength.value) else []
      // the body breaks off: the old record is gone and nothing replaces it
      ensures PassesLengthCheck(reply) && reply.body.end.Broken? ==>
                db == old(db) - {key} && result == None && error == Some(reply.body.end.message)
      // the body completes: its chunks, in order, replace the old record and are returned
      ensures PassesLengthCheck(reply) && reply.body.end.Complete? ==>
                db == old(db)[key := Entry(key, Concat(reply.body.chunks))] &&
                result == Some(db[key]) && error == None
    {
      downloading := true;
      result, reports := None, [];
      trace := [Snapshot(Requesting, downloading, error, db)];
      match reply {
        case NetworkError(message) =>
          error := Some(message);
        case Response(contentLength, body) =>
          if !HeaderPresent(contentLength) {
            error := Some(MissingLengthMessage(url));
          } else {
            trace := trace + [Snapshot(DeletingOld, downloading, error, db)];
            var _ := Delete(key);
            trace := trace + [Snapshot(Streaming, downloading, error, db)];
            var data, bytesReceived, failure;
            data, bytesReceived, reports, failure := ReadStream(body, contentLength.value, onProgress);
            if failure.Some? {
              error := failure;
            } else {
              trace := trace + [Snapshot(Storing, downloading, error, db)];
              var added := Add(key, data);
              match added
              case Err(_) =>
                assert false;  // the key was deleted above, so `add` cannot find it
              case Ok(_) =>
                error := None;
                trace := trace + [Snapshot(ReadingBack, downloading, error, db)];
                result := Get(key);
            }
          }
      }
      downloading := false;
    }
  }
}
