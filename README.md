# BlobStore, modelled in Dafny

`BlobStore` (index.js) is a browser-side cache of downloaded binaries. It keeps
records `{name, blob}` in one IndexedDB object store keyed by `name`, offers
`has`, `get`, insert-only `add` and idempotent `delete`, and a `fetch` that
downloads a URL and stores the body under a key, replacing the old record. It
reports progress once per chunk, and records the outcome in two fields:
`downloading` and `error`.

The model has four modules:

- `Wrappers` (wrappers.dfy): `Option` and `Result`.
- `Stream` (stream.dfy): the response body as an abstract `Body`, meaning a
  sequence of chunks followed by either completion or a failed `read()`. The
  read loop of the stream's `start` callback is `ReadStream`, a `while` loop
  proved against three reference functions: `Concat` (the bytes that end up in
  the blob), `TotalLength` (the value of `bytesReceived`) and `ProgressTrace`
  (the calls the progress callback receives). The lemmas state in-order
  placement of each chunk, the per-chunk increment, monotonicity, and the
  final total.
- `Store` (store.dfy): the class `BlobStore`. The object store is a field
  `db: map<string, Entry>`. `downloading: bool` and `error: Option<string>`
  are fields as well. The HTTP client's answer is a parameter `Reply`: either
  a network error, or a response with an optional `content-length` header and
  a `Body`. `Fetch` walks the source's pipeline. Set `downloading`, check the
  header, delete the old record, read the chunks, `add` their concatenation,
  clear `error`, read the record back, and finally reset `downloading` on
  every path. A ghost out-parameter `trace` records the state each time the
  call enters a phase; it equals the ghost function `FetchTrace`, and two
  lemmas about that function state the ordering rules: the header check comes before the delete, and the delete comes before
  any chunk is read. It also states that the flag stays set throughout, and
  that a stale `error` stays visible until the new blob is stored.
- `Scenarios` (scenarios.dfy): client methods that use only the contracts.
  They prove concrete runs:
  - four 250-byte chunks under a declared length of 1000;
  - a missing header keeps the old record;
  - `""` fails the length check and `"0"` passes it;
  - a broken body loses the old record and leaves other keys alone;
  - a body shorter than declared is still stored;
  - a second download supersedes the first;
  - a repeated or absent-key delete;
  - a refused duplicate `add`.

The code's behaviour, which the model follows, in points a reader might
expect otherwise:

- The store's insert is `add`, which fails on an existing key. It is not
  `put`. `fetch` gets replace semantics only from the delete before it.
- Progress is not guaranteed to increase strictly or to end at 1. A
  zero-length chunk repeats the previous value (`ProgressIncreasing` needs
  non-empty chunks). Nothing compares the final total with the declared
  length (`Scenarios.ShortBodyAccepted`).
- The length check tests only that the header is non-empty and does not
  parse it. The text is converted to a number only in the progress quotient
  (index.js:77), which the model leaves out.
- The HTTP status is never checked, so any response that carries a non-empty
  length header is stored.
- `reader.releaseLock()` runs only after the loop finishes normally (index.js:82),
  not when a `read()` rejects.

## Model

| member | source | states |
|---|---|---|
| `Store.BlobStore.constructor` | index.js:6-9 | a new store has no records, `downloading` false and `error` null; every record is keyed by its own name |
| `Store.BlobStore.Get` | index.js:25-27 | returns a record exactly when one is stored under the key, and then the stored record, whose name is the key |
| `Store.BlobStore.Has` | index.js:21-23 | true exactly when a record is stored under the key, which is exactly when `Get` returns one |
| `Store.BlobStore.Add` | index.js:29-31 | on an absent key stores `{name: key, blob}` and leaves every other key as it was; on a present key fails with `DuplicateKey` and changes nothing; never touches `downloading` or `error` |
| `Store.BlobStore.Delete` | index.js:33-38 | always returns true; afterwards the key is absent and all other keys keep their records, so deleting an absent key or deleting twice changes nothing more |
| `Store.HeaderCheckIsTruthiness` | index.js:48 | the length check passes on a present and non-empty header and tests nothing else: an absent or empty header fails, any other text (`"0"` included) passes |
| `Store.MissingLengthMessage` | index.js:48-51 | the error recorded for a missing length header is a non-empty message |
| `Store.BlobStore.Fetch` | index.js:43-100 | the phases it passes through are those of `FetchTrace`, and `downloading` is false on return. A network error or a missing or empty length header leaves the table unchanged, reports nothing, records a message and returns nothing. Once the header passes, the old record is deleted before any chunk is read. There is one report per chunk, in order. A broken body leaves the key absent, with no rollback, and other keys unchanged. A complete body stores exactly the concatenated chunks under the key, clears `error` and returns the stored record |
| `Store.FetchFollowsPipeline` | index.js:44-92 | a call passes through a non-empty prefix of the pipeline (request, delete, stream, store, read back) in that order, with `downloading` set at each phase, and the previous `error` still visible at every phase before the record is read back |
| `Store.FetchDeletesBeforeReading` | index.js:48-89 | the call gets past the request exactly when the length header passes. The table is untouched up to the delete, and the key is absent while chunks are read and stored. The call reaches the last phase exactly when the body completes |
| `Stream.ReadStream` | index.js:57-79 | the read loop ends with the concatenation of all chunks, `bytesReceived` equal to their total length, the progress reports of `ProgressTrace` when a callback is supplied (none otherwise), and a failure exactly when a `read()` rejects |
| `Stream.TotalLength` | index.js:59-74 | `bytesReceived`, the sum of the chunk lengths read so far: zero exactly when every chunk is empty, and at least the length of each chunk |
| `Stream.Concat` | index.js:72 | the accumulated bytes are as many as all chunks hold together |
| `Stream.ProgressTrace` | index.js:59-78 | one report per chunk |
| `Stream.ProgressTraceAt` | index.js:59-78 | report `i` carries the bytes of chunks `0..i` and the header text |
| `Stream.PrefixStep` | index.js:72-78 | taking one more chunk appends it to the bytes, adds its length to the count and appends one report |
| `Stream.ConcatChunkAt` | index.js:72 | chunk `i` occupies, in the accumulated bytes, exactly the range after the bytes of the chunks before it |
| `Stream.ProgressStep` | index.js:74 | each report adds exactly its own chunk's length to the previous count |
| `Stream.ProgressNondecreasing` | index.js:74-78 | the reported byte count never decreases |
| `Stream.ProgressIncreasing` | index.js:74-78 | when no chunk is empty, the reported byte count increases strictly |
| `Stream.ProgressEndsAtTotal` | index.js:74-78 | the last report counts every byte that is stored |

## Left out

- Opening the database and its `upgrade` callback (index.js:6-19): asynchronous I/O, and the constructor that returns a promise of itself. The model's store starts empty. The single object-store name (`storeName`) is implicit, because the model has one table.
- Storage failures (quota, a closed database, a rejected transaction): the in-memory table fails only with `DuplicateKey` on `add`. Because `Fetch` deletes the key first, its `add` always succeeds, and its rejection branch is proved unreachable.
- The real network request, `getReader()`, the `ReadableStream` and its `controller`, `new Response(stream)`, `response.blob()` and `reader.releaseLock()` (index.js:46, 60-87): browser APIs. They are replaced by the `Reply` and `Body` parameters and by `Concat`. A rejected `read()` is the only mid-stream failure modelled.
- Two more failures after the delete are not modelled: a progress callback that throws (index.js:77), and a response whose `body` is null, so that `getReader()` throws (index.js:60). In the source both reach the `catch`, which records the message, and the old record is already gone, as in the broken-body case of `Fetch`.
- The HTTP status and every header other than `content-length`: the source ignores them.
- Stream.ProgressTrace: reports the pair of bytes received and the header text instead of the floating-point quotient `bytesReceived / contentLength` (index.js:77). The string-to-number coercion of the header is not modelled either.
- The progress callback is modelled as the `reports` the call returns. It is called synchronously, and its own effects are not modelled.
- Concurrent, overlapping `fetch` calls that race on `downloading`, `error` and the same key: every call is modelled as one atomic step.
- `console.debug` and `console.error` logging (index.js:68, 94). The text of the errors raised by the network or by IndexedDB is an opaque string.
