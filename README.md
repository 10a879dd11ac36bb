# SwiftFS write path: client pool and file upload, modelled in Dafny

This project models two small state machines of SwiftFS, a FUSE file system
that stores files in an OpenStack Swift container.

**The client pool** (`src/client_pool.c`) holds a fixed, ordered list of
client handles (HTTP connections) and a FIFO queue of waiting requests. A
waiting request is a callback plus its context.
- An acquire is refused when the queue is at its bound
  (`pool.max_requests_per_pool`).
- Otherwise it hands the first ready client, in creation order, to the
  caller's callback at once.
- Otherwise it queues the caller at the tail.
- When a client notifies its release, the oldest waiter gets that very
  client; the list is not scanned again.

The class `ClientPool.Pool` holds these fields. Its methods are proved
against the functions `FirstReady`, `AfterAcquire` and `AfterRelease`.
Module `PoolTraces` proves what holds over whole runs: the queue bound,
FIFO service, and, once client busy/idle states are added, no double
dispatch.

**The file operation** (`src/hfs_file_operation.c`) collects the bytes of
one file being written.
- Writes must come in sequence. A write at any other offset is refused.
- Accepted bytes go into a segment buffer. A full buffer (`filesystem.segment_size`)
  asks the pool for a client for the write-segment handler, which uploads the
  buffer as numbered segment `segment_count`.
- On release the remainder goes up as one of four uploads: a last segment, a
  small file, a manifest (with an `X-Object-Manifest` header), or an empty file.
- When an upload completes, the operation is destroyed if the manifest is
  handled, and otherwise it is released again.

The class `FileOperation.FileOp` holds these fields and requests clients
from a `ClientPool.Pool`. Its methods are proved against the functions
`Write`, `UploadSegment`, `UploadOnRelease` and `AfterSent`. Module
`FileOpTraces` proves three things over runs:
- no written byte is lost or uploaded twice;
- segments are numbered consecutively and never share an object;
- a release ends within two upload rounds.

How the outside world appears in the model:
- Callbacks are not run. Each invocation is a `Handoff(waiter, slot)`
  appended to the pool's ghost log `handoffs`. The handler that would run is
  then a separate call (`OnClientForSegment`, `OnClientForRelease`,
  `OnSent`).
- The client implementation's capabilities are pure function parameters:
  the readiness check (`isReady`), the describer (`describe`) and the
  factory (`create`, the handle of the i-th call).
- The two configuration values are constructor parameters.
- HTTP requests are returned as `Request` values: kind, path, headers and body.
  Every request is a PUT, and its completion handler is `OnSent`.

The source has two functions named `hfs_fileop_release_on_http_client_cb`
(lines 80 and 168). The flush at line 227 asks for
`hfs_fileop_write_on_http_client_cb`, so the second definition is modelled
as that write-segment handler (`OnClientForSegment`).

Two behaviours of the code are kept as written.
- The write-segment upload completes through the release completion handler
  (line 187). So once a segment has been uploaded, the operation starts its
  release while the file may still be open for writing:
  `FileOpTraces.FirstSegmentFinalises` shows that a file whose first segment
  fills up sends a manifest whose `X-Object-Manifest` header is the file's
  segment prefix, and is then destroyed. The flush path
  also never calls the written callback (lines 224-231).
- The admission check runs before the readiness scan (lines 128-142). So with
  a queue bound of 0 every acquire is refused, even when a client is idle
  (`PoolTraces.ZeroBoundRefusesAll`). A request is served at once whenever a
  client is idle only if the bound is positive
  (`PoolTraces.IdleClientServesAtOnce`).

## Model

| member | source | states |
|---|---|---|
| `ClientPool.FirstReady` | src/client_pool.c:133-142 | the scan yields a position only if its client is ready and no earlier one is, and yields nothing exactly when no client is ready |
| `ClientPool.AfterAcquire` | src/client_pool.c:121-153 | refused exactly when the queue length has reached the bound, with queue and log untouched; otherwise one hand-off of the caller to the first ready client with the queue unchanged, or, with no client ready, the caller appended at the tail and no callback run |
| `ClientPool.AfterRelease` | src/client_pool.c:105-117 | the waiters served followed by the new queue are the old queue: the head waiter, if any, is served with the released client and nothing else changes |
| `ClientPool.Pool.constructor` | src/client_pool.c:49-85 | exactly `client_count` wrappers (none for a negative count) in creation order, each holding the factory's i-th handle and wired to release with its own position, an empty queue and no callbacks run |
| `ClientPool.Pool.Destroy` | src/client_pool.c:87-102 | every queued waiter is dropped without its callback being run, and every client is destroyed exactly once, in list order; the wrappers and their release registrations are gone |
| `ClientPool.Pool.OnClientReleased` | src/client_pool.c:105-117 | the pool changes as AfterRelease says: the head waiter is removed and handed the released client; an empty queue leaves the pool unchanged; the queue bound is kept |
| `ClientPool.Pool.Acquire` | src/client_pool.c:121-153 | the pool changes as AfterAcquire says, the client list stays as it is, the queue bound is kept, and the answer is true exactly when the queue was below its bound |
| `ClientPool.Pool.TaskList` | src/client_pool.c:155-167 | the result is the given list followed by one description per client, in client order, each stamped with the pool name; the pool is not changed |
| `PoolTraces.RunIsFifo` | src/client_pool.c:105-153 | over any run, the waiters served on release followed by the final queue are exactly the initial queue followed by every waiter queued, in order, whichever clients release |
| `PoolTraces.RunKeepsBound` | src/client_pool.c:127-152 | over any run the queue never exceeds its bound |
| `PoolTraces.NoDoubleDispatch` | src/client_pool.c:105-142 | when the readiness check reflects the clients' state, a client is handed over only if it was idle or is the one that just released (straight to the oldest waiter), and it is busy afterwards |
| `PoolTraces.StepKeepsInv` | src/client_pool.c:105-153 | one acquire or release keeps the queue within its bound and keeps "a request waits only while every client is busy" |
| `PoolTraces.RunKeepsInv` | src/client_pool.c:105-153 | the same invariant holds after any run in which clients release only while busy |
| `PoolTraces.IdleClientServesAtOnce` | src/client_pool.c:127-142 | with a positive bound, a request made while some client is idle is served at once by the first idle client and nothing is queued |
| `PoolTraces.ZeroBoundRefusesAll` | src/client_pool.c:127-131 | with a bound of zero every acquire is refused, with no change and no callback |
| `PoolTraces.TwoClientScenario` | src/client_pool.c:121-153 | two clients and a bound of one: two requests are served by the two clients, the third waits, the fourth is refused, and the first client's release serves the third with that client |
| `SegmentPaths.Decimal` | src/hfs_file_operation.c:118-119 | the segment number is written as a non-empty string of decimal digits |
| `SegmentPaths.DecimalRoundTrip` | src/hfs_file_operation.c:178-179 | reading the written segment number back gives the number |
| `SegmentPaths.DecimalInjective` | src/hfs_file_operation.c:178-179 | different segment numbers are written differently |
| `SegmentPaths.ManifestPrefixMissesSegments` | src/hfs_file_operation.c:100-119 | for every container, file name and number, the manifest header's prefix `SegmentPaths.ManifestPrefix` (`"/%s/%s/%s"`, lines 100-101) is not a prefix of `SegmentPaths.SegmentPathAsWritten` (`"/%s/%s%s/%zu"`, lines 118-119 and 178-179) |
| `SegmentPaths.ManifestPrefixCoversSegments` | src/hfs_file_operation.c:100-101 | with the separator restored (`SegmentPaths.SegmentPath`, `"/%s/%s/%s/%zu"`), every segment path lies under the manifest header's prefix |
| `SegmentPaths.SegmentPathInjective` | src/hfs_file_operation.c:178-179 | two segments of one file with the same path have the same number |
| `FileOperation.Write` | src/hfs_file_operation.c:206-236 | a write at an offset other than the current size is refused with (false, 0) and changes nothing; an accepted one appends the bytes and grows the size by their number; it asks for a client exactly when the buffer reaches the segment size, and otherwise acknowledges (true, size) |
| `FileOperation.UploadSegment` | src/hfs_file_operation.c:168-201 | the upload carries the whole buffer, with no header, to `SegmentPaths.SegmentPath` of segment `segment_count` (the `"/%s/%s%s/%zu"` of lines 178-179 with the separator restored; see Findings); afterwards the count is one more and the buffer is empty |
| `FileOperation.UploadOnRelease` | src/hfs_file_operation.c:80-149 | the upload carries the whole buffer and leaves it empty; manifest when the buffer is empty after segments, empty file when empty without, small file when data but no segment, last segment otherwise. Manifest and empty file go to `SegmentPaths.ObjectPath` (`"/%s%s"`, lines 105 and 109), a small file to `SegmentPaths.SmallFilePath` (`"/%s/%s"`, line 123), a last segment to `SegmentPaths.SegmentPath` of segment `segment_count` (lines 118-119, separator restored). Only the manifest has a header: `X-Object-Manifest` set to `SegmentPaths.ManifestPrefix` (`"/%s/%s/%s"`, lines 100-102); the manifest ends up handled except after a last segment; size and count are unchanged |
| `FileOperation.AfterSent` | src/hfs_file_operation.c:54-76 | the operation is destroyed exactly when the manifest is handled, and released again otherwise |
| `FileOperation.FileOp.constructor` | src/hfs_file_operation.c:27-42 | a new operation has size 0, an empty buffer, no segments, the manifest not handled, and is not destroyed |
| `FileOperation.FileOp.WriteBuffer` | src/hfs_file_operation.c:206-236 | the state changes as Write says; the written callback is called with Write's answer and the pool is untouched, or, when the segment is full, no callback is called and the pool gets an acquire for the write-segment handler |
| `FileOperation.FileOp.OnClientForSegment` | src/hfs_file_operation.c:168-201 | the state changes as UploadSegment says and the request returned is its upload |
| `FileOperation.FileOp.OnClientForRelease` | src/hfs_file_operation.c:80-149 | the state changes as UploadOnRelease says and the request returned is its upload |
| `FileOperation.FileOp.Release` | src/hfs_file_operation.c:152-161 | the pool gets an acquire for the release handler with this operation as context; the answer is whether the pool accepted it |
| `FileOperation.FileOp.OnSent` | src/hfs_file_operation.c:54-76 | as AfterSent says: the operation is destroyed and the pool untouched when the manifest is handled, and otherwise it is released again through the pool |
| `FileOpTraces.StepKeepsStream` | src/hfs_file_operation.c:140-221 | one call moves bytes from an accepted write into the buffer, or from the buffer into an upload, in order |
| `FileOpTraces.NoByteLostOrDuplicated` | src/hfs_file_operation.c:140-221 | over any run, the upload bodies followed by the buffer are the earlier buffer followed by every accepted byte, in order, and the size grows by the number of accepted bytes |
| `FileOpTraces.FreshUploadsWrittenStream` | src/hfs_file_operation.c:27-42 | from a new operation, the uploads and the buffer together are exactly the accepted stream, and the size is its length |
| `FileOpTraces.SegmentsNumberedInOrder` | src/hfs_file_operation.c:178-181 | over any run, segments are uploaded under consecutive numbers starting at the initial count, and the count ends one past the last |
| `FileOpTraces.SegmentObjectsDistinct` | src/hfs_file_operation.c:116-119 | no two segments of a run share a path, and a last segment sent afterwards does not overwrite any of them |
| `FileOpTraces.ReleaseRounds` | src/hfs_file_operation.c:69-140 | when each round gets a client and its upload completes, a release makes one or two uploads (two exactly after segments with data left) that carry exactly the buffer, and it ends with the manifest handled, the buffer empty and the operation destroyed |
| `FileOpTraces.FirstSegmentFinalises` | src/hfs_file_operation.c:187 | a first write that fills a segment asks for a client, and when that segment's upload completes the operation is released: it sends a manifest whose X-Object-Manifest header is the file's segment prefix, and is destroyed |

## Findings

| source | as written | input that shows it | evidently intended | confidence | as-written member | corrected member |
|---|---|---|---|---|---|---|
| src/hfs_file_operation.c:118-119 | segment paths are built as `"/%s/%s%s/%zu"`, with no separator between the file name and `segments` (also at lines 178-179); the manifest header at lines 100-101 names the prefix `"/%s/%s/%s"`, with a separator | container `c`, file name `f`, segment 0: the segment goes to `/c/fsegments/0`, and the manifest prefix `/c/f/segments` covers no segment | segments stored under the manifest prefix, `/c/f/segments/0` | medium; not executed | `SegmentPaths.ManifestPrefixMissesSegments` | `SegmentPaths.ManifestPrefixCoversSegments` |

The model builds segment and last-segment paths with the corrected
`SegmentPaths.SegmentPath`. `SegmentPaths.SegmentPathAsWritten` keeps the
source's form.

## Left out

- `include/hfs_stats_srv.h`: declarations only, with no behaviour to model.
- `hfs_fileop_read_buffer` (src/hfs_file_operation.c:240-246): its body is empty.
- HTTP plumbing is not modelled: acquiring and releasing a connection, adding a header, and sending the request. Requests are returned as values.
- A request that cannot be created (src/hfs_file_operation.c:144-148, 196-200) only releases the connection. That failure is not modelled. The buffer is drained and the count advanced either way, as in the source.
- Handing over the buffer: a request takes the buffer's bytes at the call. The source passes the buffer by pointer to the HTTP layer and drains it on the next lines (src/hfs_file_operation.c:133-140, 185-192). The HTTP layer is not part of this model, so whether it copies the bytes before returning is not checked. `FileOpTraces.NoByteLostOrDuplicated` and `FileOpTraces.ReleaseRounds` rest on this.
- The `released` flag (src/hfs_file_operation.c:154): it is written but never read.
- The application, configuration and event-base fields: they are only stored. The two configuration values are fixed parameters. The source rereads the queue bound on every acquire, so a bound changed at run time is not modelled.
- Logging, including the "segment buffer is not empty" check at src/hfs_file_operation.c:64-66, which only logs.
- Reentrancy: a callback run synchronously inside an acquire is logged, not run. Its effects are modelled as a later, separate call.
- Failure of the client factory (src/client_pool.c:74): it is not checked in the source, and the model gives every slot a handle.
- Readiness is whatever the readiness check answers. `PoolTraces.NoDoubleDispatch` holds only when that check reflects the clients' real busy state.
- Freeing memory: destroying the pool empties its lists, and destroying an operation sets `destroyed`. Methods require an operation that has not been destroyed, since using one afterwards is undefined in the source.
- Fixed-width integers: `current_size` and `segment_count` are unbounded, and the offset is compared as a mathematical integer. The source's `size_t` wrap-around and its conversion of a negative `off_t` are not modelled.
