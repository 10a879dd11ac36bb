/** The upload side of one open file (src/hfs_file_operation.c): writes
    are accepted only in sequence and collected in a segment buffer; a full
    buffer is uploaded as a numbered segment; on release the rest goes up as
    a last segment, a small file, a manifest or an empty file.

    Clients come from the write pool (module ClientPool): a request for one
    is an Acquire whose callback is one of the two handlers below, with the
    file operation as context. The pool's hand-off is logged, not run; the
    handler is then the separate call OnClientForSegment or
    OnClientForRelease. HTTP requests are returned as values. */
module FileOperation {
  import opened ClientPool
  import opened SegmentPaths

  type byte = b: int | 0 <= b < 256

  /** Which upload a request is. Every one is a PUT to the storage URL, and
      its completion runs OnSent. */
  datatype Kind = Segment | LastSegment | SmallFile | Manifest | EmptyFile

  datatype Header = Header(name: string, value: string)

  datatype Request = Request(kind: Kind, path: string, headers: seq<Header>, body: seq<byte>)

  /** The arguments of the written callback: success and the size accepted. */
  datatype Ack = Ack(success: bool, size: nat)

  /** A write either runs the written callback or asks the pool for a client. */
  datatype WriteOutcome = Acknowledged(ack: Ack) | ClientRequested

  /** What the upload-completion handler does next. */
  datatype SentAction = DestroyOp | ReleaseAgain

  /** The callback identifiers the operation hands to the pool. */
  const RELEASE_ON_CLIENT: Callback := 0
  const WRITE_ON_CLIENT: Callback := 1

  const MANIFEST_HEADER: string := "X-Object-Manifest"

  /** The fields of an operation that its handlers update. */
  datatype OpState = OpState(currentSize: nat, segmentBuf: seq<byte>, segmentCount: nat, manifestHandled: bool)

  /** The container the application writes to and the file's name. */
  datatype Names = Names(container: string, fname: string)

  function Fresh(): OpState
  {
    OpState(0, [], 0, false)
  }

  datatype Written = Written(next: OpState, outcome: WriteOutcome)

  /** A write of `data` at offset `off`. */
  function Write(s: OpState, segmentSize: nat, data: seq<byte>, off: int): (r: Written)
    ensures off != s.currentSize ==> r.next == s && r.outcome == Acknowledged(Ack(false, 0))
    ensures off == s.currentSize ==>
      r.next == s.(currentSize := s.currentSize + |data|, segmentBuf := s.segmentBuf + data)
    ensures r.outcome.ClientRequested? <==> off == s.currentSize && |s.segmentBuf| + |data| >= segmentSize
    ensures r.outcome == Acknowledged(Ack(true, |data|)) <==>
      off == s.currentSize && |s.segmentBuf| + |data| < segmentSize
  {
    if off != s.currentSize then Written(s, Acknowledged(Ack(false, 0)))
    else
      var next := s.(currentSize := s.currentSize + |data|, segmentBuf := s.segmentBuf + data);
      if |next.segmentBuf| >= segmentSize then Written(next, ClientRequested)
      else Written(next, Acknowledged(Ack(true, |data|)))
  }

  datatype Upload = Upload(next: OpState, request: Request)

  /** The write-segment handler: uploads the buffer as segment number
      `segmentCount`, counts it and drains the buffer. */
  function UploadSegment(s: OpState, names: Names): (u: Upload)
    ensures u.request.kind == Segment && u.request.headers == []
    ensures u.request.path == SegmentPath(names.container, names.fname, s.segmentCount)
    ensures u.request.body == s.segmentBuf && u.next.segmentBuf == []
    ensures u.next.segmentCount == s.segmentCount + 1
    ensures u.next.currentSize == s.currentSize && u.next.manifestHandled == s.manifestHandled
  {
    Upload(s.(segmentCount := s.segmentCount + 1, segmentBuf := []),
           Request(Segment, SegmentPath(names.container, names.fname, s.segmentCount), [], s.segmentBuf))
  }

  /** The release handler: an empty buffer means the file is complete, so
      the manifest (after segments) or an empty file is written; otherwise
      the buffer goes up as a small file (no segment so far) or as the last
      segment, after which the manifest is still to come. */
  function UploadOnRelease(s: OpState, names: Names): (u: Upload)
    ensures u.request.body == s.segmentBuf && u.next.segmentBuf == []
    ensures u.next.currentSize == s.currentSize && u.next.segmentCount == s.segmentCount
    ensures u.next.manifestHandled <==> s.manifestHandled || s.segmentBuf == [] || s.segmentCount == 0
    ensures u.request.kind == Manifest <==> s.segmentBuf == [] && s.segmentCount > 0
    ensures u.request.kind == EmptyFile <==> s.segmentBuf == [] && s.segmentCount == 0
    ensures u.request.kind == SmallFile <==> s.segmentBuf != [] && s.segmentCount == 0
    ensures u.request.kind == LastSegment <==> s.segmentBuf != [] && s.segmentCount > 0
    ensures u.request.kind == Manifest ==>
      u.request.headers == [Header(MANIFEST_HEADER, ManifestPrefix(names.container, names.fname))]
    ensures u.request.kind != Manifest ==> u.request.headers == []
    ensures u.request.kind in {Manifest, EmptyFile} ==> u.request.path == ObjectPath(names.container, names.fname)
    ensures u.request.kind == SmallFile ==> u.request.path == SmallFilePath(names.container, names.fname)
    ensures u.request.kind == LastSegment ==>
      u.request.path == SegmentPath(names.container, names.fname, s.segmentCount)
  {
    var c, f := names.container, names.fname;
    if s.segmentBuf == [] then
      var next := s.(manifestHandled := true);
      if s.segmentCount > 0 then
        Upload(next, Request(Manifest, ObjectPath(c, f), [Header(MANIFEST_HEADER, ManifestPrefix(c, f))], []))
      else
        Upload(next, Request(EmptyFile, ObjectPath(c, f), [], []))
    else if s.segmentCount > 0 then
      Upload(s.(segmentBuf := []), Request(LastSegment, SegmentPath(c, f, s.segmentCount), [], s.segmentBuf))
    else
      Upload(s.(segmentBuf := [], manifestHandled := true), Request(SmallFile, SmallFilePath(c, f), [], s.segmentBuf))
  }

  /** The upload-completion handler, shared by both kinds of upload: done
      once the manifest is handled, otherwise release again. */
  function AfterSent(s: OpState): (a: SentAction)
    ensures a == DestroyOp <==> s.manifestHandled
  {
    if s.manifestHandled then DestroyOp else ReleaseAgain
  }

  class FileOp {
    /** The operation itself, as the context of its pool requests. */
    const id: Context
    const names: Names
    /** filesystem.segment_size, read from the configuration. */
    const segmentSize: nat

    /** Bytes accepted by writes so far. */
    var currentSize: nat
    /** Bytes accepted and not yet handed to an upload. */
    var segmentBuf: seq<byte>
    /** Segments uploaded by the write-segment handler. */
    var segmentCount: nat
    /** Set once the final object (manifest, small or empty file) is on its way. */
    var manifestHandled: bool
    var destroyed: bool

    ghost function State(): OpState
      reads this
    {
      OpState(currentSize, segmentBuf, segmentCount, manifestHandled)
    }

    /** hfs_fileop_create. */
    constructor (id: Context, container: string, fname: string, segmentSize: nat)
      ensures State() == Fresh() && !destroyed
      ensures this.id == id && names == Names(container, fname) && this.segmentSize == segmentSize
    {
      this.id := id;
      names := Names(container, fname);
      this.segmentSize := segmentSize;
      currentSize := 0;
      segmentBuf := [];
      segmentCount := 0;
      manifestHandled := false;
      destroyed := false;
    }

    /** hfs_fileop_write_buffer: `ack` is the call of the written callback,
        if one is made; a write that fills the segment asks the pool for a
        client for the write-segment handler and makes no call. */
    method WriteBuffer(pool: Pool, isReady: Handle -> bool, data: seq<byte>, off: int)
      returns (ack: Option<Ack>)
      requires !destroyed && pool.Valid()
      modifies this, pool
      ensures !destroyed && pool.Valid()
      ensures var r := Write(old(State()), segmentSize, data, off);
        && State() == r.next
        && (r.outcome.Acknowledged? ==> ack == Some(r.outcome.ack) && unchanged(pool))
        && (r.outcome.ClientRequested? ==> ack == None && pool.Acquired(Waiter(WRITE_ON_CLIENT, id), isReady))
    {
      if currentSize != off {
        return Some(Ack(false, 0));
      }
      segmentBuf := segmentBuf + data;
      currentSize := currentSize + |data|;
      if |segmentBuf| >= segmentSize {
        var accepted := pool.Acquire(WRITE_ON_CLIENT, id, isReady);
        ack := None;
      } else {
        ack := Some(Ack(true, |data|));
      }
    }

    /** The write-segment handler (the second handler in the file, which
        the flush refers to as the write handler), run with a client. */
    method OnClientForSegment() returns (req: Request)
      requires !destroyed
      modifies this
      ensures !destroyed
      ensures var u := UploadSegment(old(State()), names);
        State() == u.next && req == u.request
    {
      req := Request(Segment, SegmentPath(names.container, names.fname, segmentCount), [], segmentBuf);
      segmentCount := segmentCount + 1;
      segmentBuf := [];
    }

    /** The release handler, run with a client. */
    method OnClientForRelease() returns (req: Request)
      requires !destroyed
      modifies this
      ensures !destroyed
      ensures var u := UploadOnRelease(old(State()), names);
        State() == u.next && req == u.request
    {
      var c, f := names.container, names.fname;
      if segmentBuf == [] {
        manifestHandled := true;
        if segmentCount > 0 {
          req := Request(Manifest, ObjectPath(c, f), [Header(MANIFEST_HEADER, ManifestPrefix(c, f))], segmentBuf);
        } else {
          req := Request(EmptyFile, ObjectPath(c, f), [], segmentBuf);
        }
      } else {
        if segmentCount > 0 {
          req := Request(LastSegment, SegmentPath(c, f, segmentCount), [], segmentBuf);
        } else {
          req := Request(SmallFile, SmallFilePath(c, f), [], segmentBuf);
          manifestHandled := true;
        }
      }
      segmentBuf := [];
    }

    /** hfs_fileop_release: asks the pool for a client for the release handler. */
    method Release(pool: Pool, isReady: Handle -> bool) returns (accepted: bool)
      requires !destroyed && pool.Valid()
      modifies pool
      ensures pool.Valid() && pool.Acquired(Waiter(RELEASE_ON_CLIENT, id), isReady)
      ensures accepted <==> |old(pool.queue)| < pool.maxQueue
    {
      accepted := pool.Acquire(RELEASE_ON_CLIENT, id, isReady);
    }

    /** The upload-completion handler: destroys the operation once the
        manifest is handled, and otherwise releases it again. */
    method OnSent(pool: Pool, isReady: Handle -> bool) returns (action: SentAction)
      requires !destroyed && pool.Valid()
      modifies this, pool
      ensures pool.Valid() && State() == old(State())
      ensures action == AfterSent(old(State()))
      ensures action == DestroyOp ==> destroyed && unchanged(pool)
      ensures action == ReleaseAgain ==> !destroyed && pool.Acquired(Waiter(RELEASE_ON_CLIENT, id), isReady)
    {
      if manifestHandled {
        destroyed := true;
        action := DestroyOp;
      } else {
        var accepted := Release(pool, isReady);
        action := ReleaseAgain;
      }
    }
  }
}
