/** Properties of one file operation over whole sequences of calls
    (src/hfs_file_operation.c): no written byte is lost or uploaded twice,
    segments are numbered in order and never share an object, and a
    release finishes within two upload rounds. */
module FileOpTraces {
  import opened ClientPool
  import opened SegmentPaths
  import opened FileOperation
  import opened Regrouping

  datatype Config = Config(names: Names, segmentSize: nat)

  /** A call into the operation: a write, or one of the two handlers
      running with the client the pool handed it. */
  datatype OpEvent = WriteAt(data: seq<byte>, off: int) | SegmentClient | ReleaseClient

  function StepOp(cfg: Config, s: OpState, e: OpEvent): OpState
  {
    match e
    case WriteAt(data, off) => Write(s, cfg.segmentSize, data, off).next
    case SegmentClient => UploadSegment(s, cfg.names).next
    case ReleaseClient => UploadOnRelease(s, cfg.names).next
  }

  /** The bytes a write accepts. */
  function AcceptedBy(s: OpState, e: OpEvent): seq<byte>
  {
    if e.WriteAt? && e.off == s.currentSize then e.data else []
  }

  /** The body of the upload a handler builds. */
  function UploadedBy(cfg: Config, s: OpState, e: OpEvent): seq<byte>
  {
    match e
    case WriteAt(_, _) => []
    case SegmentClient => UploadSegment(s, cfg.names).request.body
    case ReleaseClient => UploadOnRelease(s, cfg.names).request.body
  }

  /** The path of the segment upload a handler builds, if it builds one. */
  function SegmentBy(cfg: Config, s: OpState, e: OpEvent): seq<string>
  {
    if e.SegmentClient? then [UploadSegment(s, cfg.names).request.path] else []
  }

  function RunOp(cfg: Config, s: OpState, t: seq<OpEvent>): OpState
    decreases |t|
  {
    if t == [] then s else RunOp(cfg, StepOp(cfg, s, t[0]), t[1..])
  }

  /** All bytes the writes in `t` accepted, in order. */
  function Accepted(cfg: Config, s: OpState, t: seq<OpEvent>): seq<byte>
    decreases |t|
  {
    if t == [] then [] else AcceptedBy(s, t[0]) + Accepted(cfg, StepOp(cfg, s, t[0]), t[1..])
  }

  /** The bodies of all uploads the handlers in `t` built, in order. */
  function Uploaded(cfg: Config, s: OpState, t: seq<OpEvent>): seq<byte>
    decreases |t|
  {
    if t == [] then [] else UploadedBy(cfg, s, t[0]) + Uploaded(cfg, StepOp(cfg, s, t[0]), t[1..])
  }

  /** The paths of all segment uploads (not the last segment) in `t`, in order. */
  function Segments(cfg: Config, s: OpState, t: seq<OpEvent>): seq<string>
    decreases |t|
  {
    if t == [] then [] else SegmentBy(cfg, s, t[0]) + Segments(cfg, StepOp(cfg, s, t[0]), t[1..])
  }

  /** One call moves bytes from the writes to the buffer, or from the
      buffer to an upload, in order. */
  lemma StepKeepsStream(cfg: Config, s: OpState, e: OpEvent)
    ensures UploadedBy(cfg, s, e) + StepOp(cfg, s, e).segmentBuf == s.segmentBuf + AcceptedBy(s, e)
    ensures StepOp(cfg, s, e).currentSize == s.currentSize + |AcceptedBy(s, e)|
  {
  }

  /** No byte is lost or sent twice: the bodies uploaded during `t`,
      followed by what is left in the buffer, are exactly the buffer's
      earlier content followed by the bytes the writes accepted, and the
      size counts the accepted bytes. */
  lemma {:induction false} NoByteLostOrDuplicated(cfg: Config, s: OpState, t: seq<OpEvent>)
    ensures Uploaded(cfg, s, t) + RunOp(cfg, s, t).segmentBuf == s.segmentBuf + Accepted(cfg, s, t)
    ensures RunOp(cfg, s, t).currentSize == s.currentSize + |Accepted(cfg, s, t)|
    decreases |t|
  {
    if t != [] {
      var e, next := t[0], StepOp(cfg, s, t[0]);
      NoByteLostOrDuplicated(cfg, next, t[1..]);
      StepKeepsStream(cfg, s, e);
      Regroup(s.segmentBuf, AcceptedBy(s, e), UploadedBy(cfg, s, e), next.segmentBuf,
              Accepted(cfg, next, t[1..]), Uploaded(cfg, next, t[1..]), RunOp(cfg, next, t[1..]).segmentBuf);
    }
  }

  /** From a fresh operation: uploads and buffer together are the written
      stream, and the size is its length. */
  lemma FreshUploadsWrittenStream(cfg: Config, t: seq<OpEvent>)
    ensures Uploaded(cfg, Fresh(), t) + RunOp(cfg, Fresh(), t).segmentBuf == Accepted(cfg, Fresh(), t)
    ensures RunOp(cfg, Fresh(), t).currentSize == |Accepted(cfg, Fresh(), t)|
  {
    NoByteLostOrDuplicated(cfg, Fresh(), t);
  }

  /** Segments are uploaded under consecutive numbers, starting at the
      count the run starts with, and the count ends one past the last. */
  lemma {:induction false} SegmentsNumberedInOrder(cfg: Config, s: OpState, t: seq<OpEvent>)
    ensures var paths := Segments(cfg, s, t);
      && RunOp(cfg, s, t).segmentCount == s.segmentCount + |paths|
      && forall i :: 0 <= i < |paths| ==>
           paths[i] == SegmentPath(cfg.names.container, cfg.names.fname, s.segmentCount + i)
    decreases |t|
  {
    if t != [] {
      var e, next := t[0], StepOp(cfg, s, t[0]);
      SegmentsNumberedInOrder(cfg, next, t[1..]);
    }
  }

  /** No two segments of a run share an object, and a last segment sent
      after the run does not overwrite any of them. */
  lemma SegmentObjectsDistinct(cfg: Config, s: OpState, t: seq<OpEvent>)
    ensures var paths := Segments(cfg, s, t);
      var last := UploadOnRelease(RunOp(cfg, s, t), cfg.names).request;
      && (forall i, j :: 0 <= i < j < |paths| ==> paths[i] != paths[j])
      && (last.kind == LastSegment ==> last.path !in paths)
  {
    var c, f := cfg.names.container, cfg.names.fname;
    var paths := Segments(cfg, s, t);
    var final := RunOp(cfg, s, t);
    SegmentsNumberedInOrder(cfg, s, t);
    forall i, j | 0 <= i < j < |paths| ensures paths[i] != paths[j] {
      if paths[i] == paths[j] {
        SegmentPathInjective(c, f, s.segmentCount + i, s.segmentCount + j);
      }
    }
    var last := UploadOnRelease(final, cfg.names).request;
    if last.kind == LastSegment && last.path in paths {
      var i :| 0 <= i < |paths| && paths[i] == last.path;
      SegmentPathInjective(c, f, s.segmentCount + i, final.segmentCount);
    }
  }

  /** The request bodies, concatenated. */
  function Bodies(rs: seq<Request>): seq<byte>
  {
    if rs == [] then [] else rs[0].body + Bodies(rs[1..])
  }

  /** What a release does, when the pool hands a client every time and
      each upload completes: the uploads it makes and the state it ends in. */
  datatype Rounds = Rounds(final: OpState, requests: seq<Request>)

  /** Release rounds until the completion handler destroys the operation.
      Each round drains the buffer, so a second round always finishes: a
      release makes one or two uploads, which carry exactly the buffer. */
  function ReleaseRounds(s: OpState, names: Names): (r: Rounds)
    ensures 1 <= |r.requests| <= 2
    ensures r.final.manifestHandled && r.final.segmentBuf == []
    ensures AfterSent(r.final) == DestroyOp
    ensures Bodies(r.requests) == s.segmentBuf
    ensures |r.requests| == 2 <==> !s.manifestHandled && s.segmentBuf != [] && s.segmentCount > 0
    ensures r.requests[|r.requests| - 1].kind in {Manifest, SmallFile, EmptyFile} || s.manifestHandled
    decreases if s.segmentBuf == [] then 0 else 1
  {
    var u := UploadOnRelease(s, names);
    if u.next.manifestHandled then Rounds(u.next, [u.request])
    else
      var rest := ReleaseRounds(u.next, names);
      Rounds(rest.final, [u.request] + rest.requests)
  }

  /** Because the write-segment upload completes through the release
      completion handler, a file whose first segment fills up is finalised
      as soon as that segment is uploaded: a manifest naming one segment is
      sent and the operation is destroyed, though more writes may follow. */
  lemma FirstSegmentFinalises(names: Names, segmentSize: nat, data: seq<byte>)
    requires |data| >= segmentSize
    ensures var w := Write(Fresh(), segmentSize, data, 0);
      var u := UploadSegment(w.next, names);
      var r := ReleaseRounds(u.next, names);
      && w.outcome == ClientRequested
      && AfterSent(u.next) == ReleaseAgain
      && |r.requests| == 1 && r.requests[0].kind == Manifest
      && r.requests[0].headers == [Header(MANIFEST_HEADER, ManifestPrefix(names.container, names.fname))]
      && AfterSent(r.final) == DestroyOp
  {
  }
}
