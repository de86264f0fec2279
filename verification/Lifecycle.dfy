/**
 What one request does to the upload it names (unrouted.go, draft.go), as functions of the
 request, of the answers the environment gives it, and of the upload's slot in the store.

 Each function is one stretch of a handler, from one store call to the handler's answer, so
 the same functions specify the sequential handlers (Handler.dfy) and what remains to be
 done at every step of a concurrent run (Steps.dfy).
 */
module Lifecycle {
  import opened Prelude
  import opened BodyReaders
  import UploadConcat

  type ID = string

  // ------------------------------------------------------------------ the store's records

  datatype FileInfo = FileInfo(size: int, sizeIsDeferred: bool, offset: nat,
                               isPartial: bool, isFinal: bool, partialUploads: seq<ID>)

  datatype Upload = Upload(info: FileInfo, data: seq<byte>)

  /** The kind of POST that created an upload. */
  datatype Origin = V1 | V1Final | Draft

  /**
   Everything that happened under one ID: the stored upload, which kind of POST created it
   (None while the ID is unused), and how many FinishUpload calls and complete events it had.
   */
  datatype Slot = Slot(upload: Option<Upload>, creator: Option<Origin>, finishes: nat, completes: nat)

  const UNUSED: Slot := Slot(None, None, 0, 0)

  predicate Complete(info: FileInfo) {
    !info.sizeIsDeferred && info.offset == info.size
  }

  // ------------------------------------------------------------------ requests and answers

  datatype Error =
    | ErrInvalidContentType | ErrInvalidOffset | ErrNotFound | ErrModifyFinal | ErrMismatchOffset
    | ErrNotImplemented | ErrInvalidUploadLength | ErrSizeExceeded | ErrMaxSizeExceeded | ErrUploadNotFinished
    | ErrConcatenationUnsupported | ErrInvalidConcat | ErrBadUploadID | ErrLockTimeout
    | ErrUploadLengthAndUploadDeferLength | ErrInvalidUploadDeferLength
    | BodyError(cause: Cause)
    | External(code: int)  // whatever the store, the locker or a callback returns

  /** A numeric header after strconv.ParseInt. */
  datatype Header = Absent | Malformed | Value(n: int64)

  datatype PostForm =
    | FormV1(concat: string, uploadLength: Header, deferLength: string, chunk: bool)
    | FormDraft(uploadLength: Header, complete: bool)

  /** length is the Content-Length (negative when unknown); a body of None is a missing stream. */
  datatype Request =
    | Head(id: ID, draft: bool)
    | Get(id: ID)
    | Delete(id: ID)
    | Patch(id: ID, contentTypeOk: bool, offset: Header, declare: Header, length: int64, body: Option<Stream>)
    | Post(id: ID, form: PostForm, length: int64, body: Option<Stream>)

  datatype Response =
    | Err(error: Error)
    | HeadV1(offset: nat, length: Option<int>, partial: bool, final: Option<seq<ID>>)
    | HeadDraft(offset: nat, length: Option<int>, complete: bool)
    | NoContent
    | Content(data: seq<byte>)
    | Patched(offset: nat)
    | Deleted
    | Created(id: ID, uploaded: Option<nat>)

  /** deleteReadsInfo: NotifyTerminatedUploads is on or there is a PreUploadTerminateCallback. */
  datatype Config = Config(maxSize: int64, usesTerminater: bool, usesLengthDeferrer: bool, usesConcater: bool,
                           disableConcatenation: bool, notifyCompleteUploads: bool,
                           deleteReadsInfo: bool, basePath: string)

  /**
   What the locker, the store and the callbacks answer to one request; None is success.  Reading
   the parts of a final upload fails at part sizingAt (which of the two calls for it fails does
   not matter: sizeOfUploads stops there), and joining them after concatAt parts.  newID is the ID
   the create callback asks for, if any.
   */
  datatype Env = Env(lock: Option<Error>, lookup: Option<Error>, info: Option<Error>, reader: Option<Error>,
                     declare: Option<Error>, write: Option<Error>, terminate: Option<Error>,
                     terminateCallback: Option<Error>, finish: Option<Error>, finishCallback: Option<Error>,
                     createCallback: Option<Error>, newID: string, create: Option<Error>, infoAgain: Option<Error>,
                     copy: Option<Error>, sizing: Option<Error>, sizingAt: nat,
                     concat: Option<Error>, concatAt: nat, concatCallback: Option<Error>)

  /** The same answers, while somebody has the lock of the request's upload or not: a lock that is held times out. */
  function Facing(env: Env, busy: bool): (e: Env)
    ensures e == env.(lock := e.lock) && (e.lock.None? <==> env.lock.None? && !busy)
  {
    if busy && env.lock.None? then env.(lock := Some(ErrLockTimeout)) else env
  }

  // ------------------------------------------------------------------ store calls

  function NewUpload(s: Slot, info: FileInfo, creator: Origin): Slot {
    Slot(Some(Upload(info, [])), Some(creator), s.finishes, s.completes)
  }

  function Declared(info: FileInfo, n: int): FileInfo {
    info.(size := n, sizeIsDeferred := false)
  }

  function DeclareLength(s: Slot, n: int): Slot {
    match s.upload
    case None => s
    case Some(u) => s.(upload := Some(u.(info := Declared(u.info, n))))
  }

  function Zeros(n: int): (z: seq<byte>)
    ensures |z| == Max(n, 0)
  {
    seq(Max(n, 0), i => 0)
  }

  /** The store's bytes with b written at an offset; a gap before the offset is filled with zeros. */
  function WriteAt(data: seq<byte>, offset: nat, b: seq<byte>): seq<byte> {
    Cut(data, offset) + Zeros(offset - |data|) + b
  }

  /** The slot once a WriteChunk at info.offset has persisted what w says it kept. */
  function Stored(s: Slot, info: FileInfo, w: Write): Slot {
    match s.upload
    case None => s
    case Some(u) =>
      s.(upload := Some(Upload(u.info.(offset := info.offset + w.kept),
                             WriteAt(u.data, info.offset, Cut(w.got, w.kept)))))
  }

  /** Writing a chunk anew at its offset replaces what was written of it before. */
  lemma StoredTwice(s: Slot, info: FileInfo, v: Write, w: Write)
    ensures Stored(Stored(s, info, v), info, w) == Stored(s, info, w)
  {
    if s.upload.Some? {
      var data := s.upload.value.data;
      var front := Cut(data, info.offset) + Zeros(info.offset - |data|);
      assert |front| == info.offset;
      var once := WriteAt(data, info.offset, Cut(v.got, v.kept));
      assert once == front + Cut(v.got, v.kept);
      assert Cut(once, info.offset) == front;
      assert Zeros(info.offset - |once|) == [];
      assert front + [] == front;
    }
  }

  function Terminated(s: Slot): Slot {
    s.(upload := None)
  }

  // ------------------------------------------------------------------ finishing

  datatype Finish = Finish(slot: Slot, error: Option<Error>)

  /** emitFinishEvents */
  function EmitFinishEvents(cfg: Config, callback: Option<Error>, s: Slot): Finish {
    if callback.Some? then Finish(s, callback)
    else Finish(if cfg.notifyCompleteUploads then s.(completes := s.completes + 1) else s, None)
  }

  /** finishUploadIfComplete */
  function FinishUploadIfComplete(cfg: Config, env: Env, info: FileInfo, s: Slot): Finish {
    if !Complete(info) then Finish(s, None)
    else
      var called := s.(finishes := s.finishes + 1);
      if env.finish.Some? then Finish(called, env.finish)
      else EmitFinishEvents(cfg, env.finishCallback, called)
  }

  // ------------------------------------------------------------------ before the body is read

  /** What a request leaves behind and answers. */
  datatype Outcome = Outcome(slot: Slot, response: Response)

  /** Either the handler has answered, or it is inside writeChunk with the body about to be read. */
  datatype Prepared = Answered(outcome: Outcome) | Writes(slot: Slot, info: FileInfo)

  function Answer(s: Slot, response: Response): Prepared {
    Answered(Outcome(s, response))
  }

  /** The size check of writeChunk, in 64-bit arithmetic. */
  predicate TooLong(info: FileInfo, length: int64) {
    !info.sizeIsDeferred && Wrap(info.offset + length) > info.size
  }

  /** The cap on the body: a positive Content-Length replaces what the size or MaxSize leaves. */
  function BodyCap(cfg: Config, info: FileInfo, length: int64): int {
    if length > 0 then length
    else if !info.sizeIsDeferred then info.size - info.offset
    else if cfg.maxSize > 0 then cfg.maxSize - info.offset
    else MAX_INT64
  }

  function EnterWrite(s: Slot, info: FileInfo, length: int64, body: Option<Stream>): (b: Prepared)
    ensures b.Writes? <==> !TooLong(info, length) && body.Some?
    ensures if b.Writes? then b == Writes(s, info) else b.outcome.slot == s && b.outcome.response.Err?
  {
    if TooLong(info, length) then Answer(s, Err(ErrSizeExceeded))
    else if body.None? then Answer(s, Err(ErrNotFound))
    else Writes(s, info)
  }

  function HeadResponse(info: FileInfo, draft: bool): Response {
    var length := if info.sizeIsDeferred then None else Some(info.size);
    if draft then HeadDraft(info.offset, length, Complete(info))
    else HeadV1(info.offset, length, info.isPartial, if info.isFinal then Some(info.partialUploads) else None)
  }

  /** The declared length of a PATCH is acceptable. */
  predicate AcceptableLength(cfg: Config, info: FileInfo, declare: Header) {
    && declare.Value? && 0 <= declare.n && info.offset <= declare.n
    && !(cfg.maxSize > 0 && declare.n > cfg.maxSize)
  }

  function FromDeclare(req: Request, env: Env, info: FileInfo, n: int, s: Slot): Prepared
    requires req.Patch?
  {
    if env.declare.Some? then Answer(s, Err(env.declare.value))
    else EnterWrite(DeclareLength(s, n), Declared(info, n), req.length, req.body)
  }

  /** PatchFile between GetInfo and writeChunk. */
  function PatchDecision(cfg: Config, req: Request, info: FileInfo): Option<Response>
    requires req.Patch?
  {
    if info.isFinal then Some(Err(ErrModifyFinal))
    else if !(req.offset.Value? && req.offset.n == info.offset) then Some(Err(ErrMismatchOffset))
    else if Complete(info) then Some(Patched(info.offset))
    else if req.declare.Absent? then None
    else if !cfg.usesLengthDeferrer then Some(Err(ErrNotImplemented))
    else if !info.sizeIsDeferred || !AcceptableLength(cfg, info, req.declare) then Some(Err(ErrInvalidUploadLength))
    else None
  }

  function FromGetInfo(cfg: Config, req: Request, env: Env, s: Slot): Prepared
    requires !req.Post?
  {
    if env.info.Some? then Answer(s, Err(env.info.value))
    else if s.upload.None? then Answer(s, Err(ErrNotFound))
    else
      var info := s.upload.value.info;
      match req
      case Head(_, draft) => Answer(s, HeadResponse(info, draft))
      case Get(_) => if info.offset == 0 then Answer(s, NoContent) else FromGetReader(env, s)
      case Delete(_) => FromTerminate(env, s)
      case Patch(_, _, _, declare, length, body) =>
        var answer := PatchDecision(cfg, req, info);
        if answer.Some? then Answer(s, answer.value)
        else if declare.Value? then FromDeclare(req, env, info, declare.n, s)
        else EnterWrite(s, info, length, body)
  }

  function FromGetReader(env: Env, s: Slot): Prepared {
    if env.reader.Some? then Answer(s, Err(env.reader.value))
    else if env.copy.Some? then Answer(s, Err(env.copy.value))
    else Answer(s, Content(if s.upload.Some? then s.upload.value.data else []))
  }

  /** DelFile from the PreUploadTerminateCallback on. */
  function FromTerminate(env: Env, s: Slot): Prepared {
    if env.terminateCallback.Some? then Answer(s, Err(env.terminateCallback.value))
    else if env.terminate.Some? then Answer(s, Err(env.terminate.value))
    else Answer(Terminated(s), Deleted)
  }

  /** HeadFile, GetFile, PatchFile and DelFile once the lock is held. */
  function FromGetUpload(cfg: Config, req: Request, env: Env, s: Slot): Prepared
    requires !req.Post?
  {
    if env.lookup.Some? then Answer(s, Err(env.lookup.value))
    else if s.upload.None? then Answer(s, Err(ErrNotFound))
    else if req.Delete? && !cfg.deleteReadsInfo then FromTerminate(env, s)
    else FromGetInfo(cfg, req, env, s)
  }

  /** The Content-Length added to the offset stays within an int64 (unrouted.go:556). */
  predicate LengthFits(offset: nat, length: int64) {
    offset + length <= MAX_INT64
  }

  predicate Sane(req: Request) {
    req.Patch? && req.offset.Value? && req.offset.n >= 0 ==> LengthFits(req.offset.n, req.length)
  }

  // ------------------------------------------------------------------ creation

  /** validateNewUploadLength; the size and whether it is deferred, or the error. */
  datatype NewLength = NewLength(size: int, deferred: bool) | BadLength(error: Error)

  function ValidateNewUploadLength(uploadLength: Header, deferLength: string, supportsDefer: bool): (r: NewLength)
    ensures r.NewLength? <==>
            || (uploadLength.Value? && uploadLength.n >= 0 && deferLength == "")
            || (uploadLength.Absent? && deferLength == "1" && supportsDefer)
    ensures r.NewLength? ==> r.deferred == (deferLength == "1") && (!r.deferred ==> uploadLength.n == r.size)
  {
    if deferLength == "1" && !supportsDefer then BadLength(ErrNotImplemented)
    else if !uploadLength.Absent? && deferLength != "" then BadLength(ErrUploadLengthAndUploadDeferLength)
    else if deferLength != "" && deferLength != "1" then BadLength(ErrInvalidUploadDeferLength)
    else if deferLength == "1" then NewLength(0, true)
    else if uploadLength.Value? && uploadLength.n >= 0 then NewLength(uploadLength.n, false)
    else BadLength(ErrInvalidUploadLength)
  }

  /** getDraftUploadLength; negative Upload-Length values are let through. */
  function GetDraftUploadLength(uploadLength: Header, complete: bool, length: int64): (r: NewLength)
    ensures r.BadLength? <==>
            uploadLength.Malformed? || (uploadLength.Value? && complete && 0 <= length && length != uploadLength.n)
    ensures r.NewLength? && !r.deferred ==>
              (uploadLength.Value? ==> r.size == uploadLength.n) && (complete && 0 <= length ==> r.size == length)
    ensures r.NewLength? ==> (r.deferred <==> uploadLength.Absent? && !(complete && 0 <= length))
  {
    if uploadLength.Malformed? then BadLength(ErrInvalidUploadLength)
    else if complete && length >= 0 && uploadLength.Value? && uploadLength.n != length
         then BadLength(ErrInvalidUploadLength)
    else if uploadLength.Value? then NewLength(uploadLength.n, false)
    else if complete && length >= 0 then NewLength(length, false)
    else NewLength(0, true)
  }

  /** What a POST asks for, after its headers have been checked; the size of a final upload is not known yet. */
  datatype Creation = Plain(info: FileInfo) | FinalOf(parts: seq<ID>) | Rejected(error: Error)

  function CreationOf(cfg: Config, req: Request): Creation
    requires req.Post?
  {
    match req.form
    case FormV1(concat, uploadLength, deferLength, chunk) =>
      var header := if cfg.usesConcater then concat else "";
      if header != "" && cfg.disableConcatenation then Rejected(ErrConcatenationUnsupported)
      else
        var c := UploadConcat.ParseConcat(header, cfg.basePath);
        if c.error.Some? then Rejected(if c.error.value.ErrNotFound? then ErrNotFound else ErrInvalidConcat)
        else if c.isFinal then if chunk then Rejected(ErrModifyFinal) else FinalOf(c.ids)
        else
          (match ValidateNewUploadLength(uploadLength, deferLength, cfg.usesLengthDeferrer)
           case BadLength(e) => Rejected(e)
           case NewLength(size, deferred) =>
             if TooBig(cfg, size) then Rejected(ErrMaxSizeExceeded)
             else Plain(FileInfo(size, deferred, 0, c.isPartial, false, [])))
    case FormDraft(uploadLength, complete) =>
      match GetDraftUploadLength(uploadLength, complete, req.length)
      case BadLength(e) => Rejected(e)
      case NewLength(size, deferred) =>
        if deferred && !cfg.usesLengthDeferrer then Rejected(ErrNotImplemented)
        else Plain(FileInfo(size, deferred, 0, false, false, []))
  }

  predicate TooBig(cfg: Config, size: int) {
    cfg.maxSize > 0 && size > cfg.maxSize
  }

  function Creator(req: Request, info: FileInfo): Origin
    requires req.Post?
  {
    if req.form.FormDraft? then Draft else if info.isFinal then V1Final else V1
  }

  predicate HasChunk(req: Request)
    requires req.Post?
  {
    req.form.FormDraft? || req.form.chunk
  }

  /** PostFile and PostFileV2 from the GetInfo after NewUpload to writeChunk. */
  function FromNewUpload(cfg: Config, req: Request, env: Env, s: Slot): Prepared
    requires req.Post?
  {
    if env.info.Some? then Answer(s, Err(env.info.value))
    else if s.upload.None? then Answer(s, Err(ErrNotFound))
    else
      var info := s.upload.value.info;
      if HasChunk(req) then
        if env.lock.Some? then Answer(s, Err(env.lock.value)) else EnterWrite(s, info, req.length, req.body)
      else if !info.sizeIsDeferred && info.size == 0 then
        Answered(FromTailFinish(cfg, env, info, s, Created(req.id, None)))
      else Answer(s, Created(req.id, None))
  }

  /** finishUploadIfComplete as the last thing a handler does before its answer. */
  function FromTailFinish(cfg: Config, env: Env, info: FileInfo, s: Slot, response: Response): Outcome {
    var f := FinishUploadIfComplete(cfg, env, info, s);
    Outcome(f.slot, if f.error.Some? then Err(f.error.value) else response)
  }

  /** validateUploadID */
  predicate ValidUploadID(id: string) {
    id == "" || (id[0] != '/' && id[|id| - 1] != '/')
  }

  /** The first thing that goes wrong before an upload exists. */
  function CreateRefusal(env: Env): Option<Error> {
    if env.createCallback.Some? then env.createCallback
    else if !ValidUploadID(env.newID) then Some(ErrBadUploadID)
    else env.create
  }

  /** A POST that creates a plain upload, from the PreUploadCreateCallback on. */
  function FromCreate(cfg: Config, req: Request, env: Env, s: Slot): Prepared
    requires req.Post? && CreationOf(cfg, req).Plain?
  {
    if CreateRefusal(env).Some? then Answer(s, Err(CreateRefusal(env).value))
    else FromNewUpload(cfg, req, env, NewUpload(s, CreationOf(cfg, req).info, Creator(req, CreationOf(cfg, req).info)))
  }

  // ------------------------------------------------------------------ after WriteChunk has returned

  /** The error writeChunk reports: the store's own comes before the body's. */
  function WriteError(env: Env, w: Write): Option<Error> {
    if env.write.Some? then env.write
    else if HasError(w.reader).Some? then Some(BodyError(HasError(w.reader).value))
    else None
  }

  predicate TerminatesOn(cfg: Config, w: Write) {
    HasError(w.reader) == Some(ErrUploadStopped) && cfg.usesTerminater
  }

  /** The rest of a handler from hasError on; info is what writeChunk was given. */
  function FromReturn(cfg: Config, req: Request, env: Env, info: FileInfo, w: Write, s: Slot): Outcome {
    var s1 := if TerminatesOn(cfg, w) && env.terminate.None? then Terminated(s) else s;
    FromChunkFinish(cfg, req, env, info, WriteError(env, w), info.offset + w.kept, s1)
  }

  function FromChunkFinish(cfg: Config, req: Request, env: Env, info: FileInfo, err: Option<Error>, newOffset: nat,
                           s: Slot): Outcome {
    var f := FinishUploadIfComplete(cfg, env, info.(offset := newOffset), s);
    FromChunk(cfg, req, env, info, if err.Some? then err else f.error, newOffset, f.slot)
  }

  /** What the caller of writeChunk does with its result. */
  function FromChunk(cfg: Config, req: Request, env: Env, info: FileInfo, err: Option<Error>, newOffset: nat,
                     s: Slot): Outcome {
    if err.Some? then Outcome(s, Err(err.value))
    else if !req.Post? then Outcome(s, Patched(newOffset))
    else if req.form.FormDraft? && req.form.complete && info.sizeIsDeferred
         then FromGetInfoAgain(cfg, req, env, newOffset, s)
    else Outcome(s, Created(req.id, Some(newOffset)))
  }

  /** PostFileV2, step 4: the length of a deferred upload that the client marked complete. */
  function FromGetInfoAgain(cfg: Config, req: Request, env: Env, newOffset: nat, s: Slot): Outcome
    requires req.Post?
  {
    if env.infoAgain.Some? then Outcome(s, Err(env.infoAgain.value))
    else if s.upload.None? then Outcome(s, Err(ErrNotFound))
    else FromDeclareEnd(cfg, req, env, s.upload.value.info, newOffset, s)
  }

  function FromDeclareEnd(cfg: Config, req: Request, env: Env, info: FileInfo, newOffset: nat, s: Slot): Outcome
    requires req.Post?
  {
    if env.declare.Some? then Outcome(s, Err(env.declare.value))
    else
      FromTailFinish(cfg, env, Declared(info, info.offset), DeclareLength(s, info.offset),
                     Created(req.id, Some(newOffset)))
  }

  // ------------------------------------------------------------------ whole requests

  /** The checks a request passes before it asks for the lock. */
  function Refusal(cfg: Config, req: Request): Option<Error> {
    if req.Delete? && !cfg.usesTerminater then Some(ErrNotImplemented)
    else if req.Patch? && !req.contentTypeOk then Some(ErrInvalidContentType)
    else if req.Patch? && !(req.offset.Value? && req.offset.n >= 0) then Some(ErrInvalidOffset)
    else if !req.Post? && req.id == "" then Some(ErrNotFound)
    else if req.Post? && CreationOf(cfg, req).Rejected? then Some(CreationOf(cfg, req).error)
    else None
  }

  predicate IsFinalPost(cfg: Config, req: Request) {
    req.Post? && CreationOf(cfg, req).FinalOf?
  }

  /** The write a handler starts when it gets to WriteChunk. */
  function Begun(cfg: Config, req: Request, info: FileInfo): Write {
    var body := if (req.Patch? || req.Post?) && req.body.Some? then req.body.value else [];
    var length: int64 := if req.Patch? || req.Post? then req.length else 0;
    StartWrite(NewReader(body, BodyCap(cfg, info, length)))
  }

  function Prepare(cfg: Config, req: Request, env: Env, s: Slot): Prepared
    requires !IsFinalPost(cfg, req)
  {
    match Refusal(cfg, req)
    case Some(e) => Answer(s, Err(e))
    case None =>
      if req.Post? then FromCreate(cfg, req, env, s)
      else if env.lock.Some? then Answer(s, Err(env.lock.value))
      else FromGetUpload(cfg, req, env, s)
  }

  /**
   One request from start to end on the slot it names, with nothing in between but the events
   of its own body transfer.
   */
  function Handle(cfg: Config, req: Request, env: Env, plan: seq<WriteEvent>, s: Slot): Outcome
    requires !IsFinalPost(cfg, req)
  {
    match Prepare(cfg, req, env, s)
    case Answered(outcome) => outcome
    case Writes(s1, info) =>
      var w := WriteRun(Begun(cfg, req, info), plan);
      FromReturn(cfg, req, env, info, w, Stored(s1, info, w))
  }
}
