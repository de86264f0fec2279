/**
 What every request answers, and when: each handler as one list of its guards in their order,
 with the error that each one answers, down to the successful answer.  Handle, which is made of
 the stretches between store calls, is shown to be these lists.
 */
module Answers {
  import opened Prelude
  import opened BodyReaders
  import opened Lifecycle
  import opened Confluence
  import UploadConcat

  /** A condition, the error that is answered if it does not hold, and what is answered otherwise. */
  function Guard(holds: bool, error: Error, next: Response): Response {
    if holds then next else Err(error)
  }

  /** A call that may fail with an error of its own. */
  function Call(answer: Option<Error>, next: Response): Response {
    if answer.None? then next else Err(answer.value)
  }

  /** The same for a call that is only made under a condition. */
  function CallIf(made: bool, answer: Option<Error>, next: Response): Response {
    if made then Call(answer, next) else next
  }

  // ------------------------------------------------------------------ HEAD, GET and DELETE

  function InfoOf(s: Slot): FileInfo {
    if s.upload.Some? then s.upload.value.info else FileInfo(0, false, 0, false, false, [])
  }

  function DataOf(s: Slot): seq<byte> {
    if s.upload.Some? then s.upload.value.data else []
  }

  /** The request names an upload, gets its lock and finds it. */
  function Finding(req: Request, env: Env, s: Slot, next: Response): Response {
    Guard(req.id != "", ErrNotFound,
    Call(env.lock,
    Call(env.lookup,
    Guard(s.upload.Some?, ErrNotFound,
    next))))
  }

  lemma HeadAnswers(cfg: Config, req: Request, env: Env, s: Slot)
    requires req.Head?
    ensures var info := InfoOf(s);
            var length := if info.sizeIsDeferred then None else Some(info.size);
            Handle(cfg, req, env, [], s).response ==
              Finding(req, env, s,
              Call(env.info,
              if req.draft then HeadDraft(info.offset, length, length == Some(info.offset))
              else HeadV1(info.offset, length, info.isPartial,
                          if info.isFinal then Some(info.partialUploads) else None)))
  {
    hide CreationOf;
  }

  lemma GetAnswers(cfg: Config, req: Request, env: Env, s: Slot)
    requires req.Get? && (s.upload.Some? ==> s.upload.value.info.offset == |s.upload.value.data|)
    ensures var some := DataOf(s) != [];
            Handle(cfg, req, env, [], s).response ==
              Finding(req, env, s,
              Call(env.info,
              CallIf(some, env.reader,
              CallIf(some, env.copy,
              if some then Content(DataOf(s)) else NoContent))))
  {
    hide CreationOf;
  }

  lemma DeleteAnswers(cfg: Config, req: Request, env: Env, s: Slot)
    requires req.Delete?
    ensures Handle(cfg, req, env, [], s).response ==
              Guard(cfg.usesTerminater, ErrNotImplemented,
              Finding(req, env, s,
              CallIf(cfg.deleteReadsInfo, env.info,
              Call(env.terminateCallback,
              Call(env.terminate,
              Deleted)))))
  {
    hide CreationOf;
  }

  // ------------------------------------------------------------------ PATCH

  /** What writeChunk finds: the body fits, and there is one. */
  function Fitting(info: FileInfo, length: int64, body: Option<Stream>, next: Response): Response {
    Guard(info.sizeIsDeferred || Wrap(info.offset + length) <= info.size, ErrSizeExceeded,
    Guard(body.Some?, ErrNotFound,
    next))
  }

  /** And how it ends: with the store's error, the body's, or those of finishing if the upload is complete. */
  function Ending(env: Env, info: FileInfo, w: Write, next: Response): Response {
    var full := !info.sizeIsDeferred && info.offset + w.kept == info.size;
    var failure := HasError(w.reader);
    Call(env.write,
    Call(if failure.Some? then Some(BodyError(failure.value)) else None,
    CallIf(full, env.finish,
    CallIf(full, env.finishCallback,
    next))))
  }

  /** The local copy of the info that a PATCH writes with. */
  function PatchInfo(req: Request, s: Slot): FileInfo
    requires req.Patch?
  {
    if req.declare.Value? then InfoOf(s).(size := req.declare.n, sizeIsDeferred := false) else InfoOf(s)
  }

  lemma PatchAnswers(cfg: Config, req: Request, env: Env, plan: seq<WriteEvent>, s: Slot)
    requires req.Patch?
    ensures var was := InfoOf(s);
            var info := PatchInfo(req, s);
            var w := WriteRun(Begun(cfg, req, info), plan);
            var declares := !req.declare.Absent?;
            Handle(cfg, req, env, plan, s).response ==
              Guard(req.contentTypeOk, ErrInvalidContentType,
              Guard(req.offset.Value? && req.offset.n >= 0, ErrInvalidOffset,
              Finding(req, env, s,
              Call(env.info,
              Guard(!was.isFinal, ErrModifyFinal,
              Guard(req.offset.Value? && req.offset.n == was.offset, ErrMismatchOffset,
              if !was.sizeIsDeferred && was.offset == was.size then Patched(was.offset) else
              Guard(declares ==> cfg.usesLengthDeferrer, ErrNotImplemented,
              Guard(declares ==> was.sizeIsDeferred, ErrInvalidUploadLength,
              Guard(declares ==> req.declare.Value? && was.offset <= req.declare.n
                                 && (cfg.maxSize > 0 ==> req.declare.n <= cfg.maxSize), ErrInvalidUploadLength,
              CallIf(declares, env.declare,
              Fitting(info, req.length, req.body,
              Ending(env, info, w,
              Patched(info.offset + w.kept)))))))))))))
  {
    hide CreationOf, WriteRun, Begun, HasError, Stored;
  }

  // ------------------------------------------------------------------ POST

  /** The create callback, the ID it asks for, NewUpload and the GetInfo behind it. */
  function Creating(env: Env, next: Response): Response {
    var id := env.newID;
    Call(env.createCallback,
    Guard(id != "" ==> id[0] != '/' && id[|id| - 1] != '/', ErrBadUploadID,
    Call(env.create,
    Call(env.info,
    next))))
  }

  /** The headers of a v1 POST; the size of a final upload is checked later. */
  function V1Headers(cfg: Config, req: Request, next: Response): Response
    requires req.Post? && req.form.FormV1?
  {
    var form := req.form;
    var header := if cfg.usesConcater then form.concat else "";
    var c := UploadConcat.ParseConcat(header, cfg.basePath);
    var deferred := form.deferLength == "1";
    Guard(header != "" ==> !cfg.disableConcatenation, ErrConcatenationUnsupported,
    Guard(c.error != Some(UploadConcat.ErrNotFound), ErrNotFound,
    Guard(c.error != Some(UploadConcat.ErrInvalidConcat), ErrInvalidConcat,
    if c.isFinal then
      Guard(!form.chunk, ErrModifyFinal,
      next)
    else
      Guard(deferred ==> cfg.usesLengthDeferrer, ErrNotImplemented,
      Guard(form.uploadLength.Absent? || form.deferLength == "", ErrUploadLengthAndUploadDeferLength,
      Guard(form.deferLength == "" || deferred, ErrInvalidUploadDeferLength,
      Guard(deferred || (form.uploadLength.Value? && form.uploadLength.n >= 0), ErrInvalidUploadLength,
      Guard(form.uploadLength.Value? && cfg.maxSize > 0 ==> form.uploadLength.n <= cfg.maxSize, ErrMaxSizeExceeded,
      next))))))))
  }

  /** What a plain v1 POST creates. */
  function V1Info(cfg: Config, req: Request): FileInfo
    requires req.Post? && req.form.FormV1?
  {
    var size := if req.form.uploadLength.Value? then req.form.uploadLength.n else 0;
    FileInfo(size, req.form.deferLength == "1", 0, cfg.usesConcater && req.form.concat == "partial", false, [])
  }

  /** The headers decide what is created, before anything else is asked. */
  lemma V1HeadersDecide(cfg: Config, req: Request, next: Response)
    requires req.Post? && req.form.FormV1?
    ensures var c := CreationOf(cfg, req);
            && V1Headers(cfg, req, next) == (if c.Rejected? then Err(c.error) else next)
            && (c.Plain? ==> c.info == V1Info(cfg, req))
  {
    hide UploadConcat.ParseConcat;
    UploadConcat.FormOfHeader(if cfg.usesConcater then req.form.concat else "", cfg.basePath);
  }

  /** A v1 POST behind its headers. */
  function V1Rest(cfg: Config, req: Request, env: Env, plan: seq<WriteEvent>): Response
    requires req.Post? && req.form.FormV1?
  {
    var info := V1Info(cfg, req);
    var w := WriteRun(Begun(cfg, req, info), plan);
    var empty := !info.sizeIsDeferred && info.size == 0;
    Creating(env,
    if req.form.chunk then
      Call(env.lock,
      Fitting(info, req.length, req.body,
      Ending(env, info, w,
      Created(req.id, Some(w.kept)))))
    else
      CallIf(empty, env.finish,
      CallIf(empty, env.finishCallback,
      Created(req.id, None))))
  }

  lemma V1PostAnswers(cfg: Config, req: Request, env: Env, plan: seq<WriteEvent>)
    requires req.Post? && req.form.FormV1? && !IsFinalPost(cfg, req)
    ensures Handle(cfg, req, env, plan, UNUSED).response == V1Headers(cfg, req, V1Rest(cfg, req, env, plan))
  {
    hide WriteRun, Begun, HasError, Stored, CreationOf, V1Headers, V1Info;
    V1HeadersDecide(cfg, req, V1Rest(cfg, req, env, plan));
    StartsEmpty(cfg, req);
  }

  lemma StartsEmpty(cfg: Config, req: Request)
    requires req.Post? && req.form.FormV1?
    ensures V1Info(cfg, req).offset == 0 && !V1Info(cfg, req).isFinal
  {}

  function DraftInfo(req: Request): FileInfo
    requires req.Post? && req.form.FormDraft?
  {
    var stated := StatedLength(req);
    FileInfo(if stated.Some? then stated.value else 0, stated.None?, 0, false, false, [])
  }

  function DraftHeaders(cfg: Config, req: Request, next: Response): Response
    requires req.Post? && req.form.FormDraft?
  {
    var stated := req.form.uploadLength;
    Guard(!stated.Malformed?, ErrInvalidUploadLength,
    Guard(stated.Value? && req.form.complete && req.length >= 0 ==> stated.n == req.length, ErrInvalidUploadLength,
    Guard(DraftInfo(req).sizeIsDeferred ==> cfg.usesLengthDeferrer, ErrNotImplemented,
    next)))
  }

  lemma DraftHeadersDecide(cfg: Config, req: Request, next: Response)
    requires req.Post? && req.form.FormDraft?
    ensures var c := CreationOf(cfg, req);
            && DraftHeaders(cfg, req, next) == (if c.Rejected? then Err(c.error) else next)
            && !c.FinalOf? && (c.Plain? ==> c.info == DraftInfo(req))
  {}

  /** A draft POST behind its headers. */
  function DraftRest(cfg: Config, req: Request, env: Env, plan: seq<WriteEvent>): Response
    requires req.Post? && req.form.FormDraft?
  {
    var info := DraftInfo(req);
    var w := WriteRun(Begun(cfg, req, info), plan);
    var ends := req.form.complete && info.sizeIsDeferred;
    Creating(env,
    Call(env.lock,
    Fitting(info, req.length, req.body,
    Ending(env, info, w,
    CallIf(ends, env.infoAgain,
    CallIf(ends, env.declare,
    CallIf(ends, env.finish,
    CallIf(ends, env.finishCallback,
    Created(req.id, Some(w.kept))))))))))
  }

  /** From WriteChunk on: the length of an upload marked complete is declared at its end. */
  lemma DraftReturnAnswers(cfg: Config, req: Request, env: Env, info: FileInfo, w: Write, s: Slot)
    requires req.Post? && req.form.FormDraft? && s.upload.Some?
    requires s.upload.value.info == info.(offset := info.offset + w.kept)
    ensures var ends := req.form.complete && info.sizeIsDeferred;
            FromReturn(cfg, req, env, info, w, s).response ==
              Ending(env, info, w,
              CallIf(ends, env.infoAgain,
              CallIf(ends, env.declare,
              CallIf(ends, env.finish,
              CallIf(ends, env.finishCallback,
              Created(req.id, Some(info.offset + w.kept)))))))
  {
    hide HasError;
  }

  lemma DraftPostAnswers(cfg: Config, req: Request, env: Env, plan: seq<WriteEvent>)
    requires req.Post? && req.form.FormDraft? && !IsFinalPost(cfg, req)
    ensures Handle(cfg, req, env, plan, UNUSED).response == DraftHeaders(cfg, req, DraftRest(cfg, req, env, plan))
  {
    hide WriteRun, Begun, HasError, WriteAt, CreationOf, DraftHeaders, StatedLength, FromReturn, Ending;
    DraftHeadersDecide(cfg, req, DraftRest(cfg, req, env, plan));
    var info := DraftInfo(req);
    var w := WriteRun(Begun(cfg, req, info), plan);
    DraftReturnAnswers(cfg, req, env, info, w, Stored(NewUpload(UNUSED, info, Draft), info, w));
  }
}
