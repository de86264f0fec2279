/**
 The handlers themselves (unrouted.go, draft.go), step by step on the store, the locker and the
 stop registry.  Each one does to its upload exactly what Lifecycle.Handle says, touches no
 other upload, and leaves the locks and stop callbacks of a busy server as they were, however it
 ends.
 */
module Handlers {
  import opened Prelude
  import opened BodyReaders
  import opened Lifecycle
  import opened Stores
  import opened Finals
  import UploadConcat

  // ------------------------------------------------------------------ the handlers

  /** The rest of a request, from where its body is about to be read. */
  function Proceed(cfg: Config, req: Request, env: Env, plan: seq<WriteEvent>, b: Prepared): Outcome {
    match b
    case Answered(o) => o
    case Writes(s, info) =>
      var w := WriteRun(Begun(cfg, req, info), plan);
      FromReturn(cfg, req, env, info, w, Stored(s, info, w))
  }

  class UnroutedHandler {
    const cfg: Config
    const store: MemStore
    const locks: Locker
    const stops: StopRegistry
    /** The CompleteUploads channel. */
    var completeUploads: seq<ID>

    constructor (config: Config)
      ensures cfg == config && locks.held == {} && stops.callbacks == map[] && forall id: ID :: SlotAt(id) == UNUSED
      ensures fresh(store) && fresh(locks) && fresh(stops)
    {
      cfg, completeUploads := config, [];
      store := new MemStore();
      locks := new Locker();
      stops := new StopRegistry();
    }

    /** Other requests may be under way; each stop callback belongs to one that has its lock. */
    ghost predicate Valid()
      reads locks, stops
    {
      stops.callbacks.Keys <= locks.held
    }

    /** The same locks are held, and the same callbacks registered, as before. */
    twostate predicate Restored()
      reads locks, stops
    {
      locks.held == old(locks.held) && stops.callbacks == old(stops.callbacks)
    }

    /** Somebody has the lock of this upload. */
    ghost predicate Busy(id: ID)
      reads locks
    {
      id in locks.held
    }

    /** Everything that happened under an ID so far. */
    ghost function SlotAt(id: ID): Slot
      reads this, store
    {
      Slot(if id in store.files then Some(store.files[id]) else None,
           if id in store.made then Some(store.made[id]) else None,
           Times(store.finished, id), Times(completeUploads, id))
    }

    /** Nothing happened under any other ID. */
    twostate predicate Only(id: ID)
      reads this, store
    {
      forall other: ID :: other != id ==> SlotAt(other) == old(SlotAt(other))
    }

    // ---------------------------------------------------------------- finishing

    method EmitFinishEvents(id: ID, callback: Option<Error>) returns (err: Option<Error>)
      modifies this
      ensures Finish(SlotAt(id), err) == Lifecycle.EmitFinishEvents(cfg, callback, old(SlotAt(id))) && Only(id)
    {
      if callback.Some? {
        return callback;
      }
      if cfg.notifyCompleteUploads {
        TimesSnoc(completeUploads, id);
        completeUploads := completeUploads + [id];
      }
      return None;
    }

    method FinishUploadIfComplete(id: ID, env: Env, info: FileInfo) returns (err: Option<Error>)
      modifies this, store
      ensures Finish(SlotAt(id), err) == Lifecycle.FinishUploadIfComplete(cfg, env, info, old(SlotAt(id))) && Only(id)
    {
      if Complete(info) {
        TimesSnoc(store.finished, id);
        err := store.FinishUpload(id, env.finish);
        if err.Some? {
          return;
        }
        err := EmitFinishEvents(id, env.finishCallback);
        return;
      }
      return None;
    }

    // ---------------------------------------------------------------- writing

    method WriteChunk(id: ID, req: Request, env: Env, plan: seq<WriteEvent>, info: FileInfo)
      returns (err: Option<Error>, newOffset: nat)
      requires req.Patch? || req.Post?
      requires id !in stops.callbacks && id in store.files
      modifies this, store, stops
      ensures stops.callbacks == old(stops.callbacks) && Only(id)
      ensures match EnterWrite(old(SlotAt(id)), info, req.length, req.body)
              case Answered(o) => SlotAt(id) == o.slot && err.Some? && o.response == Err(err.value)
              case Writes(s, _) =>
                var w := WriteRun(Begun(cfg, req, info), plan);
                var stored := Stored(s, info, w);
                var left := if TerminatesOn(cfg, w) && env.terminate.None? then Terminated(stored) else stored;
                var f := Lifecycle.FinishUploadIfComplete(cfg, env, info.(offset := info.offset + w.kept), left);
                && SlotAt(id) == f.slot && newOffset == info.offset + w.kept
                && err == if WriteError(env, w).Some? then WriteError(env, w) else f.error
    {
      hide WriteRun, WriteAt, HasError, Complete, WriteError, SlotAt, Stored, Lifecycle.FinishUploadIfComplete,
           TerminatesOn;
      newOffset := 0;
      if !info.sizeIsDeferred && Wrap(info.offset + req.length) > info.size {
        return Some(ErrSizeExceeded), newOffset;
      }
      var maxSize := info.size - info.offset;
      if info.sizeIsDeferred {
        if cfg.maxSize > 0 {
          maxSize := cfg.maxSize - info.offset;
        } else {
          maxSize := MAX_INT64;
        }
      }
      if req.length > 0 {
        maxSize := req.length;
      }
      if req.body.None? {
        return Some(ErrNotFound), newOffset;
      }
      var bytesWritten;
      bytesWritten, err := ReceiveBody(id, env, plan, info, req.body.value, maxSize);
      newOffset := info.offset + bytesWritten;
      var finishErr := FinishUploadIfComplete(id, env, info.(offset := newOffset));
      stops.UnregisterStopCallback(id);
      assert stops.callbacks == old(stops.callbacks);
      if err.None? {
        err := finishErr;
      }
    }

    /** The middle of writeChunk: from the registration of the stop callback to the termination of a stopped upload. */
    method ReceiveBody(id: ID, env: Env, plan: seq<WriteEvent>, info: FileInfo, stream: Stream, maxSize: int)
      returns (bytesWritten: nat, err: Option<Error>)
      requires id in store.files
      modifies store, stops
      ensures id in stops.callbacks && stops.callbacks - {id} == old(stops.callbacks) - {id} && Only(id)
      ensures var w := WriteRun(StartWrite(NewReader(stream, maxSize)), plan);
              var stored := Stored(old(SlotAt(id)), info, w);
              && SlotAt(id) == (if TerminatesOn(cfg, w) && env.terminate.None? then Terminated(stored) else stored)
              && err == WriteError(env, w) && bytesWritten == w.kept
    {
      hide WriteRun, WriteAt, HasError, Times;
      var bodyR := new BodyReader(stream, maxSize);
      stops.RegisterStopCallback(id, bodyR);
      var t := new BodyTransfer(bodyR);
      bytesWritten, err := store.WriteChunk(id, info, t, plan, stops, env.write);
      assert SlotAt(id) == Stored(old(SlotAt(id)), info, t.Value());
      assert Only(id);
      hide Stored, MemStore.WithChunk, Cut, Wrap;
      var bodyErr := bodyR.Error();
      if bodyErr.Some? && err.None? {
        err := Some(BodyError(bodyErr.value));
      }
      if bodyErr == Some(ErrUploadStopped) && cfg.usesTerminater {
        var termErr := store.Terminate(id, env.terminate);
      }
    }

    // ---------------------------------------------------------------- HEAD, GET, DELETE

    method HeadFile(req: Request, env: Env) returns (resp: Response)
      requires req.Head?
      modifies locks
      ensures Outcome(SlotAt(req.id), resp)
           == Handle(cfg, req, Facing(env, old(Busy(req.id))), [], old(SlotAt(req.id)))
      ensures Restored()
    {
      if req.id == "" {
        return Err(ErrNotFound);
      }
      var lockErr := locks.Lock(req.id, env.lock);
      if lockErr.Some? {
        return Err(lockErr.value);
      }
      resp := HeadLocked(req, env);
      locks.Unlock(req.id);
      assert locks.held == old(locks.held);
    }

    method HeadLocked(req: Request, env: Env) returns (resp: Response)
      requires req.Head?
      ensures FromGetUpload(cfg, req, env, SlotAt(req.id)) == Answer(SlotAt(req.id), resp)
    {
      var err := store.GetUpload(req.id, env.lookup);
      if err.Some? {
        return Err(err.value);
      }
      var got := store.GetInfo(req.id, env.info);
      if got.Fail? {
        return Err(got.error);
      }
      var info := got.value;
      var length := if info.sizeIsDeferred then None else Some(info.size);
      if req.draft {
        return HeadDraft(info.offset, length, !info.sizeIsDeferred && info.offset == info.size);
      }
      return HeadV1(info.offset, length, info.isPartial, if info.isFinal then Some(info.partialUploads) else None);
    }

    method GetFile(req: Request, env: Env) returns (resp: Response)
      requires req.Get?
      modifies locks
      ensures Outcome(SlotAt(req.id), resp)
           == Handle(cfg, req, Facing(env, old(Busy(req.id))), [], old(SlotAt(req.id)))
      ensures Restored()
    {
      if req.id == "" {
        return Err(ErrNotFound);
      }
      var lockErr := locks.Lock(req.id, env.lock);
      if lockErr.Some? {
        return Err(lockErr.value);
      }
      resp := GetLocked(req, env);
      locks.Unlock(req.id);
      assert locks.held == old(locks.held);
    }

    method GetLocked(req: Request, env: Env) returns (resp: Response)
      requires req.Get?
      ensures FromGetUpload(cfg, req, env, SlotAt(req.id)) == Answer(SlotAt(req.id), resp)
    {
      var err := store.GetUpload(req.id, env.lookup);
      if err.Some? {
        return Err(err.value);
      }
      var got := store.GetInfo(req.id, env.info);
      if got.Fail? {
        return Err(got.error);
      }
      if got.value.offset == 0 {
        return NoContent;
      }
      var reader := store.GetReader(req.id, env.reader);
      if reader.Fail? {
        return Err(reader.error);
      }
      if env.copy.Some? {
        return Err(env.copy.value);
      }
      return Content(reader.value);
    }

    method DelFile(req: Request, env: Env) returns (resp: Response)
      requires req.Delete?
      modifies store, locks
      ensures Outcome(SlotAt(req.id), resp)
           == Handle(cfg, req, Facing(env, old(Busy(req.id))), [], old(SlotAt(req.id)))
      ensures Only(req.id) && Restored()
    {
      if !cfg.usesTerminater {
        return Err(ErrNotImplemented);
      }
      if req.id == "" {
        return Err(ErrNotFound);
      }
      var lockErr := locks.Lock(req.id, env.lock);
      if lockErr.Some? {
        return Err(lockErr.value);
      }
      resp := DelLocked(req, env);
      locks.Unlock(req.id);
      assert locks.held == old(locks.held);
    }

    method DelLocked(req: Request, env: Env) returns (resp: Response)
      requires req.Delete?
      modifies store
      ensures FromGetUpload(cfg, req, env, old(SlotAt(req.id))) == Answer(SlotAt(req.id), resp) && Only(req.id)
    {
      var err := store.GetUpload(req.id, env.lookup);
      if err.Some? {
        return Err(err.value);
      }
      if cfg.deleteReadsInfo {
        var got := store.GetInfo(req.id, env.info);
        if got.Fail? {
          return Err(got.error);
        }
      }
      if env.terminateCallback.Some? {
        return Err(env.terminateCallback.value);
      }
      err := store.Terminate(req.id, env.terminate);
      if err.Some? {
        return Err(err.value);
      }
      return Deleted;
    }

    // ---------------------------------------------------------------- PATCH

    method PatchFile(req: Request, env: Env, plan: seq<WriteEvent>) returns (resp: Response)
      requires req.Patch? && Valid()
      modifies this, store, locks, stops
      ensures Outcome(SlotAt(req.id), resp)
           == Handle(cfg, req, Facing(env, old(Busy(req.id))), plan, old(SlotAt(req.id)))
      ensures Only(req.id) && Restored()
    {
      hide FromGetUpload, FromReturn, WriteRun, Begun, Stored;
      if !req.contentTypeOk {
        return Err(ErrInvalidContentType);
      }
      if !req.offset.Value? || req.offset.n < 0 {
        return Err(ErrInvalidOffset);
      }
      if req.id == "" {
        return Err(ErrNotFound);
      }
      var lockErr := locks.Lock(req.id, env.lock);
      if lockErr.Some? {
        return Err(lockErr.value);
      }
      resp := PatchLocked(req, env, plan);
      locks.Unlock(req.id);
      assert locks.held == old(locks.held);
    }

    method PatchLocked(req: Request, env: Env, plan: seq<WriteEvent>) returns (resp: Response)
      requires req.Patch? && req.offset.Value? && req.id !in stops.callbacks
      modifies this, store, stops
      ensures stops.callbacks == old(stops.callbacks) && Only(req.id)
      ensures Outcome(SlotAt(req.id), resp)
           == Proceed(cfg, req, env, plan, FromGetUpload(cfg, req, env, old(SlotAt(req.id))))
    {
      hide WriteRun, WriteError, Lifecycle.FinishUploadIfComplete, TooLong, Begun, Stored, Times, CreationOf,
           EnterWrite, HeadResponse,
           TerminatesOn;
      var err := store.GetUpload(req.id, env.lookup);
      if err.Some? {
        return Err(err.value);
      }
      var got := store.GetInfo(req.id, env.info);
      if got.Fail? {
        return Err(got.error);
      }
      var info := got.value;
      if info.isFinal {
        return Err(ErrModifyFinal);
      }
      if req.offset.n != info.offset {
        return Err(ErrMismatchOffset);
      }
      if !info.sizeIsDeferred && info.offset == info.size {
        return Patched(req.offset.n);
      }
      if !req.declare.Absent? {
        if !cfg.usesLengthDeferrer {
          return Err(ErrNotImplemented);
        }
        if !info.sizeIsDeferred {
          return Err(ErrInvalidUploadLength);
        }
        if req.declare.Malformed? || req.declare.n < 0 || req.declare.n < info.offset
           || (cfg.maxSize > 0 && req.declare.n > cfg.maxSize) {
          return Err(ErrInvalidUploadLength);
        }
        err := store.DeclareLength(req.id, req.declare.n, env.declare);
        if err.Some? {
          return Err(err.value);
        }
        info := info.(size := req.declare.n, sizeIsDeferred := false);
      }
      var newOffset;
      err, newOffset := WriteChunk(req.id, req, env, plan, info);
      if err.Some? {
        return Err(err.value);
      }
      return Patched(newOffset);
    }

    // ---------------------------------------------------------------- POST

    /** The create callback, NewUpload and the GetInfo behind it. */
    method CreateUpload(req: Request, env: Env, info: FileInfo, ghost origin: Origin)
      returns (r: Result<FileInfo, Error>)
      modifies store
      ensures Only(req.id) && store.finished == old(store.finished)
      ensures match CreateRefusal(env)
              case Some(e) => r == Fail(e) && SlotAt(req.id) == old(SlotAt(req.id)) && store.files == old(store.files)
              case None =>
                && SlotAt(req.id) == NewUpload(old(SlotAt(req.id)), info, origin)
                && store.files == old(store.files)[req.id := Upload(info, [])]
                && r == if env.info.Some? then Fail(env.info.value) else Ok(info)
    {
      if env.createCallback.Some? {
        return Fail(env.createCallback.value);
      }
      if env.newID != "" && (env.newID[0] == '/' || env.newID[|env.newID| - 1] == '/') {
        return Fail(ErrBadUploadID);
      }
      var err := store.NewUpload(req.id, info, origin, env.create);
      if err.Some? {
        return Fail(err.value);
      }
      r := store.GetInfo(req.id, env.info);
    }

    /** PostFile for the v1 protocol. */
    method PostFile(req: Request, env: Env, plan: seq<WriteEvent>) returns (resp: Response)
      requires req.Post? && req.form.FormV1? && Valid()
      requires req.id !in store.files  // NewUpload returns a fresh ID
      modifies this, store, locks, stops
      ensures Only(req.id) && Restored()
      ensures Outcome(SlotAt(req.id), resp)
           == if IsFinalPost(cfg, req) then FinalOutcome(cfg, req, env, old(store.files), old(SlotAt(req.id)))
              else Handle(cfg, req, Facing(env, old(Busy(req.id))), plan, old(SlotAt(req.id)))
    {
      hide UploadConcat.ParseConcat, FinalOutcome, Proceed, FromNewUpload, ValidateNewUploadLength, Times, FromCreate,
           FromGetUpload, FromReturn, WriteRun;
      var concatHeader := if cfg.usesConcater then req.form.concat else "";
      if concatHeader != "" && cfg.disableConcatenation {
        return Err(ErrConcatenationUnsupported);
      }
      var c := UploadConcat.ParseConcatHeader(concatHeader, cfg.basePath);
      if c.error.Some? {
        return Err(if c.error.value.ErrNotFound? then ErrNotFound else ErrInvalidConcat);
      }
      if c.isFinal {
        if req.form.chunk {
          return Err(ErrModifyFinal);
        }
        assert CreationOf(cfg, req) == FinalOf(c.ids);
        resp := PostFinal(req, env, c.ids);
        return;
      }
      var length := ValidateNewUploadLength(req.form.uploadLength, req.form.deferLength, cfg.usesLengthDeferrer);
      if length.BadLength? {
        return Err(length.error);
      }
      if cfg.maxSize > 0 && length.size > cfg.maxSize {
        return Err(ErrMaxSizeExceeded);
      }
      var info := FileInfo(length.size, length.deferred, 0, c.isPartial, false, []);
      assert CreationOf(cfg, req) == Plain(info);
      var created := CreateUpload(req, env, info, V1);
      if created.Fail? {
        CreateFails(cfg, req, Facing(env, old(Busy(req.id))), plan, old(SlotAt(req.id)), info);
        return Err(created.error);
      }
      resp := PostCreated(req, env, plan, created.value, length.deferred, length.size);
      ProceedIsHandle(cfg, req, Facing(env, old(Busy(req.id))), plan, old(SlotAt(req.id)), info);
    }

    /** PostFile once the upload has been created. */
    method PostCreated(req: Request, env: Env, plan: seq<WriteEvent>, info: FileInfo, sizeIsDeferred: bool, size: int)
      returns (resp: Response)
      requires req.Post? && req.form.FormV1? && Valid() && env.info.None? && req.id in store.files
      requires store.files[req.id].info == info && info.size == size && info.sizeIsDeferred == sizeIsDeferred
      modifies this, store, locks, stops
      ensures Only(req.id) && Restored()
      ensures Outcome(SlotAt(req.id), resp)
           == var facing := Facing(env, old(Busy(req.id)));
              Proceed(cfg, req, facing, plan, FromNewUpload(cfg, req, facing, old(SlotAt(req.id))))
    {
      hide WriteRun, WriteError, Lifecycle.FinishUploadIfComplete, TooLong, Begun, Stored;
      if req.form.chunk {
        var lockErr := locks.Lock(req.id, env.lock);
        if lockErr.Some? {
          return Err(lockErr.value);
        }
        var err, newOffset := WriteChunk(req.id, req, env, plan, info);
        locks.Unlock(req.id);
        assert locks.held == old(locks.held);
        return if err.Some? then Err(err.value) else Created(req.id, Some(newOffset));
      } else if !sizeIsDeferred && size == 0 {
        SameFinish(cfg, env, old(Busy(req.id)), info, SlotAt(req.id));
        var err := FinishUploadIfComplete(req.id, env, info);
        if err.Some? {
          return Err(err.value);
        }
      }
      return Created(req.id, None);
    }

    /** PostFileV2: a draft POST always sends a chunk. */
    method PostFileV2(req: Request, env: Env, plan: seq<WriteEvent>) returns (resp: Response)
      requires req.Post? && req.form.FormDraft? && Valid()
      requires req.id !in store.files  // NewUpload returns a fresh ID
      modifies this, store, locks, stops
      ensures Only(req.id) && Restored()
      ensures Outcome(SlotAt(req.id), resp)
           == Handle(cfg, req, Facing(env, old(Busy(req.id))), plan, old(SlotAt(req.id)))
    {
      hide Proceed, FromNewUpload, GetDraftUploadLength;
      var length := GetDraftUploadLength(req.form.uploadLength, req.form.complete, req.length);
      if length.BadLength? {
        return Err(length.error);
      }
      if length.deferred && !cfg.usesLengthDeferrer {
        return Err(ErrNotImplemented);
      }
      var info := FileInfo(length.size, length.deferred, 0, false, false, []);
      assert CreationOf(cfg, req) == Plain(info);
      var created := CreateUpload(req, env, info, Draft);
      if created.Fail? {
        CreateFails(cfg, req, Facing(env, old(Busy(req.id))), plan, old(SlotAt(req.id)), info);
        return Err(created.error);
      }
      resp := PostV2Created(req, env, plan, created.value);
      ProceedIsHandle(cfg, req, Facing(env, old(Busy(req.id))), plan, old(SlotAt(req.id)), info);
    }

    /** PostFileV2 once the upload has been created. */
    method PostV2Created(req: Request, env: Env, plan: seq<WriteEvent>, info: FileInfo) returns (resp: Response)
      requires req.Post? && req.form.FormDraft? && Valid() && env.info.None?
      requires req.id in store.files && store.files[req.id].info == info
      modifies this, store, locks, stops
      ensures Only(req.id) && Restored()
      ensures Outcome(SlotAt(req.id), resp)
           == var facing := Facing(env, old(Busy(req.id)));
              Proceed(cfg, req, facing, plan, FromNewUpload(cfg, req, facing, old(SlotAt(req.id))))
    {
      hide WriteRun, WriteError, Lifecycle.FinishUploadIfComplete, TooLong, Begun, Stored, FromGetInfoAgain;
      var lockErr := locks.Lock(req.id, env.lock);
      if lockErr.Some? {
        return Err(lockErr.value);
      }
      var err, newOffset := WriteChunk(req.id, req, env, plan, info);
      if err.Some? {
        resp := Err(err.value);
      } else if req.form.complete && info.sizeIsDeferred {
        resp := DeclareAtEnd(req, env, newOffset);
      } else {
        resp := Created(req.id, Some(newOffset));
      }
      locks.Unlock(req.id);
      assert locks.held == old(locks.held);
    }

    /** Step 4 of PostFileV2: the length of a deferred upload that the client marked complete. */
    method DeclareAtEnd(req: Request, env: Env, newOffset: nat) returns (resp: Response)
      requires req.Post?
      modifies this, store
      ensures Only(req.id)
      ensures Outcome(SlotAt(req.id), resp) == FromGetInfoAgain(cfg, req, env, newOffset, old(SlotAt(req.id)))
    {
      hide Lifecycle.FinishUploadIfComplete;
      var got := store.GetInfo(req.id, env.infoAgain);
      if got.Fail? {
        return Err(got.error);
      }
      var info := got.value;
      var uploadLen := info.offset;
      var err := store.DeclareLength(req.id, uploadLen, env.declare);
      if err.Some? {
        return Err(err.value);
      }
      info := info.(size := uploadLen, sizeIsDeferred := false);
      err := FinishUploadIfComplete(req.id, env, info);
      if err.Some? {
        return Err(err.value);
      }
      return Created(req.id, Some(newOffset));
    }

    // ---------------------------------------------------------------- final uploads

    /** sizeOfUploads: the total in 64-bit arithmetic. */
    method SizeOfUploads(env: Env, ids: seq<ID>) returns (total: int64, err: Option<Error>)
      ensures match PartSizes(env, store.files, ids)
              case NoTotal(e) => err == Some(e)
              case Total(sizes) => err.None? && total == WrapSum(sizes)
    {
      hide Wrap, PartSizes, WrapSum;
      PartSizesNone(env, store.files);
      total := 0;
      ghost var sizes := [];
      for i := 0 to |ids|
        invariant PartSizes(env, store.files, ids[..i]) == Total(sizes) && total == WrapSum(sizes)
      {
        assert ids[..i + 1] == ids[..i] + [ids[i]];
        PartSizesSnoc(env, store.files, ids[..i], ids[i]);
        var failed := store.GetUpload(ids[i], if i == env.sizingAt then env.sizing else None);
        if failed.Some? {
          PartSizesPrefix(env, store.files, ids, i + 1);
          return 0, failed;
        }
        var got := store.GetInfo(ids[i], None);
        var info := got.value;
        if info.sizeIsDeferred || info.offset != info.size {
          PartSizesPrefix(env, store.files, ids, i + 1);
          return 0, Some(ErrUploadNotFinished);
        }
        SumSnoc(sizes, info.size);
        total := Wrap(total + info.size);
        sizes := sizes + [info.size];
      }
      assert ids[..|ids|] == ids;
      return total, None;
    }

    /** PostFile for a final upload. */
    method PostFinal(req: Request, env: Env, ids: seq<ID>) returns (resp: Response)
      requires req.Post? && CreationOf(cfg, req) == FinalOf(ids) && req.id !in store.files
      modifies this, store
      ensures Only(req.id)
      ensures Outcome(SlotAt(req.id), resp) == FinalOutcome(cfg, req, env, old(store.files), old(SlotAt(req.id)))
    {
      hide CreationOf, PartSizes, FromFinal, WrapSum;
      var size, err := SizeOfUploads(env, ids);
      if err.Some? {
        return Err(err.value);
      }
      PartSizesIff(env, store.files, ids);
      if cfg.maxSize > 0 && size > cfg.maxSize {
        return Err(ErrMaxSizeExceeded);
      }
      ghost var files := store.files;
      var info := FileInfo(size, false, 0, false, true, ids);
      var created := CreateUpload(req, env, info, V1Final);
      if CreateRefusal(env).None? {
        resp := PostJoined(req, env, ids, size, created, files);
      } else {
        resp := Err(created.error);
      }
    }

    /** PostFile once a final upload has been created; files is the store before that. */
    method PostJoined(req: Request, env: Env, ids: seq<ID>, size: int, created: Result<FileInfo, Error>,
                      ghost files: map<ID, Upload>)
      returns (resp: Response)
      requires req.Post? && req.id !in files && AllFinished(files, ids)
      requires var info := FileInfo(size, false, 0, false, true, ids);
               && store.files == files[req.id := Upload(info, [])]
               && created == if env.info.Some? then Fail(env.info.value) else Ok(info)
      modifies this, store
      ensures Only(req.id)
      ensures Outcome(SlotAt(req.id), resp)
           == FromFinal(cfg, req, env, files, FileInfo(size, false, 0, false, true, ids), old(SlotAt(req.id)))
    {
      hide Times, JoinedFiles, Grown, Complete, AllFinished;
      if created.Fail? {
        return Err(created.error);
      }
      var info := created.value;
      SameBytes(files, req.id, Upload(info, []), ids);
      var err := store.ConcatUploads(req.id, ids, env.concat, env.concatAt);
      if err.Some? {
        return Err(err.value);
      }
      err := EmitFinishEvents(req.id, env.concatCallback);
      if err.Some? {
        return Err(err.value);
      }
      if size == 0 {
        err := FinishUploadIfComplete(req.id, env, info);
        if err.Some? {
          return Err(err.value);
        }
      }
      return Created(req.id, None);
    }
  }

  /** Finishing does not ask the locker. */
  lemma SameFinish(cfg: Config, env: Env, busy: bool, info: FileInfo, s: Slot)
    ensures FinishUploadIfComplete(cfg, Facing(env, busy), info, s) == FinishUploadIfComplete(cfg, env, info, s)
  {}

  lemma ProceedIsHandle(cfg: Config, req: Request, env: Env, plan: seq<WriteEvent>, s: Slot, info: FileInfo)
    requires req.Post? && CreationOf(cfg, req) == Plain(info) && CreateRefusal(env).None?
    ensures !IsFinalPost(cfg, req)
    ensures Handle(cfg, req, env, plan, s)
         == Proceed(cfg, req, env, plan, FromNewUpload(cfg, req, env, NewUpload(s, info, Creator(req, info))))
  {
    hide CreationOf, FromReturn, WriteRun, Begun, Stored;
  }

  lemma CreateFails(cfg: Config, req: Request, env: Env, plan: seq<WriteEvent>, s: Slot, info: FileInfo)
    requires req.Post? && CreationOf(cfg, req) == Plain(info) && (CreateRefusal(env).Some? || env.info.Some?)
    ensures !IsFinalPost(cfg, req)
    ensures Handle(cfg, req, env, plan, s)
         == if CreateRefusal(env).Some? then Outcome(s, Err(CreateRefusal(env).value))
            else Outcome(NewUpload(s, info, Creator(req, info)), Err(env.info.value))
  {
    hide CreationOf, FromReturn, WriteRun, Begun, Stored;
  }
}
