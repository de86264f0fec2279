/**
 A client that resumes: it asks HEAD where to go on, sends the rest of its file with PATCH, and
 starts over when that fails.
 */
module Client {
  import opened Prelude
  import opened BodyReaders
  import opened Lifecycle
  import opened Steps
  import opened Confluence
  import opened Invariants
  import opened Handlers

  /**
   How the network and the server fare with one attempt: how much the stream delivers in its reads, and
   how it ends.
   */
  datatype Attempt = Attempt(headEnv: Env, env: Env, sizes: seq<nat>, end: End, knownLength: bool,
                             plan: seq<WriteEvent>)

  /** The rest of the file as a stream that delivers it piece by piece, and ends early or not. */
  function Sent(rest: seq<byte>, sizes: seq<nat>, end: End): Stream {
    if sizes == [] then [Item([], end)]
    else
      var piece := Cut(rest, sizes[0]);
      [Item(piece, More)] + Sent(rest[|piece|..], sizes[1..], end)
  }

  lemma {:induction false} SentIsPrefix(rest: seq<byte>, sizes: seq<nat>, end: End)
    ensures Offered(Sent(rest, sizes, end)) <= rest
  {
    if sizes != [] {
      var piece := Cut(rest, sizes[0]);
      SentIsPrefix(rest[|piece|..], sizes[1..], end);
      assert Sent(rest, sizes, end)[1..] == Sent(rest[|piece|..], sizes[1..], end);
      assert rest == piece + rest[|piece|..];
    } else {
      assert Sent(rest, sizes, end)[1..] == [];
    }
  }

  /** An upload of the file's length that holds the first part of it. */
  ghost predicate Uploading(s: Slot, file: seq<byte>) {
    && s.upload.Some? && Counted(s) && s.upload.value.data <= file
    && !s.upload.value.info.sizeIsDeferred && !s.upload.value.info.isFinal && s.upload.value.info.size == |file|
  }

  function PatchFrom(id: ID, file: seq<byte>, offset: nat, a: Attempt): Request
    requires offset <= |file| <= MAX_INT64
  {
    Patch(id, true, Value(offset), Absent, if a.knownLength then |file| - offset else -1,
          Some(Sent(file[offset..], a.sizes, a.end)))
  }

  /**
   Whatever happens to a PATCH from the right offset, the upload goes on to hold a part of the file, or is
   terminated.
   */
  lemma PatchResumes(cfg: Config, id: ID, file: seq<byte>, a: Attempt, s: Slot)
    requires |file| <= MAX_INT64 && Uploading(s, file) && id != ""
    ensures var t := Handle(cfg, PatchFrom(id, file, s.upload.value.info.offset, a), a.env, a.plan, s).slot;
            t.upload.Some? ==> Uploading(t, file) && s.upload.value.info.offset <= t.upload.value.info.offset
  {
    hide Prepare, Sent, Handle, WriteRun, Begun, Removes;
    var offset := s.upload.value.info.offset;
    var req := PatchFrom(id, file, offset, a);
    SentIsPrefix(file[offset..], a.sizes, a.end);
    PatchKeepsInfo(cfg, req, a.env, a.plan, s);
    if Prepare(cfg, req, a.env, s).Writes? {
      WriteKeepsItsBytes(cfg, req, a.env, a.plan, s, Head(id, false), NoFailure());
      assert s.upload.value.data == file[..offset] && file == file[..offset] + file[offset..];
    }
  }

  /** A PATCH that declares no length changes only offset and bytes; one that does not write changes nothing. */
  lemma PatchKeepsInfo(cfg: Config, req: Request, env: Env, plan: seq<WriteEvent>, s: Slot)
    requires req.Patch? && req.declare.Absent? && s.upload.Some?
    ensures Prepare(cfg, req, env, s).Answered? ==> Handle(cfg, req, env, plan, s).slot == s
    ensures var b := Prepare(cfg, req, env, s); b.Writes? ==> b.info == s.upload.value.info && b.slot == s
    ensures var b := Prepare(cfg, req, env, s);
            var t := Handle(cfg, req, env, plan, s).slot;
            b.Writes? && t.upload.Some? ==>
              var w := WriteRun(Begun(cfg, req, b.info), plan);
              t.upload.value.info == s.upload.value.info.(offset := s.upload.value.info.offset + w.kept)
  {
    hide TooLong, CreationOf, WriteRun, HasError, Begun, WriteAt;
  }

  /** Nothing fails for a GET. */
  predicate GetWell(env: Env) {
    env.lock.None? && env.lookup.None? && env.info.None? && env.reader.None? && env.copy.None?
  }

  /** A HEAD changes nothing and reports where the upload is; a GET of an upload that has all of a file returns it. */
  lemma HeadAndGet(cfg: Config, id: ID, env: Env, s: Slot, file: seq<byte>)
    requires Uploading(s, file) && id != ""
    ensures Handle(cfg, Head(id, false), env, [], s).slot == s && Handle(cfg, Get(id), env, [], s).slot == s
    ensures var r := Handle(cfg, Head(id, false), env, [], s).response; r.HeadV1? ==>
                  r.offset == s.upload.value.info.offset
    ensures var r := Handle(cfg, Get(id), env, [], s).response; r.Content? ==> r.data == s.upload.value.data
    ensures s.upload.value.info.offset == |file| > 0 && GetWell(env)
            ==> Handle(cfg, Get(id), env, [], s).response == Content(file)
  {
    hide TooLong, CreationOf;
  }

  function Where(s: Slot): nat {
    if s.upload.Some? then s.upload.value.info.offset else 0
  }

  lemma WhereIs(s: Slot, file: seq<byte>)
    requires Uploading(s, file)
    ensures s.upload.Some? && Where(s) == s.upload.value.info.offset <= |file|
  {}

  /** HEAD reports nothing of an upload that is not there. */
  lemma HeadOfNothing(cfg: Config, id: ID, env: Env, s: Slot)
    ensures s.upload.None? ==> !Handle(cfg, Head(id, false), env, [], s).response.HeadV1?
  {
    hide CreationOf;
  }

  // ------------------------------------------------------------------ what a client achieves

  function HeadAnswer(cfg: Config, id: ID, a: Attempt, s: Slot): Response {
    Handle(cfg, Head(id, false), a.headEnv, [], s).response
  }

  /** HEAD has reported that nothing is missing. */
  predicate SeesAll(cfg: Config, id: ID, file: seq<byte>, a: Attempt, s: Slot) {
    HeadAnswer(cfg, id, a, s).HeadV1? && HeadAnswer(cfg, id, a, s).offset == |file|
  }

  /** The slot after one attempt: a HEAD, and a PATCH from where it says that something is missing. */
  function AfterTry(cfg: Config, id: ID, file: seq<byte>, a: Attempt, s: Slot): Slot
    requires |file| <= MAX_INT64
  {
    var head := HeadAnswer(cfg, id, a, s);
    if head.HeadV1? && head.offset < |file| then
      Handle(cfg, PatchFrom(id, file, head.offset, a), a.env, a.plan, s).slot
    else s
  }

  /** The slot after the attempts, the last of which sees that nothing is missing or is the last there is. */
  function After(cfg: Config, id: ID, file: seq<byte>, attempts: seq<Attempt>, s: Slot): Slot
    requires |file| <= MAX_INT64
  {
    if attempts == [] || SeesAll(cfg, id, file, attempts[0], s) then s
    else After(cfg, id, file, attempts[1..], AfterTry(cfg, id, file, attempts[0], s))
  }

  /** How many of the attempts made before that persisted no byte. */
  function Stuck(cfg: Config, id: ID, file: seq<byte>, attempts: seq<Attempt>, s: Slot): nat
    requires |file| <= MAX_INT64
  {
    if attempts == [] || SeesAll(cfg, id, file, attempts[0], s) then 0
    else
      var t := AfterTry(cfg, id, file, attempts[0], s);
      (if Where(t) <= Where(s) then 1 else 0) + Stuck(cfg, id, file, attempts[1..], t)
  }

  /** Each of them persists at least one byte, and none makes the server terminate the upload. */
  ghost predicate Progresses(cfg: Config, id: ID, file: seq<byte>, attempts: seq<Attempt>, s: Slot)
    requires |file| <= MAX_INT64
  {
    attempts == [] || SeesAll(cfg, id, file, attempts[0], s)
    || (var t := AfterTry(cfg, id, file, attempts[0], s);
        t.upload.Some? && Where(s) < Where(t) && Progresses(cfg, id, file, attempts[1..], t))
  }

  /** An attempt leaves more of the file, the same, or no upload. */
  lemma TryResumes(cfg: Config, id: ID, file: seq<byte>, a: Attempt, s: Slot)
    requires |file| <= MAX_INT64 && id != ""
    ensures var t := AfterTry(cfg, id, file, a, s);
            && (s.upload.None? ==> t == s && !SeesAll(cfg, id, file, a, s))
            && (Uploading(s, file) ==>
                  && (SeesAll(cfg, id, file, a, s) ==> Where(s) == |file|)
                  && (t.upload.Some? ==> Uploading(t, file) && Where(s) <= Where(t)))
  {
    hide Handle, Uploading, PatchFrom;
    HeadOfNothing(cfg, id, a.headEnv, s);
    if Uploading(s, file) {
      HeadAndGet(cfg, id, a.headEnv, s, file);
      WhereIs(s, file);
      PatchResumes(cfg, id, file, a, s);
      if AfterTry(cfg, id, file, a, s).upload.Some? {
        WhereIs(AfterTry(cfg, id, file, a, s), file);
      }
    }
  }

  /**
   Exactly when an attempt makes progress: HEAD is answered, PATCH gets the upload, and its write
   persists a byte without being stopped by a server that terminates.
   */
  lemma ProgressIff(cfg: Config, id: ID, file: seq<byte>, a: Attempt, s: Slot)
    requires |file| <= MAX_INT64 && id != "" && Uploading(s, file) && Where(s) < |file|
    ensures var t := AfterTry(cfg, id, file, a, s);
            var w := WriteRun(Begun(cfg, PatchFrom(id, file, Where(s), a), s.upload.value.info), a.plan);
            t.upload.Some? && Where(s) < Where(t) <==>
              && a.headEnv.lock.None? && a.headEnv.lookup.None? && a.headEnv.info.None?
              && a.env.lock.None? && a.env.lookup.None? && a.env.info.None?
              && w.kept > 0 && !Removes(cfg, a.env, a.plan)
  {
    hide WriteRun, Begun, Removes, Sent, Prepare, Handle, Uploading;
    HeadAndGet(cfg, id, a.headEnv, s, file);
    WhereIs(s, file);
    HeadAnswers(cfg, id, a.headEnv, s);
    var req := PatchFrom(id, file, Where(s), a);
    PatchKeepsInfo(cfg, req, a.env, a.plan, s);
    PatchWritesIff(cfg, req, a.env, s);
    NotTooLong(id, file, a, s);
    if Prepare(cfg, req, a.env, s).Writes? {
      KeepsUnlessStopped(cfg, req, a.env, a.plan, s);
    }
  }

  lemma HeadAnswers(cfg: Config, id: ID, env: Env, s: Slot)
    requires id != "" && s.upload.Some?
    ensures Handle(cfg, Head(id, false), env, [], s).response.HeadV1?
        <==> env.lock.None? && env.lookup.None? && env.info.None?
  {
    hide CreationOf;
  }

  lemma NotTooLong(id: ID, file: seq<byte>, a: Attempt, s: Slot)
    requires |file| <= MAX_INT64 && Uploading(s, file) && Where(s) < |file|
    ensures var req := PatchFrom(id, file, Where(s), a);
            && !TooLong(s.upload.value.info, req.length) && !Complete(s.upload.value.info)
            && !s.upload.value.info.isFinal
            && req.Patch? && req.contentTypeOk && req.id == id && req.body.Some? && req.declare.Absent?
            && req.offset == Value(s.upload.value.info.offset)
  {
    hide Sent;
  }

  lemma KeepsUnlessStopped(cfg: Config, req: Request, env: Env, plan: seq<WriteEvent>, s: Slot)
    requires req.Patch? && req.declare.Absent? && s.upload.Some? && Prepare(cfg, req, env, s).Writes?
    ensures Handle(cfg, req, env, plan, s).slot.upload.None? <==> Removes(cfg, env, plan)
  {
    hide WriteRun, WriteAt, HasError, TooLong, CreationOf, BodyCap;
    var info := Prepare(cfg, req, env, s).info;
    StoppedIff(NewReader(if req.body.Some? then req.body.value else [], BodyCap(cfg, info, req.length)), plan);
  }

  lemma {:induction false} NothingComesBack(cfg: Config, id: ID, file: seq<byte>, attempts: seq<Attempt>, s: Slot)
    requires |file| <= MAX_INT64 && id != "" && s.upload.None?
    ensures After(cfg, id, file, attempts, s) == s
  {
    hide SeesAll, AfterTry;
    if attempts != [] {
      TryResumes(cfg, id, file, attempts[0], s);
      NothingComesBack(cfg, id, file, attempts[1..], s);
    }
  }

  /**
   Progress.  Unless the server terminates the upload, the missing bytes are there as soon as
   that many attempts have persisted something; what is there before is a part of the file.
   */
  lemma {:induction false} EnoughAttempts(cfg: Config, id: ID, file: seq<byte>, attempts: seq<Attempt>, s: Slot)
    requires |file| <= MAX_INT64 && id != "" && Uploading(s, file)
    ensures var t := After(cfg, id, file, attempts, s);
            t.upload.Some? ==>
              && Uploading(t, file)
              && (|attempts| - Stuck(cfg, id, file, attempts, s) >= |file| - Where(s) ==> Where(t) == |file|)
  {
    hide Uploading, SeesAll, AfterTry, Where;
    WhereIs(s, file);
    if attempts != [] {
      TryResumes(cfg, id, file, attempts[0], s);
      var t := AfterTry(cfg, id, file, attempts[0], s);
      if !SeesAll(cfg, id, file, attempts[0], s) {
        if t.upload.Some? {
          EnoughAttempts(cfg, id, file, attempts[1..], t);
        } else {
          NothingComesBack(cfg, id, file, attempts[1..], t);
        }
      }
    }
  }

  lemma {:induction false} ProgressIsNotStuck(cfg: Config, id: ID, file: seq<byte>, attempts: seq<Attempt>, s: Slot)
    requires |file| <= MAX_INT64 && s.upload.Some? && Progresses(cfg, id, file, attempts, s)
    ensures Stuck(cfg, id, file, attempts, s) == 0 && After(cfg, id, file, attempts, s).upload.Some?
  {
    hide SeesAll, AfterTry;
    if attempts != [] && !SeesAll(cfg, id, file, attempts[0], s) {
      ProgressIsNotStuck(cfg, id, file, attempts[1..], AfterTry(cfg, id, file, attempts[0], s));
    }
  }

  /**
   A client that loops HEAD and PATCH, each PATCH persisting at least one byte, gets its whole
   file stored with at most as many attempts as bytes are missing, and GET returns it.
   */
  lemma ClientFinishes(cfg: Config, id: ID, file: seq<byte>, attempts: seq<Attempt>, s: Slot, getEnv: Env)
    requires 0 < |file| <= MAX_INT64 && id != "" && Uploading(s, file)
    requires Progresses(cfg, id, file, attempts, s) && |attempts| >= |file| - Where(s) && GetWell(getEnv)
    ensures var t := After(cfg, id, file, attempts, s);
            && t.upload.Some? && t.upload.value.data == file && Complete(t.upload.value.info)
            && Handle(cfg, Get(id), getEnv, [], t).response == Content(file)
  {
    hide After, Stuck, Progresses, Handle;
    ProgressIsNotStuck(cfg, id, file, attempts, s);
    EnoughAttempts(cfg, id, file, attempts, s);
    HeadAndGet(cfg, id, getEnv, After(cfg, id, file, attempts, s), file);
  }

  // ------------------------------------------------------------------ the client itself

  /** One attempt; it tells whether HEAD has reported that nothing is missing. */
  method Try(h: UnroutedHandler, id: ID, file: seq<byte>, a: Attempt) returns (complete: bool)
    requires h.Valid() && !h.Busy(id) && |file| <= MAX_INT64
    modifies h, h.store, h.locks, h.stops
    ensures h.Only(id) && h.Restored()
    ensures complete == SeesAll(h.cfg, id, file, a, old(h.SlotAt(id)))
    ensures h.SlotAt(id) == AfterTry(h.cfg, id, file, a, old(h.SlotAt(id)))
  {
    hide Handle, UnroutedHandler.SlotAt, Sent;
    var head := h.HeadFile(Head(id, false), a.headEnv);
    complete := head.HeadV1? && head.offset == |file|;
    if head.HeadV1? && head.offset < |file| {
      var answer := h.PatchFile(PatchFrom(id, file, head.offset, a), a.env, a.plan);
    }
  }

  /** The loop: HEAD and PATCH until HEAD says that nothing is missing or the attempts run out, and then GET. */
  method Resume(h: UnroutedHandler, id: ID, file: seq<byte>, attempts: seq<Attempt>, getEnv: Env)
    returns (content: Response)
    requires h.Valid() && !h.Busy(id) && |file| <= MAX_INT64
    modifies h, h.store, h.locks, h.stops
    ensures h.Only(id) && h.Restored()
    ensures h.SlotAt(id) == After(h.cfg, id, file, attempts, old(h.SlotAt(id)))
    ensures content == Handle(h.cfg, Get(id), getEnv, [], h.SlotAt(id)).response
    ensures && id != "" && 0 < |file| && Uploading(old(h.SlotAt(id)), file)
            && Progresses(h.cfg, id, file, attempts, old(h.SlotAt(id)))
            && |attempts| >= |file| - Where(old(h.SlotAt(id))) && GetWell(getEnv) ==>
              content == Content(file)
  {
    hide Handle, Uploading, UnroutedHandler.SlotAt, AfterTry, SeesAll, GetWell, Progresses;
    ghost var start := h.SlotAt(id);
    var complete, i := false, 0;
    while i < |attempts| && !complete
      invariant i <= |attempts| && h.Only(id) && h.Restored()
      invariant After(h.cfg, id, file, attempts, start)
             == if complete then h.SlotAt(id) else After(h.cfg, id, file, attempts[i..], h.SlotAt(id))
    {
      assert attempts[i..][0] == attempts[i] && attempts[i..][1..] == attempts[i + 1..];
      ghost var s := h.SlotAt(id);
      complete := Try(h, id, file, attempts[i]);
      SeenIsKept(h.cfg, id, file, attempts[i], s);
      i := i + 1;
    }
    content := h.GetFile(Get(id), getEnv);
    if id != "" && 0 < |file| && Uploading(start, file) && Progresses(h.cfg, id, file, attempts, start)
       && |attempts| >= |file| - Where(start) && GetWell(getEnv) {
      ClientFinishes(h.cfg, id, file, attempts, start, getEnv);
    }
  }

  lemma SeenIsKept(cfg: Config, id: ID, file: seq<byte>, a: Attempt, s: Slot)
    requires |file| <= MAX_INT64
    ensures SeesAll(cfg, id, file, a, s) ==> AfterTry(cfg, id, file, a, s) == s
  {
    hide Handle;
  }
}
