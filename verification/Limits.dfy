/**
 Where the limits hold: an upload's size, against which every chunk is checked in 64-bit
 arithmetic, and MaxSize, against which neither a chunk of a deferred upload nor the length of a
 draft POST is checked.  Each result says exactly when the code keeps the limit.
 */
module Limits {
  import opened Prelude
  import opened BodyReaders
  import opened Lifecycle
  import opened Steps
  import opened Invariants
  import opened Safety
  import opened Confluence
  import Concat

  // ------------------------------------------------------------------ how far a PATCH can take an upload

  /** A PATCH with this Content-Length, at the right offset. */
  function PatchOf(id: ID, info: FileInfo, length: int64, body: Option<Stream>): Request
    requires info.offset <= MAX_INT64
  {
    Patch(id, true, Value(info.offset), Absent, length, body)
  }

  /** Whatever its body, the locker, the store and the callbacks do, it leaves the offset within the bound. */
  ghost predicate StaysWithin(cfg: Config, id: ID, s: Slot, length: int64, bound: int)
    requires s.upload.Some? && s.upload.value.info.offset <= MAX_INT64
  {
    forall body: Option<Stream>, env: Env, plan: seq<WriteEvent> ::
      var t := Handle(cfg, PatchOf(id, s.upload.value.info, length, body), env, plan, s).slot;
      t.upload.Some? ==> t.upload.value.info.offset <= bound
  }

  /** An upload that PATCH may write to. */
  predicate Open(s: Slot) {
    s.upload.Some? && !s.upload.value.info.isFinal && !Complete(s.upload.value.info)
    && s.upload.value.info.offset <= MAX_INT64
  }

  /** No PATCH gets further than its cap. */
  lemma CapHolds(cfg: Config, id: ID, s: Slot, length: int64, body: Option<Stream>, env: Env, plan: seq<WriteEvent>)
    requires Open(s)
    ensures var info := s.upload.value.info;
            var t := Handle(cfg, PatchOf(id, info, length, body), env, plan, s).slot;
            t.upload.Some? && t.upload != s.upload ==>
              && !TooLong(info, length)
              && t.upload.value.info.offset <= info.offset + Max(BodyCap(cfg, info, length), 0)
  {
    hide TooLong, BodyCap, WriteRun, HasError, CreationOf, WriteInv, FromReturn, WriteAt;
    var info := s.upload.value.info;
    var req := PatchOf(id, info, length, body);
    PatchWritesIff(cfg, req, env, s);
    if Prepare(cfg, req, env, s).Writes? {
      var w := WriteRun(Begun(cfg, req, info), plan);
      FinishKeepsUpload(cfg, req, env, info, w, Stored(s, info, w));
      WriteRunInv(body.value, BodyCap(cfg, info, length), plan);
      KeptWithinCap(w, body.value, BodyCap(cfg, info, length));
    }
  }

  lemma KeptWithinCap(w: Write, source: Stream, limit: int)
    requires WriteInv(w, source, limit)
    ensures w.kept <= Max(limit, 0)
  {
    assert w.kept <= |w.got| <= |w.got + Flying(w)| <= |Cut(Offered(source), limit)|;
  }

  /** A body of n bytes, and a store that reads and persists it in one go. */
  function Whole(n: nat): Stream {
    [Item(Zeros(n), Eof)]
  }

  function InOneGo(n: nat): seq<WriteEvent> {
    [Check(n), Pull, Record, Persist(n)]
  }

  lemma WholeIsKept(n: nat, limit: int)
    requires 0 < n <= limit
    ensures var w := WriteRun(StartWrite(NewReader(Whole(n), limit)), InOneGo(n));
            w.kept == n && HasError(w.reader).None?
  {
    var w0 := StartWrite(NewReader(Whole(n), limit));
    WriteRunSnoc(w0, [], Check(n));
    WriteRunSnoc(w0, [Check(n)], Pull);
    WriteRunSnoc(w0, [Check(n), Pull], Record);
    WriteRunSnoc(w0, [Check(n), Pull, Record], Persist(n));
    assert [] + [Check(n)] == [Check(n)] && [Check(n)] + [Pull] == [Check(n), Pull];
    assert [Check(n), Pull] + [Record] == [Check(n), Pull, Record];
    assert [Check(n), Pull, Record] + [Persist(n)] == InOneGo(n);
  }

  /** Every cap is reached by some PATCH. */
  lemma CapIsReached(cfg: Config, id: ID, s: Slot, length: int64, n: nat, env: Env)
    requires Open(s) && id != "" && env.lock.None? && env.lookup.None? && env.info.None?
    requires !TooLong(s.upload.value.info, length) && 0 < n <= BodyCap(cfg, s.upload.value.info, length)
    ensures var info := s.upload.value.info;
            var t := Handle(cfg, PatchOf(id, info, length, Some(Whole(n))), env, InOneGo(n), s).slot;
            t.upload.Some? && t.upload.value.info.offset == info.offset + n
  {
    hide TooLong, BodyCap, WriteRun, HasError, CreationOf, FromReturn, WriteAt;
    var info := s.upload.value.info;
    var req := PatchOf(id, info, length, Some(Whole(n)));
    PatchWritesIff(cfg, req, env, s);
    var w := WriteRun(Begun(cfg, req, info), InOneGo(n));
    WholeIsKept(n, BodyCap(cfg, info, length));
    FinishKeepsUpload(cfg, req, env, info, w, Stored(s, info, w));
  }

  // ------------------------------------------------------------------ the size, in 64-bit arithmetic

  /** The size check agrees with the exact sum if and only if that sum is an int64. */
  lemma SizeCheckIsExact(info: FileInfo, length: int64)
    requires !info.sizeIsDeferred && info.offset <= info.size <= MAX_INT64
    ensures (TooLong(info, length) <==> info.offset + length > info.size) <==> LengthFits(info.offset, length)
  {}

  /**
   The size of an upload holds for every PATCH with a Content-Length, whatever its body, if and
   only if offset and Content-Length add up to an int64.
   */
  lemma SizeHoldsIff(cfg: Config, id: ID, s: Slot, length: int64)
    requires Open(s) && id != "" && !s.upload.value.info.sizeIsDeferred
    requires s.upload.value.info.offset < s.upload.value.info.size <= MAX_INT64
    ensures StaysWithin(cfg, id, s, length, s.upload.value.info.size)
       <==> LengthFits(s.upload.value.info.offset, length)
  {
    hide Handle;
    var info := s.upload.value.info;
    if LengthFits(info.offset, length) {
      forall body: Option<Stream>, env: Env, plan: seq<WriteEvent>
        ensures var t := Handle(cfg, PatchOf(id, info, length, body), env, plan, s).slot;
                t.upload.Some? ==> t.upload.value.info.offset <= info.size
      {
        CapHolds(cfg, id, s, length, body, env, plan);
      }
    } else {
      CapIsReached(cfg, id, s, length, info.size - info.offset + 1, NoFailure());
    }
  }

  /** Past that bound a chunk gets through to an upload of two bytes and leaves it with three. */
  lemma OverlongChunk(cfg: Config, env: Env)
    requires env.lock.None? && env.lookup.None? && env.info.None? && cfg.maxSize == 0
    ensures var info := FileInfo(2, false, 1, false, false, []);
            var s := Slot(Some(Upload(info, [0])), Some(V1), 0, 0);
            var req := PatchOf("a", info, MAX_INT64, Some(Whole(2)));
            var t := Handle(cfg, req, env, InOneGo(2), s).slot;
            SlotOk(cfg, s) && !Sane(req) && t.upload.Some? && t.upload.value.info.offset == 3
  {
    hide Handle;
    var s := Slot(Some(Upload(FileInfo(2, false, 1, false, false, []), [0])), Some(V1), 0, 0);
    CapIsReached(cfg, "a", s, MAX_INT64, 2, env);
  }

  // ------------------------------------------------------------------ MaxSize and deferred uploads

  /**
   MaxSize holds for every PATCH of a deferred upload with a Content-Length if and only if that
   length fits below it: a positive Content-Length replaces the cap.
   */
  lemma MaxSizeHoldsIff(cfg: Config, id: ID, s: Slot, length: int64)
    requires Open(s) && id != "" && s.upload.value.info.sizeIsDeferred
    requires cfg.maxSize > 0 && s.upload.value.info.offset <= cfg.maxSize
    ensures StaysWithin(cfg, id, s, length, cfg.maxSize) <==> s.upload.value.info.offset + length <= cfg.maxSize
  {
    hide Handle;
    var info := s.upload.value.info;
    if info.offset + length <= cfg.maxSize {
      forall body: Option<Stream>, env: Env, plan: seq<WriteEvent>
        ensures var t := Handle(cfg, PatchOf(id, info, length, body), env, plan, s).slot;
                t.upload.Some? ==> t.upload.value.info.offset <= cfg.maxSize
      {
        CapHolds(cfg, id, s, length, body, env, plan);
      }
    } else {
      CapIsReached(cfg, id, s, length, cfg.maxSize - info.offset + 1, NoFailure());
    }
  }

  /** A PATCH leaves the upload complete. */
  predicate Completes(cfg: Config, req: Request, env: Env, plan: seq<WriteEvent>, s: Slot)
    requires req.Patch?
  {
    var t := Handle(cfg, req, env, plan, s).slot;
    t.upload.Some? && Complete(t.upload.value.info)
  }

  /** A deferred upload can be completed by a PATCH if and only if it has not gone past MaxSize. */
  lemma CompletableIff(cfg: Config, id: ID, s: Slot)
    requires Open(s) && id != "" && s.upload.value.info.sizeIsDeferred && cfg.usesLengthDeferrer
    ensures (exists req: Request, env: Env, plan: seq<WriteEvent> ::
               req.Patch? && req.id == id && Completes(cfg, req, env, plan, s))
       <==> !TooBig(cfg, s.upload.value.info.offset)
  {
    hide Completes, TooBig;
    var offset := s.upload.value.info.offset;
    if TooBig(cfg, offset) {
      forall req: Request, env: Env, plan: seq<WriteEvent> | req.Patch?
        ensures !Completes(cfg, req, env, plan, s)
      {
        OnlyDeclaringCompletes(cfg, req, env, plan, s);
      }
    } else {
      DeclaringCompletes(cfg, id, s);
      var req := Patch(id, true, Value(offset), Value(offset), 0, Some([]));
      assert req.Patch? && req.id == id && Completes(cfg, req, NoFailure(), [], s);
    }
  }

  lemma OnlyDeclaringCompletes(cfg: Config, req: Request, env: Env, plan: seq<WriteEvent>, s: Slot)
    requires req.Patch? && Open(s) && s.upload.value.info.sizeIsDeferred
    ensures Completes(cfg, req, env, plan, s) ==> !TooBig(cfg, s.upload.value.info.offset)
  {
    hide TooLong, WriteRun, HasError, CreationOf, FromReturn, WriteAt;
    PatchWritesIff(cfg, req, env, s);
    var b := Prepare(cfg, req, env, s);
    if b.Writes? {
      var w := WriteRun(Begun(cfg, req, b.info), plan);
      FinishKeepsUpload(cfg, req, env, b.info, w, Stored(b.slot, b.info, w));
    }
  }

  /** The length declared as what is there. */
  lemma DeclaringCompletes(cfg: Config, id: ID, s: Slot)
    requires Open(s) && id != "" && s.upload.value.info.sizeIsDeferred && cfg.usesLengthDeferrer
    requires !TooBig(cfg, s.upload.value.info.offset)
    ensures var offset := s.upload.value.info.offset;
            Completes(cfg, Patch(id, true, Value(offset), Value(offset), 0, Some([])), NoFailure(), [], s)
  {
    hide CreationOf, FromReturn, WriteAt;
    var info := s.upload.value.info;
    var req := Patch(id, true, Value(info.offset), Value(info.offset), 0, Some([]));
    var declared := Declared(info, info.offset);
    PatchWritesIff(cfg, req, NoFailure(), s);
    var w := WriteRun(Begun(cfg, req, declared), []);
    assert w.kept == 0 && HasError(w.reader).None?;
    FinishKeepsUpload(cfg, req, NoFailure(), declared, w, Stored(DeclareLength(s, info.offset), declared, w));
  }

  // ------------------------------------------------------------------ drafts

  /**
   A draft POST that answers success leaves a size above MaxSize if and only if it stated one,
   and a negative size if and only if it stated one; the lengths that the server declares itself
   are within MaxSize.
   */
  lemma DraftSizeIff(cfg: Config, req: Request, env: Env, plan: seq<WriteEvent>)
    requires req.Post? && req.form.FormDraft? && !IsFinalPost(cfg, req)
    ensures var o := Handle(cfg, req, env, plan, UNUSED);
            var stated := StatedLength(req);
            o.response.Created? ==>
              && o.slot.upload.Some?
              && var info := o.slot.upload.value.info;
              && (!info.sizeIsDeferred && TooBig(cfg, info.size) <==> stated.Some? && TooBig(cfg, stated.value))
              && (!info.sizeIsDeferred && info.size < 0 <==> stated.Some? && stated.value < 0)
  {
    hide TooLong, WriteRun, HasError, CreationOf, WriteInv, WriteAt, Complete;
    DraftCreationIff(cfg, req);
    var b := Prepare(cfg, req, env, UNUSED);
    if b.Writes? {
      var info := CreationOf(cfg, req).info;
      WriteRunInv(req.body.value, BodyCap(cfg, info, req.length), plan);
      KeptWithinCap(WriteRun(Begun(cfg, req, info), plan), req.body.value, BodyCap(cfg, info, req.length));
    }
  }

  /**
   Any stated length is accepted from a body of unknown length, whatever MaxSize is, and also the
   negative one that just passes the size check of its own body.
   */
  lemma DraftsIgnoreMaxSize(cfg: Config, n: int64)
    requires -1 <= n
    ensures var req := Post("a", FormDraft(Value(n), false), -1, Some([]));
            var o := Handle(cfg, req, NoFailure(), [], UNUSED);
            && !IsFinalPost(cfg, req) && o.response == Created("a", Some(0))
            && o.slot.upload == Some(Upload(FileInfo(n, false, 0, false, false, []), []))
  {
    hide CreationOf, FinishUploadIfComplete, WriteAt, BodyCap;
    var req := Post("a", FormDraft(Value(n), false), -1, Some([]));
    var info := FileInfo(n, false, 0, false, false, []);
    DraftCreationIff(cfg, req);
    var s := NewUpload(UNUSED, info, Draft);
    assert Prepare(cfg, req, NoFailure(), UNUSED) == Writes(s, info);
    var w := WriteRun(Begun(cfg, req, info), []);
    assert w.kept == 0 && HasError(w.reader).None?;
    assert WriteAt([], 0, Cut(w.got, w.kept)) == [] by { NothingWritten(w); }
    assert Stored(s, info, w) == s;
    NothingFails(cfg, info, s);
  }

  lemma NothingWritten(w: Write)
    requires w.kept == 0
    ensures WriteAt([], 0, Cut(w.got, w.kept)) == []
  {}

  lemma NothingFails(cfg: Config, info: FileInfo, s: Slot)
    ensures var f := FinishUploadIfComplete(cfg, NoFailure(), info, s); f.error.None? && f.slot.upload == s.upload
  {}

  // ------------------------------------------------------------------ past MaxSize, in every run

  /** A deferred upload that has gone past MaxSize, and that no draft POST is about to declare the length of. */
  ghost predicate Lost(cfg: Config, sys: System, id: ID) {
    var s := At(sys.slots, id);
    && s.upload.Some? && s.upload.value.info.sizeIsDeferred && TooBig(cfg, s.upload.value.info.offset)
    && s.creator != Some(V1Final)
    && (s.creator == Some(Draft) && id in sys.owner ==>
          sys.owner[id] < |sys.procs| && !sys.procs[sys.owner[id]].req.Post?)
  }

  lemma MicroDeclares(cfg: Config, p: Proc, s: Slot)
    requires Owns(p.pc) && !p.pc.Writing? && !p.pc.Joining? && !p.pc.Leaving? && Sound(cfg, p, s)
    requires s.upload.Some? && s.upload.value.info.sizeIsDeferred && TooBig(cfg, s.upload.value.info.offset)
    requires s.creator == Some(Draft) ==> !p.req.Post?
    ensures var t := Micro(cfg, p.req, p.env, p.pc, s).slot; t.upload.Some? ==> t.upload.value.info.sizeIsDeferred
  {
    hide WriteInv, BodyCap, CreationOf, IsFinalPost, TooLong, HeadResponse, WriteRun, WriteAt;
    FormOfFinal(cfg, p.req);
  }

  lemma StepDeclares(cfg: Config, sys: System, r: nat)
    requires Inv(cfg, sys) && r < |sys.procs| && Lost(cfg, sys, sys.procs[r].req.id)
    ensures var m := NextStep(cfg, sys, r);
            m.Move? && m.slot.upload.Some? ==> m.slot.upload.value.info.sizeIsDeferred
  {
    hide RegistryAgrees, SlotOk, Micro, At, IsFinalPost, Refusal, CreationOf, NewUpload, Parts, TooBig, Sound, Outside;
    var p := sys.procs[r];
    var s := At(sys.slots, p.req.id);
    assert ProcOk(cfg, p, s) && SlotOk(cfg, s);
    if p.pc.Joining? {
      Concat.OnlyFinalJoins(cfg, sys, r);
      OwnCreator(cfg, p, s);
    } else if p.pc.Creating? {
      UploadHasCreator(cfg, s);
    } else if Owns(p.pc) && !p.pc.Writing? && !p.pc.Leaving? {
      MicroDeclares(cfg, p, s);
    }
  }

  lemma OwnCreator(cfg: Config, p: Proc, s: Slot)
    requires Sound(cfg, p, s) && IsFinalPost(cfg, p.req)
    ensures s.creator == Some(V1Final)
  {
    hide IsFinalPost;
    FormOfFinal(cfg, p.req);
  }

  lemma UploadHasCreator(cfg: Config, s: Slot)
    requires SlotOk(cfg, s) && s.upload.Some?
    ensures s.creator.Some? && (s.upload.value.info.sizeIsDeferred && s.creator != Some(V1Final) ==>
              s.finishes == 0 && s.completes == 0)
  {}

  lemma EventDeclares(cfg: Config, sys: System, ev: Event, id: ID)
    requires Inv(cfg, sys) && Lost(cfg, sys, id)
    ensures var m := MoveOf(cfg, sys, ev);
            m.Move? && m.r < |sys.procs| && sys.procs[m.r].req.id == id && m.slot.upload.Some? ==>
              m.slot.upload.value.info.sizeIsDeferred
  {
    hide Inv, NextStep, WriteStep, WriteAt, TooBig, IsFinalPost, At;
    var m := MoveOf(cfg, sys, ev);
    if m.Move? && m.r < |sys.procs| && sys.procs[m.r].req.id == id && ev.Step? {
      StepsItself(cfg, sys, ev.r);
      StepDeclares(cfg, sys, ev.r);
    }
  }

  lemma NextLost(cfg: Config, sys: System, ev: Event, id: ID)
    requires Inv(cfg, sys) && Lost(cfg, sys, id)
    ensures At(Next(cfg, sys, ev).slots, id).upload.Some? ==> Lost(cfg, Next(cfg, sys, ev), id)
    ensures At(sys.slots, id).creator.Some?
  {
    hide SlotOk, MoveOf, Owns, Registered, ProcOk, CreationOf, RegistryAgrees, At;
    var m := MoveOf(cfg, sys, ev);
    MovesFit(cfg, sys, ev);
    EventOk(cfg, sys, ev);
    EventDeclares(cfg, sys, ev, id);
    assert SlotOk(cfg, At(sys.slots, id));
    UploadHasCreator(cfg, At(sys.slots, id));
    if m.Move? {
      AtAfter(sys.slots, m.proc.req.id, m.slot, id);
      NoSecondCreation(cfg, sys, m);
      if sys.procs[m.r].req.id == id && Owns(sys.procs[m.r].pc) {
        assert sys.owner[id] == m.r;
      }
    }
  }

  lemma {:induction false} RunLost(cfg: Config, sys: System, evs: seq<Event>, id: ID)
    requires Inv(cfg, sys) && Lost(cfg, sys, id)
    ensures At(Run(cfg, sys, evs).slots, id).upload.Some? ==> Lost(cfg, Run(cfg, sys, evs), id)
  {
    hide Inv, Next, Lost, At, Forward;
    if evs != [] {
      var front := evs[..|evs| - 1];
      var mid := Run(cfg, sys, front);
      RunLost(cfg, sys, front, id);
      RunInv(cfg, sys, front);
      LostHasUpload(cfg, sys, id);
      NextInv(cfg, mid, evs[|evs| - 1]);
      if At(mid.slots, id).upload.Some? {
        NextLost(cfg, mid, evs[|evs| - 1], id);
      } else {
        StaysGone(cfg, sys, mid, evs[|evs| - 1], id);
      }
    }
  }

  lemma LostHasUpload(cfg: Config, sys: System, id: ID)
    requires Inv(cfg, sys) && Lost(cfg, sys, id)
    ensures At(sys.slots, id).upload.Some? && At(sys.slots, id).creator.Some?
  {
    hide SlotOk, ProcOk, Exclusive, RegistryAgrees, At;
    assert SlotOk(cfg, At(sys.slots, id));
    UploadHasCreator(cfg, At(sys.slots, id));
  }

  lemma StaysGone(cfg: Config, sys: System, mid: System, ev: Event, id: ID)
    requires Forward(At(sys.slots, id), At(mid.slots, id))
    requires Forward(At(mid.slots, id), At(Next(cfg, mid, ev).slots, id))
    requires At(sys.slots, id).creator.Some? && At(mid.slots, id).upload.None?
    ensures At(Next(cfg, mid, ev).slots, id).upload.None?
  {
    hide Next, At, Grows;
  }

  /**
   A deferred upload that has gone past MaxSize, whose draft POST has returned, is never
   completed: in every continuation of the run it is deferred and unfinished as long as it is there.
   */
  lemma NeverCompleted(cfg: Config, sys: System, evs: seq<Event>, id: ID)
    requires Reachable(cfg, sys) && Lost(cfg, sys, id)
    ensures var t := At(Run(cfg, sys, evs).slots, id);
            t.upload.Some? ==>
              && t.upload.value.info.sizeIsDeferred && TooBig(cfg, t.upload.value.info.offset)
              && t.finishes == 0 && t.completes == 0
  {
    hide Run, Reachable, Inv, At;
    ReachableInv(cfg, sys);
    RunLost(cfg, sys, evs, id);
    RunInv(cfg, sys, evs);
    var now := Run(cfg, sys, evs);
    if At(now.slots, id).upload.Some? {
      SlotIsOk(cfg, now, id);
      UploadHasCreator(cfg, At(now.slots, id));
    }
  }

  lemma SlotIsOk(cfg: Config, sys: System, id: ID)
    requires Inv(cfg, sys)
    ensures SlotOk(cfg, At(sys.slots, id))
  {
    hide SlotOk, ProcOk, Exclusive, RegistryAgrees;
  }
}
