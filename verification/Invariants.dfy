/**
 What every reachable state keeps: exclusive ownership, the stop registry, the size and
 completion invariants of every slot, and that slots only move forward.
 */
module Invariants {
  import opened Prelude
  import opened BodyReaders
  import opened Lifecycle
  import opened Steps

  // ------------------------------------------------------------------ ownership and the stop registry

  ghost predicate Exclusive(sys: System) {
    && (forall r :: 0 <= r < |sys.procs| && Owns(sys.procs[r].pc) ==>
          sys.procs[r].req.id in sys.owner && sys.owner[sys.procs[r].req.id] == r)
    && (forall id :: id in sys.owner ==>
          sys.owner[id] < |sys.procs| && sys.procs[sys.owner[id]].req.id == id && Owns(sys.procs[sys.owner[id]].pc))
  }

  /** A stop callback is registered for an ID exactly while one request is between register and unregister for it. */
  ghost predicate RegistryAgrees(sys: System) {
    && (forall r :: 0 <= r < |sys.procs| && Registered(sys.procs[r].pc) ==>
          sys.procs[r].req.id in sys.stops && sys.stops[sys.procs[r].req.id] == r)
    && (forall id :: id in sys.stops ==>
          sys.stops[id] < |sys.procs| && sys.procs[sys.stops[id]].req.id == id
          && Registered(sys.procs[sys.stops[id]].pc))
  }

  lemma ApplyExclusive(sys: System, m: Move)
    requires Exclusive(sys) && m.Move? && Fits(sys, m)
    ensures Exclusive(Apply(sys, m.r, m.proc, m.slot))
  {
    hide Owns, Registered, At;
    var now := Apply(sys, m.r, m.proc, m.slot);
    forall r | 0 <= r < |now.procs| && Owns(now.procs[r].pc)
      ensures now.procs[r].req.id in now.owner && now.owner[now.procs[r].req.id] == r
    {
      if r != m.r { assert now.procs[r] == sys.procs[r]; }
    }
  }

  lemma ApplyRegistry(sys: System, m: Move)
    requires Exclusive(sys) && RegistryAgrees(sys) && m.Move? && Fits(sys, m)
    ensures RegistryAgrees(Apply(sys, m.r, m.proc, m.slot))
  {
    hide Owns, Registered, At;
    RegisteredOwns(m.proc.pc);
    RegisteredOwns(sys.procs[m.r].pc);
    var now := Apply(sys, m.r, m.proc, m.slot);
    forall r | 0 <= r < |now.procs| && Registered(now.procs[r].pc)
      ensures now.procs[r].req.id in now.stops && now.stops[now.procs[r].req.id] == r
    {
      if r != m.r {
        assert now.procs[r] == sys.procs[r];
        RegisteredOwns(sys.procs[r].pc);
      }
    }
  }

  lemma RegisteredOwns(pc: Pc)
    ensures Registered(pc) ==> Owns(pc)
  {}

  // ------------------------------------------------------------------ what holds of every slot

  ghost predicate UploadOk(cfg: Config, origin: Origin, u: Upload) {
    && u.info.offset == |u.data|
    && (u.info.isFinal <==> origin == V1Final)
    && (origin == V1Final ==> !u.info.sizeIsDeferred && !TooBig(cfg, u.info.size))
    && (origin == V1 && !u.info.sizeIsDeferred ==> 0 <= u.info.size && !TooBig(cfg, u.info.size))
  }

  /** At most one FinishUpload per ID, called on a complete upload. */
  ghost predicate SlotOk(cfg: Config, s: Slot) {
    && (s.creator.None? ==> s == UNUSED)
    && (s.upload.Some? ==> s.creator.Some? && UploadOk(cfg, s.creator.value, s.upload.value))
    && s.finishes <= 1
    && s.completes <= s.finishes + (if s.creator == Some(V1Final) then 1 else 0)
    && (s.finishes == 1 && s.upload.Some? && s.creator != Some(V1Final) ==> Complete(s.upload.value.info))
    && (s.finishes == 1 && s.upload.Some? && s.creator == Some(V1Final) ==> s.upload.value.info.size == 0)
  }

  /** The offset counts the stored bytes. */
  predicate Counted(s: Slot) {
    s.upload.Some? ==> s.upload.value.info.offset == |s.upload.value.data|
  }

  lemma SlotCounts(cfg: Config, s: Slot)
    requires SlotOk(cfg, s)
    ensures Counted(s)
  {}

  // ------------------------------------------------------------------ how a slot may change

  ghost predicate Grows(u: Upload, v: Upload) {
    && u.data <= v.data && u.info.offset <= v.info.offset
    && v.info.isPartial == u.info.isPartial && v.info.isFinal == u.info.isFinal
    && v.info.partialUploads == u.info.partialUploads
    && (!u.info.sizeIsDeferred ==> !v.info.sizeIsDeferred && v.info.size == u.info.size)
  }

  /** The forward-only lifecycle of one ID. */
  ghost predicate Forward(s: Slot, t: Slot) {
    && (s.creator.Some? ==> t.creator == s.creator)
    && s.finishes <= t.finishes && s.completes <= t.completes
    && (s.creator.Some? && s.upload.None? ==> t.upload.None?)
    && (s.upload.Some? && t.upload.Some? ==> Grows(s.upload.value, t.upload.value))
  }

  lemma ForwardReflexive(s: Slot)
    ensures Forward(s, s)
  {}

  lemma ForwardTransitive(s: Slot, t: Slot, u: Slot)
    requires s.creator.None? ==> s.upload.None?
    requires Forward(s, t) && Forward(t, u)
    ensures Forward(s, u)
  {}

  // ------------------------------------------------------------------ what a request knows while it has its ID

  /** The upload is as the local copy info says, if it still exists, and has not been finished. */
  ghost predicate Pending(s: Slot, info: FileInfo) {
    && s.finishes == 0 && s.completes == 0 && !info.isFinal && s.creator.Some? && s.creator != Some(V1Final)
    && (s.upload.Some? ==> s.upload.value.info == info)
  }

  /** The stored bytes end with what the write has kept. */
  ghost predicate Holds(s: Slot, info: FileInfo, w: Write) {
    && s.upload.Some? && |s.upload.value.data| == info.offset + w.kept
    && w.kept <= |w.got| && s.upload.value.data[info.offset..] == w.got[..w.kept]
  }

  /** A request writes at the offset it declares, a POST at the start. */
  predicate AtOffset(req: Request, info: FileInfo) {
    && (req.Patch? ==> req.offset.Value? && req.offset.n == info.offset)
    && (req.Post? ==> info.offset == 0)
  }

  ghost predicate InWrite(cfg: Config, req: Request, s: Slot, info: FileInfo, w: Write) {
    && (req.Patch? || req.Post?) && req.body.Some?
    && !TooLong(info, req.length) && AtOffset(req, info)
    && s.upload.Some? && Pending(s, info.(offset := info.offset + w.kept)) && Holds(s, info, w)
    && WriteInv(w, req.body.value, BodyCap(cfg, info, req.length))
  }

  /** The local copy a caller of finishUploadIfComplete passes belongs to the write it comes from. */
  predicate SameUpload(info: FileInfo, caller: Caller) {
    caller.FromWriteChunk? ==> info == caller.info.(offset := info.offset)
  }

  ghost predicate FinishReady(cfg: Config, req: Request, s: Slot, info: FileInfo, caller: Caller) {
    && SameUpload(info, caller)
    && if IsFinalPost(cfg, req) then
         s.finishes == 0 && s.completes <= 1 && s.creator == Some(V1Final) && info.size == 0
         && caller.AtEnd? && (s.upload.Some? ==> s.upload.value.info.size == 0)
       else Pending(s, info)
  }

  ghost predicate Finished(cfg: Config, req: Request, s: Slot, info: FileInfo, caller: Caller) {
    && SameUpload(info, caller)
    && Complete(info) && s.finishes == 1
    && if IsFinalPost(cfg, req) then
         s.completes <= 1 && s.creator == Some(V1Final) && caller.AtEnd?
       else
         && s.completes == 0 && s.creator.Some? && s.creator != Some(V1Final) && !info.isFinal
         && (s.upload.Some? ==> s.upload.value.info == info)
  }

  ghost predicate JoinReady(cfg: Config, req: Request, s: Slot, total: int) {
    && IsFinalPost(cfg, req) && s.creator == Some(V1Final) && s.finishes == 0 && s.completes == 0
    && s.upload.Some? && s.upload.value.info.isFinal && s.upload.value.info.size == total
  }

  /** A POST works on an upload of its own kind. */
  predicate OwnKind(cfg: Config, req: Request, s: Slot) {
    req.Post? ==> s.creator == Some(if req.form.FormDraft? then Draft
                                   else if IsFinalPost(cfg, req) then V1Final else V1)
  }

  ghost predicate Sound(cfg: Config, p: Proc, s: Slot) {
    && OwnKind(cfg, p.req, s)
    && match p.pc
    case Declaring(info, n) =>
      && p.req.Patch? && s.upload.Some? && Pending(s, info) && info.sizeIsDeferred
      && AtOffset(p.req, info)
      && p.req.declare.Value? && p.req.declare.n == n && AcceptableLength(cfg, info, p.req.declare)
    case Deleting => s.upload.Some?
    case Ready(info) =>
      (p.req.Patch? || p.req.Post?) && s.upload.Some? && Pending(s, info) && AtOffset(p.req, info)
    case NewlyCreated =>
      && p.req.Post? && s.finishes == 0 && s.completes == 0 && s.creator.Some?
      && s.upload.Some? && s.upload.value.data == []
      && (IsFinalPost(cfg, p.req) <==> s.upload.value.info.isFinal)
    case Writing(info, w) => InWrite(cfg, p.req, s, info, w)
    case Wrote(info, w) => InWrite(cfg, p.req, s, info, w)
    case Stopping(info, _, next) => Pending(s, info.(offset := next)) && !IsFinalPost(cfg, p.req)
    case Finishing(info, caller) => FinishReady(cfg, p.req, s, info, caller)
    case Emitting(info, caller) => Finished(cfg, p.req, s, info, caller)
    case Unregistering(info, _, next) =>
      && s.creator.Some? && s.creator != Some(V1Final)
      && (s.upload.Some? ==> s.upload.value.info == info.(offset := next) && !info.isFinal)
      && (info.sizeIsDeferred ==> s.finishes == 0 && s.completes == 0)
    case Asking(_) =>
      && p.req.Post? && p.req.form.FormDraft? && s.finishes == 0 && s.completes == 0
      && s.creator.Some? && s.creator != Some(V1Final)
      && (s.upload.Some? ==> s.upload.value.info.sizeIsDeferred && !s.upload.value.info.isFinal)
    case DeclaringEnd(info, _) =>
      && p.req.Post? && p.req.form.FormDraft? && s.upload.Some? && Pending(s, info) && info.sizeIsDeferred
    case Joining(total) => JoinReady(cfg, p.req, s, total)
    case Announcing(total) => JoinReady(cfg, p.req, s, total)
    case _ => true
  }

  /** What is known of a request that does not have its ID. */
  ghost predicate Outside(cfg: Config, p: Proc) {
    match p.pc
    case Entry => p.plan == [] && p.sizes == [] && p.joined == 0
    case Waiting => !p.req.Post? && p.plan == [] && Refusal(cfg, p.req).None?
    case Sizing(total) =>
      && IsFinalPost(cfg, p.req) && Refusal(cfg, p.req).None?
      && p.plan == [] && p.joined == 0 && |p.sizes| <= |Parts(cfg, p.req)|
    case Creating(info) =>
      && p.req.Post? && p.plan == [] && p.joined == 0 && Refusal(cfg, p.req).None?
      && if IsFinalPost(cfg, p.req) then
           && |p.sizes| == |Parts(cfg, p.req)|
           && exists total :: info == FinalInfo(p.req, cfg, total).(offset := 0) && !TooBig(cfg, total)
         else CreationOf(cfg, p.req) == Plain(info)
    case _ => true
  }

  // ------------------------------------------------------------------ every step keeps it

  ghost predicate StepOk(cfg: Config, p: Proc, s: Slot, l: Local) {
    && Sound(cfg, p.(pc := l.pc), l.slot) && SlotOk(cfg, l.slot) && Forward(s, l.slot)
    && (s.creator == Some(V1Final) && !IsFinalPost(cfg, p.req) && l.slot.upload.Some? ==> l.slot == s)
  }

  lemma BeforeWriteOk(cfg: Config, p: Proc, s: Slot)
    requires p.pc.Holding? || p.pc.Looked? || p.pc.Reading? || p.pc.Deleting? || p.pc.NewlyCreated?
    requires Sound(cfg, p, s) && SlotOk(cfg, s)
    ensures StepOk(cfg, p, s, Micro(cfg, p.req, p.env, p.pc, s))
  {
    hide InWrite, CreationOf, Begun, Stored, EnterWrite, IsFinalPost;
  }

  lemma DeclaringOk(cfg: Config, p: Proc, s: Slot)
    requires p.pc.Declaring? || p.pc.Asking? || p.pc.DeclaringEnd?
    requires Sound(cfg, p, s) && SlotOk(cfg, s)
    ensures StepOk(cfg, p, s, Micro(cfg, p.req, p.env, p.pc, s))
  {
    hide WriteInv, CreationOf, Begun, Stored;
    FormOfFinal(cfg, p.req);
  }

  lemma FormOfFinal(cfg: Config, req: Request)
    ensures IsFinalPost(cfg, req) ==> req.Post? && req.form.FormV1?
  {}

  lemma StoppingOk(cfg: Config, p: Proc, s: Slot)
    requires p.pc.Stopping? || p.pc.Unregistering?
    requires Sound(cfg, p, s) && SlotOk(cfg, s)
    ensures StepOk(cfg, p, s, Micro(cfg, p.req, p.env, p.pc, s))
  {
    hide WriteInv, CreationOf, Begun, Stored, IsFinalPost, UploadOk, Refusal;
    FormOfFinal(cfg, p.req);
  }

  lemma FinishingOk(cfg: Config, p: Proc, s: Slot)
    requires p.pc.Finishing?
    requires Sound(cfg, p, s) && SlotOk(cfg, s)
    ensures StepOk(cfg, p, s, Micro(cfg, p.req, p.env, p.pc, s))
  {
    hide WriteInv, CreationOf, Begun, Stored, IsFinalPost, UploadOk, Refusal;
  }

  lemma EmittingOk(cfg: Config, p: Proc, s: Slot)
    requires p.pc.Emitting?
    requires Sound(cfg, p, s) && SlotOk(cfg, s)
    ensures StepOk(cfg, p, s, Micro(cfg, p.req, p.env, p.pc, s))
  {
    hide WriteInv, CreationOf, Begun, Stored, IsFinalPost, UploadOk, Refusal;
  }

  lemma WroteOk(cfg: Config, p: Proc, s: Slot)
    requires p.pc.Wrote?
    requires Sound(cfg, p, s) && SlotOk(cfg, s)
    ensures StepOk(cfg, p, s, Micro(cfg, p.req, p.env, p.pc, s))
  {
    hide WriteInv, CreationOf, IsFinalPost, Begun, Stored, BodyCap, HasError, WriteError, TooLong, UploadOk, Holds;
    FormOfFinal(cfg, p.req);
  }

  /** Writing later bytes over the kept part of a chunk extends it. */
  lemma RewriteExtends(data: seq<byte>, offset: nat, kept: seq<byte>, more: seq<byte>)
    requires |data| == offset + |kept| && data[offset..] == kept && kept <= more
    ensures data <= WriteAt(data, offset, more) == data[..offset] + more
  {
    assert data == data[..offset] + kept;
    assert Cut(data, offset) + Zeros(offset - |data|) == data[..offset];
  }

  lemma StepKeepsPrefix(w: Write, e: WriteEvent)
    requires w.kept <= |w.got|
    ensures var v := WriteStep(w, e);
            w.kept <= v.kept <= |v.got| && w.got <= v.got
  {}

  lemma StoredOk(cfg: Config, s: Slot, info: FileInfo, w: Write, v: Write)
    requires SlotOk(cfg, s) && s.upload.Some? && s.finishes == 0 && s.creator != Some(V1Final)
    requires s.upload.value.info == info.(offset := info.offset + w.kept)
    requires Holds(s, info, w) && w.kept <= v.kept <= |v.got| && w.got <= v.got
    ensures var t := Stored(s, info, v);
            && SlotOk(cfg, t) && Forward(s, t) && Holds(t, info, v)
            && t.upload.value.info == info.(offset := info.offset + v.kept)
            && t.finishes == s.finishes && t.completes == s.completes && t.creator == s.creator
            && (v.kept == w.kept ==> t.upload == s.upload)
  {
    var data := s.upload.value.data;
    assert w.got[..w.kept] <= v.got[..v.kept];
    RewriteExtends(data, info.offset, w.got[..w.kept], v.got[..v.kept]);
    assert Stored(s, info, v).upload.value.data == data[..info.offset] + v.got[..v.kept];
    if v.kept == w.kept {
      assert v.got[..v.kept] == w.got[..w.kept];
      assert data == data[..info.offset] + data[info.offset..];
    }
  }

  /** Persisting more of the body moves the slot forward and keeps the write sound. */
  lemma TransferOk(cfg: Config, p: Proc, s: Slot, e: WriteEvent)
    requires p.pc.Writing? && Sound(cfg, p, s) && SlotOk(cfg, s)
    ensures var w := WriteStep(p.pc.w, e);
            StepOk(cfg, p, s, Local(Writing(p.pc.info, w), Stored(s, p.pc.info, w)))
  {
    hide Sound, InWrite, BodyCap, CreationOf, TooLong, WriteStep, Stored, SlotOk, Forward, Holds, WriteInv,
         IsFinalPost, OwnKind;
    var w := WriteStep(p.pc.w, e);
    WritingIsSound(cfg, p, s, p.pc.info, p.pc.w);
    InWriteKept(cfg, p.req, s, p.pc.info, p.pc.w, e);
    OwnKindKept(cfg, p.req, s, Stored(s, p.pc.info, w));
    WritingIsSound(cfg, p.(pc := Writing(p.pc.info, w)), Stored(s, p.pc.info, w), p.pc.info, w);
  }

  lemma WritingIsSound(cfg: Config, p: Proc, s: Slot, info: FileInfo, w: Write)
    requires p.pc == Writing(info, w)
    ensures Sound(cfg, p, s) <==> OwnKind(cfg, p.req, s) && InWrite(cfg, p.req, s, info, w)
  {
    hide InWrite, OwnKind;
  }

  lemma OwnKindKept(cfg: Config, req: Request, s: Slot, t: Slot)
    requires OwnKind(cfg, req, s) && t.creator == s.creator
    ensures OwnKind(cfg, req, t)
  {
    hide IsFinalPost;
  }

  lemma InWriteKept(cfg: Config, req: Request, s: Slot, info: FileInfo, w: Write, e: WriteEvent)
    requires InWrite(cfg, req, s, info, w) && SlotOk(cfg, s)
    ensures var v := WriteStep(w, e);
            var t := Stored(s, info, v);
            && InWrite(cfg, req, t, info, v) && SlotOk(cfg, t) && Forward(s, t)
            && t.creator == s.creator && s.creator != Some(V1Final)
            && t.upload.Some? && t.upload.value.info == info.(offset := info.offset + v.kept)
            && (v.kept == w.kept ==> t.upload == s.upload)
  {
    hide BodyCap, TooLong, WriteStep, Stored, SlotOk, Forward, Holds, WriteInv;
    var v := WriteStep(w, e);
    WriteStepInv(w, e, req.body.value, BodyCap(cfg, info, req.length));
    WriteInvKept(w, req.body.value, BodyCap(cfg, info, req.length));
    StepKeepsPrefix(w, e);
    StoredOk(cfg, s, info, w, v);
  }

  lemma WriteInvKept(w: Write, source: Stream, limit: int)
    requires WriteInv(w, source, limit)
    ensures w.kept <= |w.got|
  {}

  lemma ReadyOk(cfg: Config, p: Proc, s: Slot)
    requires p.pc.Ready?
    requires Sound(cfg, p, s) && SlotOk(cfg, s)
    ensures StepOk(cfg, p, s, Micro(cfg, p.req, p.env, p.pc, s))
  {
    hide CreationOf, Stored, BodyCap, Forward, WriteInv, IsFinalPost;
    var req, info := p.req, p.pc.info;
    if !TooLong(info, req.length) && req.body.Some? {
      var w := Begun(cfg, req, info);
      WriteRunInv(req.body.value, BodyCap(cfg, info, req.length), []);
      assert s.upload.value.data[info.offset..] == w.got[..0];
      StoredOk(cfg, s, info, w, w);
    } else {
      ForwardReflexive(s);
    }
  }

  lemma AnnouncingOk(cfg: Config, p: Proc, s: Slot)
    requires p.pc.Announcing?
    requires Sound(cfg, p, s) && SlotOk(cfg, s)
    ensures StepOk(cfg, p, s, Micro(cfg, p.req, p.env, p.pc, s))
  {
    hide CreationOf;
  }

  /** Every step of a request on its own slot. */
  lemma MicroOk(cfg: Config, p: Proc, s: Slot)
    requires Owns(p.pc) && !p.pc.Writing? && !p.pc.Joining? && !p.pc.Leaving?
    requires Sound(cfg, p, s) && SlotOk(cfg, s)
    ensures StepOk(cfg, p, s, Micro(cfg, p.req, p.env, p.pc, s))
  {
    hide Micro, Sound, SlotOk, StepOk;
    match p.pc
    case Wrote(_, _) => WroteOk(cfg, p, s);
    case Ready(_) => ReadyOk(cfg, p, s);
    case Announcing(_) => AnnouncingOk(cfg, p, s);
    case Stopping(_, _, _) => StoppingOk(cfg, p, s);
    case Finishing(_, _) => FinishingOk(cfg, p, s);
    case Emitting(_, _) => EmittingOk(cfg, p, s);
    case Unregistering(_, _, _) => StoppingOk(cfg, p, s);
    case Declaring(_, _) => DeclaringOk(cfg, p, s);
    case Asking(_) => DeclaringOk(cfg, p, s);
    case DeclaringEnd(_, _) => DeclaringOk(cfg, p, s);
    case _ => BeforeWriteOk(cfg, p, s);
  }

  // ------------------------------------------------------------------ reachable states

  ghost predicate ProcOk(cfg: Config, p: Proc, s: Slot) {
    if Owns(p.pc) then Sound(cfg, p, s) else Outside(cfg, p)
  }

  ghost predicate Inv(cfg: Config, sys: System) {
    && Exclusive(sys) && RegistryAgrees(sys)
    && (forall id: ID :: SlotOk(cfg, At(sys.slots, id)))
    && (forall r :: 0 <= r < |sys.procs| ==> ProcOk(cfg, sys.procs[r], At(sys.slots, sys.procs[r].req.id)))
  }

  ghost predicate MoveOk(cfg: Config, s: Slot, p: Proc, m: Move)
    requires m.Move?
  {
    && ProcOk(cfg, m.proc, m.slot) && SlotOk(cfg, m.slot) && Forward(s, m.slot)
    && (s.creator == Some(V1Final) && !IsFinalPost(cfg, p.req) && m.slot.upload.Some? ==> m.slot == s)
  }

  lemma JoinOk(cfg: Config, sys: System, r: nat)
    requires Inv(cfg, sys) && r < |sys.procs| && sys.procs[r].pc.Joining?
    ensures var m := NextStep(cfg, sys, r);
            m.Move? && MoveOk(cfg, At(sys.slots, sys.procs[r].req.id), sys.procs[r], m)
  {
    hide Exclusive, RegistryAgrees, CreationOf;
    var p := sys.procs[r];
    assert ProcOk(cfg, p, At(sys.slots, p.req.id));
    assert SlotOk(cfg, At(sys.slots, p.req.id));
  }

  /** What a POST creates is sound. */
  lemma CreatedOk(cfg: Config, p: Proc, s: Slot)
    requires p.pc.Creating? && Outside(cfg, p) && SlotOk(cfg, s) && s.creator.None?
    ensures var t := NewUpload(s, p.pc.info, Creator(p.req, p.pc.info));
            SlotOk(cfg, t) && Forward(s, t) && Sound(cfg, p.(pc := NewlyCreated, base := s), t)
  {
    if !IsFinalPost(cfg, p.req) {
      PlainCreation(cfg, p.req);
    }
  }

  lemma PlainCreation(cfg: Config, req: Request)
    requires req.Post? && CreationOf(cfg, req).Plain?
    ensures var info := CreationOf(cfg, req).info;
            && info.offset == 0 && !info.isFinal
            && (req.form.FormV1? ==> 0 <= info.size && !TooBig(cfg, info.size))
  {}

  lemma CreateOk(cfg: Config, sys: System, r: nat)
    requires Inv(cfg, sys) && r < |sys.procs| && sys.procs[r].pc.Creating?
    ensures var m := NextStep(cfg, sys, r);
            m.Move? ==> MoveOk(cfg, At(sys.slots, sys.procs[r].req.id), sys.procs[r], m)
  {
    hide Exclusive, RegistryAgrees, CreationOf, IsFinalPost, UploadOk, NewUpload, FinalInfo;
    var p := sys.procs[r];
    var s := At(sys.slots, p.req.id);
    assert ProcOk(cfg, p, s) && SlotOk(cfg, s);
    if s.creator.None? {
      CreatedOk(cfg, p, s);
    }
  }

  lemma SizingOk(cfg: Config, sys: System, r: nat)
    requires Inv(cfg, sys) && r < |sys.procs| && sys.procs[r].pc.Sizing?
    ensures var m := NextStep(cfg, sys, r);
            m.Move? && MoveOk(cfg, At(sys.slots, sys.procs[r].req.id), sys.procs[r], m)
  {
    hide Exclusive, RegistryAgrees, CreationOf, UploadOk, FinalInfo, TooBig;
    var p := sys.procs[r];
    assert ProcOk(cfg, p, At(sys.slots, p.req.id));
    assert SlotOk(cfg, At(sys.slots, p.req.id));
  }

  lemma StartOk(cfg: Config, sys: System, r: nat)
    requires Inv(cfg, sys) && r < |sys.procs|
    requires sys.procs[r].pc.Entry? || sys.procs[r].pc.Waiting? || sys.procs[r].pc.Leaving?
    ensures var m := NextStep(cfg, sys, r);
            m.Move? ==> MoveOk(cfg, At(sys.slots, sys.procs[r].req.id), sys.procs[r], m)
  {
    hide Exclusive, RegistryAgrees, CreationOf, UploadOk;
    var p := sys.procs[r];
    assert ProcOk(cfg, p, At(sys.slots, p.req.id));
    assert SlotOk(cfg, At(sys.slots, p.req.id));
  }

  lemma StepOkAlways(cfg: Config, sys: System, r: nat)
    requires Inv(cfg, sys) && r < |sys.procs|
    ensures var m := NextStep(cfg, sys, r);
            m.Move? ==> m.r == r && MoveOk(cfg, At(sys.slots, sys.procs[r].req.id), sys.procs[r], m)
  {
    hide Exclusive, RegistryAgrees, SlotOk, Forward, WriteInv, CreationOf, Micro, Stored, WriteStep, AfterEntry, Sound;
    var p := sys.procs[r];
    var s := At(sys.slots, p.req.id);
    assert ProcOk(cfg, p, s) && SlotOk(cfg, s);
    match p.pc {
      case Entry => StartOk(cfg, sys, r);
      case Waiting => StartOk(cfg, sys, r);
      case Leaving(_) => StartOk(cfg, sys, r);
      case Sizing(_) => SizingOk(cfg, sys, r);
      case Creating(_) => CreateOk(cfg, sys, r);
      case Joining(_) => JoinOk(cfg, sys, r);
      case Writing(_, _) =>
      case Done(_) =>
      case _ =>
        MicroOk(cfg, p, s);
        MicroKeepsHold(cfg, p.req, p.env, p.pc, s);
    }
  }

  lemma EventOk(cfg: Config, sys: System, ev: Event)
    requires Inv(cfg, sys)
    ensures var m := MoveOf(cfg, sys, ev);
            m.Move? && m.r < |sys.procs| ==> MoveOk(cfg, At(sys.slots, sys.procs[m.r].req.id), sys.procs[m.r], m)
  {
    hide Exclusive, RegistryAgrees, SlotOk, Forward, Sound, Outside, NextStep, Transfer, At, MoveOk, IsFinalPost;
    var m := MoveOf(cfg, sys, ev);
    if m.Move? && m.r < |sys.procs| {
      match ev
      case Step(r) => StepOkAlways(cfg, sys, r);
      case Body(r, e) => TransferMoveOk(cfg, sys, r, e);
      case Return(r) => ReturnOk(cfg, sys, r);
      case Trigger(id) => TransferMoveOk(cfg, sys, sys.stops[id], Stop);
    }
  }

  lemma ReturnOk(cfg: Config, sys: System, r: nat)
    requires Inv(cfg, sys) && r < |sys.procs| && sys.procs[r].pc.Writing?
    ensures var p := sys.procs[r];
            var s := At(sys.slots, p.req.id);
            MoveOk(cfg, s, p, Move(r, p.(pc := Wrote(p.pc.info, p.pc.w)), s))
  {
    hide Exclusive, RegistryAgrees, SlotOk, Forward, InWrite, OwnKind, At, IsFinalPost;
    var p := sys.procs[r];
    assert ProcOk(cfg, p, At(sys.slots, p.req.id)) && SlotOk(cfg, At(sys.slots, p.req.id));
    ForwardReflexive(At(sys.slots, p.req.id));
  }

  lemma TransferMoveOk(cfg: Config, sys: System, r: nat, e: WriteEvent)
    requires Inv(cfg, sys) && r < |sys.procs| && (sys.procs[r].pc.Writing? || (sys.procs[r].pc.Wrote? && e.Stop?))
    ensures var m := Transfer(sys, r, e);
            m.Move? && m.r == r && MoveOk(cfg, At(sys.slots, sys.procs[r].req.id), sys.procs[r], m)
  {
    hide Exclusive, RegistryAgrees, SlotOk, Forward, Sound, At, IsFinalPost, Stored, WriteStep, Outside;
    var p := sys.procs[r];
    var s := At(sys.slots, p.req.id);
    assert ProcOk(cfg, p, s) && SlotOk(cfg, s);
    if p.pc.Writing? {
      TransferOk(cfg, p, s, e);
      PlanIsFree(cfg, p, Writing(p.pc.info, WriteStep(p.pc.w, e)), e, Stored(s, p.pc.info, WriteStep(p.pc.w, e)));
    } else {
      StopAfterReturn(cfg, p, s);
      PlanIsFree(cfg, p, Wrote(p.pc.info, WriteStep(p.pc.w, e)), e, s);
    }
  }

  /** Soundness does not depend on the record of the transfer. */
  lemma PlanIsFree(cfg: Config, p: Proc, pc: Pc, e: WriteEvent, s: Slot)
    requires Sound(cfg, p.(pc := pc), s) && (pc.Writing? || pc.Wrote?)
    ensures Sound(cfg, p.(pc := pc, plan := p.plan + [e]), s)
  {
    hide InWrite, OwnKind;
  }

  lemma StopAfterReturn(cfg: Config, p: Proc, s: Slot)
    requires p.pc.Wrote? && Sound(cfg, p, s) && SlotOk(cfg, s)
    ensures Sound(cfg, p.(pc := Wrote(p.pc.info, WriteStep(p.pc.w, Stop))), s) && Forward(s, s)
  {
    hide BodyCap, CreationOf, SlotOk, WriteInv, IsFinalPost;
    WriteStepInv(p.pc.w, Stop, p.req.body.value, BodyCap(cfg, p.pc.info, p.req.length));
  }

  /** Every event keeps the invariant and moves every slot forward. */
  lemma NextInv(cfg: Config, sys: System, ev: Event)
    requires Inv(cfg, sys)
    ensures Inv(cfg, Next(cfg, sys, ev))
    ensures forall id: ID :: Forward(At(sys.slots, id), At(Next(cfg, sys, ev).slots, id))
  {
    hide Sound, Outside, SlotOk, Forward, MoveOf, Owns, Registered, Exclusive, RegistryAgrees;
    var m := MoveOf(cfg, sys, ev);
    MovesFit(cfg, sys, ev);
    forall id: ID
      ensures Forward(At(sys.slots, id), At(Next(cfg, sys, ev).slots, id))
    {
      ForwardReflexive(At(sys.slots, id));
      if m.Move? { EventOk(cfg, sys, ev); }
    }
    if m.Move? {
      EventOk(cfg, sys, ev);
      ApplyExclusive(sys, m);
      ApplyRegistry(sys, m);
      ApplyProcs(cfg, sys, m);
    }
  }

  /** The other processes do not notice a move: those on the same ID do not have it. */
  lemma ApplyProcs(cfg: Config, sys: System, m: Move)
    requires Inv(cfg, sys) && m.Move? && Fits(sys, m)
    requires MoveOk(cfg, At(sys.slots, sys.procs[m.r].req.id), sys.procs[m.r], m)
    ensures var now := Apply(sys, m.r, m.proc, m.slot);
            forall r :: 0 <= r < |now.procs| ==>
              ProcOk(cfg, now.procs[r], At(now.slots, now.procs[r].req.id))
  {
    hide Sound, Outside, SlotOk, Forward, Owns, Registered, RegistryAgrees;
    var now := Apply(sys, m.r, m.proc, m.slot);
    var id := sys.procs[m.r].req.id;
    forall r | 0 <= r < |now.procs|
      ensures ProcOk(cfg, now.procs[r], At(now.slots, now.procs[r].req.id))
    {
      if r != m.r {
        assert now.procs[r] == sys.procs[r];
        assert ProcOk(cfg, sys.procs[r], At(sys.slots, sys.procs[r].req.id));
        if sys.procs[r].req.id == id && Owns(sys.procs[r].pc) {
          assert sys.owner[id] == r;
          assert m.slot == At(sys.slots, id);
        }
      }
    }
  }
}
