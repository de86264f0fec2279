/**
 Sizes, as far as the code's 64-bit arithmetic is exact: a known size bounds what is stored, and
 an upload that is complete stays as it is.  Concatenation, which reads other uploads, is in
 Concat.dfy.
 */
module Sizes {
  import opened Prelude
  import opened BodyReaders
  import opened Lifecycle
  import opened Finals
  import opened Steps
  import opened Invariants
  import opened Safety

  /**
   The sums that the code computes for these uploads are int64s: offset and Content-Length of
   their requests, and the sizes of their parts, which are among these uploads too.
   */
  ghost predicate Bounded(cfg: Config, sys: System, ids: set<ID>) {
    forall r :: 0 <= r < |sys.procs| && sys.procs[r].req.id in ids ==> ProcBounded(cfg, sys.procs[r], ids)
  }

  ghost predicate ProcBounded(cfg: Config, p: Proc, ids: set<ID>) {
    Sane(p.req) && Sum(p.sizes) <= MAX_INT64 && forall part :: part in Parts(cfg, p.req) ==> part in ids
  }

  /** A known size bounds the offset; a negative one, which only a draft POST declares, leaves it at zero. */
  predicate Within(s: Slot) {
    s.upload.Some? && !s.upload.value.info.sizeIsDeferred ==>
      s.upload.value.info.offset <= Max(s.upload.value.info.size, 0)
  }

  ghost predicate StaysComplete(s: Slot, t: Slot) {
    s.upload.Some? && Complete(s.upload.value.info) && t.upload.Some? ==> t.upload == s.upload
  }

  /** What the store keeps of a body never exceeds what the size leaves. */
  lemma KeptFitsEvery(cfg: Config, req: Request, info: FileInfo, w: Write)
    requires (req.Patch? || req.Post?) && req.body.Some?
    requires !TooLong(info, req.length) && LengthFits(info.offset, req.length)
    requires !info.sizeIsDeferred ==> info.offset <= Max(info.size, 0)
    requires WriteInv(w, req.body.value, BodyCap(cfg, info, req.length))
    ensures !info.sizeIsDeferred ==> info.offset + w.kept <= Max(info.size, 0)
  {
    assert w.kept <= |w.got| <= |w.got + Flying(w)| <= Max(BodyCap(cfg, info, req.length), 0);
  }

  /** An event of a transfer. */
  lemma TransferWithin(cfg: Config, req: Request, s: Slot, info: FileInfo, w: Write, e: WriteEvent)
    requires InWrite(cfg, req, s, info, w) && SlotOk(cfg, s) && Within(s) && Sane(req)
    ensures var t := Stored(s, info, WriteStep(w, e)); Within(t) && StaysComplete(s, t)
  {
    hide BodyCap, TooLong, WriteStep, Stored, SlotOk, Forward, Holds, WriteInv;
    var v := WriteStep(w, e);
    InWriteKept(cfg, req, s, info, w, e);
    KeptFitsEvery(cfg, req, info, v);
    StepKeepsMore(w, e, req.body.value, BodyCap(cfg, info, req.length));
  }

  lemma StepKeepsMore(w: Write, e: WriteEvent, source: Stream, limit: int)
    requires WriteInv(w, source, limit)
    ensures w.kept <= WriteStep(w, e).kept
  {
    WriteInvKept(w, source, limit);
    StepKeepsPrefix(w, e);
  }

  /** The other steps of a request that has its ID, apart from joining. */
  lemma MicroWithin(cfg: Config, p: Proc, s: Slot)
    requires Owns(p.pc) && !p.pc.Writing? && !p.pc.Joining? && !p.pc.Leaving?
    requires Sound(cfg, p, s) && SlotOk(cfg, s) && Within(s)
    ensures var t := Micro(cfg, p.req, p.env, p.pc, s).slot; Within(t) && StaysComplete(s, t)
  {
    hide InWrite, CreationOf, IsFinalPost, TooLong, BodyCap, HeadResponse, WriteRun;
    if p.pc.Ready? {
      ReadyStays(cfg, p, s);
    }
  }

  lemma ReadyStays(cfg: Config, p: Proc, s: Slot)
    requires p.pc.Ready? && Sound(cfg, p, s) && SlotOk(cfg, s)
    ensures Micro(cfg, p.req, p.env, p.pc, s).slot.upload == s.upload
  {
    hide CreationOf, IsFinalPost, TooLong, BodyCap;
    var data := s.upload.value.data;
    assert Cut(data, |data|) == data && Zeros(0) == [] && data + [] == data;
  }

  /** Every event but the joining of a part. */
  lemma MoveWithin(cfg: Config, sys: System, ev: Event)
    requires Inv(cfg, sys)
    ensures var m := MoveOf(cfg, sys, ev);
            m.Move? && m.r < |sys.procs| && !sys.procs[m.r].pc.Joining? && Sane(sys.procs[m.r].req)
            && Within(At(sys.slots, sys.procs[m.r].req.id)) ==>
              Within(m.slot) && StaysComplete(At(sys.slots, sys.procs[m.r].req.id), m.slot)
  {
    hide Exclusive, RegistryAgrees, SlotOk, NextStep, Sound, InWrite, Stored, WriteStep, At, IsFinalPost, Within,
         StaysComplete;
    var m := MoveOf(cfg, sys, ev);
    if m.Move? && m.r < |sys.procs| {
      var p := sys.procs[m.r];
      var s := At(sys.slots, p.req.id);
      assert ProcOk(cfg, p, s) && SlotOk(cfg, s);
      SameStays(s);
      if Within(s) && Sane(p.req) && !p.pc.Joining? {
        if ev.Step? {
          StepsItself(cfg, sys, ev.r);
          StepWithin(cfg, sys, ev.r);
        } else if p.pc.Writing? {
          WritingIsSound(cfg, p, s, p.pc.info, p.pc.w);
          TransferWithin(cfg, p.req, s, p.pc.info, p.pc.w, if ev.Body? then ev.e else Stop);
        }
      }
    }
  }

  lemma SameStays(s: Slot)
    ensures StaysComplete(s, s)
  {}

  lemma StepWithin(cfg: Config, sys: System, r: nat)
    requires Inv(cfg, sys) && r < |sys.procs| && !sys.procs[r].pc.Joining? && Within(At(sys.slots, sys.procs[r].req.id))
    ensures var m := NextStep(cfg, sys, r);
            m.Move? ==> Within(m.slot) && StaysComplete(At(sys.slots, sys.procs[r].req.id), m.slot)
  {
    hide Exclusive, RegistryAgrees, SlotOk, Micro, Sound, At, IsFinalPost, Refusal, AfterEntry, CreationOf, Parts;
    var p := sys.procs[r];
    var s := At(sys.slots, p.req.id);
    assert ProcOk(cfg, p, s) && SlotOk(cfg, s);
    if p.pc.Creating? {
      CreatingAtZero(cfg, p);
      NothingStored(cfg, s);
    } else if Owns(p.pc) && !p.pc.Writing? && !p.pc.Leaving? {
      MicroWithin(cfg, p, s);
    }
  }

  lemma CreatingAtZero(cfg: Config, p: Proc)
    requires p.pc.Creating? && Outside(cfg, p)
    ensures p.pc.info.offset == 0
  {
    if !IsFinalPost(cfg, p.req) {
      PlainCreation(cfg, p.req);
    }
  }

  lemma NothingStored(cfg: Config, s: Slot)
    requires SlotOk(cfg, s)
    ensures s.creator.None? ==> s.upload.None?
  {}
}
