/**
 What a POST asked for is what HEAD tells, in every run and however much later: the kind of
 upload, its parts, and its length once that is known.
 */
module Creation {
  import opened Prelude
  import opened BodyReaders
  import opened Lifecycle
  import opened Confluence
  import opened Answers
  import opened Steps
  import opened Invariants
  import opened Safety
  import opened Serial
  import opened Consequences
  import UploadConcat

  /** The header asks for a partial upload, and the server takes notice of it. */
  predicate AsksForPartial(cfg: Config, req: Request)
    requires req.Post?
  {
    req.form.FormV1? && cfg.usesConcater && req.form.concat == "partial"
  }

  /** The length that a POST states. */
  function Length(req: Request): Option<int>
    requires req.Post?
  {
    match req.form
    case FormV1(_, uploadLength, deferLength, _) =>
      if deferLength == "" && uploadLength.Value? then Some(uploadLength.n) else None
    case FormDraft(_, _) => StatedLength(req)
  }

  /** An upload is of the kind that this POST asked for. */
  predicate AsAsked(cfg: Config, req: Request, info: FileInfo)
    requires req.Post?
  {
    && (info.isPartial <==> AsksForPartial(cfg, req))
    && (info.isFinal <==> IsFinalPost(cfg, req))
    && (IsFinalPost(cfg, req) ==> info.partialUploads == Parts(cfg, req))
    && (!IsFinalPost(cfg, req) && Length(req).Some? ==> !info.sizeIsDeferred && info.size == Length(req).value)
  }

  predicate SlotAsAsked(cfg: Config, req: Request, s: Slot)
    requires req.Post?
  {
    s.creator.Some? && (s.upload.Some? ==> AsAsked(cfg, req, s.upload.value.info))
  }

  lemma StaysAsAsked(cfg: Config, req: Request, s: Slot, t: Slot)
    requires req.Post? && SlotAsAsked(cfg, req, s) && Forward(s, t)
    ensures SlotAsAsked(cfg, req, t)
  {
    hide IsFinalPost, AsksForPartial, Length, Parts;
  }

  /** What a POST makes is what it asked for. */
  lemma MadeAsAsked(cfg: Config, p: Proc)
    requires p.pc.Creating? && Outside(cfg, p) && p.req.Post?
    ensures AsAsked(cfg, p.req, p.pc.info)
  {
    hide IsFinalPost, CreationOf, V1Headers, V1Info;
    if p.req.form.FormV1? {
      V1HeadersDecide(cfg, p.req, NoContent);
      FormIs(cfg, p.req);
    } else {
      DraftHeadersDecide(cfg, p.req, NoContent);
      FormOfFinal(cfg, p.req);
    }
  }

  lemma FormIs(cfg: Config, req: Request)
    requires req.Post? && req.form.FormV1?
    ensures IsFinalPost(cfg, req) ==> !AsksForPartial(cfg, req)
    ensures !IsFinalPost(cfg, req) && CreationOf(cfg, req).Plain? ==> AsAsked(cfg, req, V1Info(cfg, req))
  {
    hide UploadConcat.ParseConcat;
    UploadConcat.FormOfHeader(if cfg.usesConcater then req.form.concat else "", cfg.basePath);
  }

  /** What the requests that got their IDs found, or made, is as the POST for that ID asked. */
  ghost predicate AskedInv(cfg: Config, sys: System) {
    && (forall q :: q in sys.order && q < |sys.procs| && sys.procs[q].req.Post? ==>
          SlotAsAsked(cfg, sys.procs[q].req, At(sys.slots, sys.procs[q].req.id)))
    && (forall r :: r in sys.order && r < |sys.procs| && sys.procs[r].base.upload.Some? ==>
          At(sys.slots, sys.procs[r].req.id).creator.Some?)
    && (forall q, r :: q in sys.order && r in sys.order && q < |sys.procs| && r < |sys.procs| ==>
          FoundAsAsked(cfg, sys.procs[q], sys.procs[r]))
  }

  predicate FoundAsAsked(cfg: Config, q: Proc, r: Proc) {
    q.req.Post? && r.req.id == q.req.id && r.base.upload.Some? ==> AsAsked(cfg, q.req, r.base.upload.value.info)
  }

  /** A POST that gets its ID finds it unused and makes what it asked for. */
  lemma StartsAsAsked(cfg: Config, sys: System, ev: Event)
    requires Inv(cfg, sys)
    ensures var m := MoveOf(cfg, sys, ev);
            m.Move? && m.r < |sys.procs| && !Owns(sys.procs[m.r].pc) && Owns(m.proc.pc) && m.proc.req.Post? ==>
              At(sys.slots, m.proc.req.id).creator.None? && SlotAsAsked(cfg, m.proc.req, m.slot)
  {
    hide Exclusive, RegistryAgrees, SlotOk, NextStep, Stored, WriteStep, At, AsAsked, Sound, Outside;
    var m := MoveOf(cfg, sys, ev);
    if m.Move? && m.r < |sys.procs| && ev.Step? {
      StepsItself(cfg, sys, ev.r);
      assert ProcOk(cfg, sys.procs[m.r], At(sys.slots, sys.procs[m.r].req.id));
      if !Owns(sys.procs[m.r].pc) {
        StepAsAsked(cfg, sys, ev.r);
      }
    }
  }

  lemma StepAsAsked(cfg: Config, sys: System, r: nat)
    requires r < |sys.procs| && !Owns(sys.procs[r].pc) && Outside(cfg, sys.procs[r])
    ensures var m := NextStep(cfg, sys, r);
            m.Move? && Owns(m.proc.pc) && m.proc.req.Post? ==>
              At(sys.slots, m.proc.req.id).creator.None? && SlotAsAsked(cfg, m.proc.req, m.slot)
  {
    hide At, AsAsked, IsFinalPost, CreationOf, Refusal, Micro, TooBig, Parts, Complete, FinalInfo, Outside;
    var p := sys.procs[r];
    if p.pc.Creating? && p.req.Post? {
      MadeAsAsked(cfg, p);
    } else if p.pc.Waiting? {
      NoPostWaits(cfg, p);
    }
  }

  lemma NoPostWaits(cfg: Config, p: Proc)
    requires p.pc.Waiting? && Outside(cfg, p)
    ensures !p.req.Post?
  {
    hide Refusal;
  }

  /** A slot with an upload is used. */
  predicate Used(s: Slot) {
    s.upload.Some? ==> s.creator.Some?
  }

  lemma OkIsUsed(cfg: Config, s: Slot)
    requires SlotOk(cfg, s)
    ensures Used(s)
  {}

  lemma NextAsked(cfg: Config, sys: System, ev: Event)
    requires SerialInv(cfg, sys) && AskedInv(cfg, sys)
    ensures AskedInv(cfg, Next(cfg, sys, ev))
  {
    hide Exclusive, RegistryAgrees, ProcOk, SlotOk, Found, Settled, OnTrack, MoveOf, At, Owns, Registered, AsAsked,
         Forward, AskedInv, Ordered, MoveOk;
    var m := MoveOf(cfg, sys, ev);
    MovesFit(cfg, sys, ev);
    LeavingBase(cfg, sys, ev);
    StartsAsAsked(cfg, sys, ev);
    EventOk(cfg, sys, ev);
    if m.Move? {
      var s := At(sys.slots, sys.procs[m.r].req.id);
      assert SlotOk(cfg, s) && SlotOk(cfg, m.slot) && Forward(s, m.slot) by { MoveIsOk(cfg, sys, m); }
      OkIsUsed(cfg, s);
      OkIsUsed(cfg, m.slot);
      ApplyAsked(cfg, sys, m);
    }
  }

  lemma MoveIsOk(cfg: Config, sys: System, m: Move)
    requires Inv(cfg, sys) && m.Move? && m.r < |sys.procs|
    requires MoveOk(cfg, At(sys.slots, sys.procs[m.r].req.id), sys.procs[m.r], m)
    ensures var s := At(sys.slots, sys.procs[m.r].req.id);
            SlotOk(cfg, s) && SlotOk(cfg, m.slot) && Forward(s, m.slot)
  {
    hide Exclusive, RegistryAgrees, ProcOk, SlotOk, Forward, IsFinalPost;
  }

  /** A move that goes forward, whose request, if it gets its ID, is a POST for an unused one or finds what is there. */
  ghost predicate AskedMove(cfg: Config, sys: System, m: Move)
    requires m.Move? && m.r < |sys.procs|
  {
    var p := sys.procs[m.r];
    var s := At(sys.slots, p.req.id);
    && Fits(sys, m) && Forward(s, m.slot) && Used(s) && Used(m.slot)
    && (Owns(p.pc) && m.proc.pc.Done? ==> m.proc.base == m.slot || m.proc.base == p.base)
    && (!Owns(p.pc) && Owns(m.proc.pc) && m.proc.req.Post? ==>
          s.creator.None? && SlotAsAsked(cfg, m.proc.req, m.slot))
  }

  lemma ApplyAsked(cfg: Config, sys: System, m: Move)
    requires Ordered(sys) && AskedInv(cfg, sys) && m.Move? && m.r < |sys.procs| && AskedMove(cfg, sys, m)
    ensures AskedInv(cfg, Apply(sys, m.r, m.proc, m.slot))
  {
    hide At, Owns, Registered, AsAsked, Forward, SlotAsAsked, FoundAsAsked, AskedMove, Used;
    var now := Apply(sys, m.r, m.proc, m.slot);
    forall q | q in now.order && q < |now.procs| && now.procs[q].req.Post?
      ensures SlotAsAsked(cfg, now.procs[q].req, At(now.slots, now.procs[q].req.id))
    {
      SlotKept(cfg, sys, m, q);
    }
    forall r | r in now.order && r < |now.procs| && now.procs[r].base.upload.Some?
      ensures At(now.slots, now.procs[r].req.id).creator.Some?
    {
      BaseUsed(cfg, sys, m, r);
    }
    forall q, r | q in now.order && r in now.order && q < |now.procs| && r < |now.procs|
      ensures FoundAsAsked(cfg, now.procs[q], now.procs[r])
    {
      BaseKept(cfg, sys, m, q, r);
    }
  }

  lemma SlotKept(cfg: Config, sys: System, m: Move, q: nat)
    requires Ordered(sys) && AskedInv(cfg, sys) && m.Move? && m.r < |sys.procs| && AskedMove(cfg, sys, m)
    requires var now := Apply(sys, m.r, m.proc, m.slot);
             q in now.order && q < |now.procs| && now.procs[q].req.Post?
    ensures var now := Apply(sys, m.r, m.proc, m.slot);
            SlotAsAsked(cfg, now.procs[q].req, At(now.slots, now.procs[q].req.id))
  {
    hide At, Owns, Registered, AsAsked, Forward, SlotAsAsked, FoundAsAsked;
    var now := Apply(sys, m.r, m.proc, m.slot);
    AtAfter(sys.slots, m.proc.req.id, m.slot, now.procs[q].req.id);
    if q in sys.order && now.procs[q].req.id == m.proc.req.id {
      StaysAsAsked(cfg, now.procs[q].req, At(sys.slots, now.procs[q].req.id), m.slot);
    }
  }

  lemma BaseUsed(cfg: Config, sys: System, m: Move, r: nat)
    requires Ordered(sys) && AskedInv(cfg, sys) && m.Move? && m.r < |sys.procs| && AskedMove(cfg, sys, m)
    requires var now := Apply(sys, m.r, m.proc, m.slot);
             r in now.order && r < |now.procs| && now.procs[r].base.upload.Some?
    ensures var now := Apply(sys, m.r, m.proc, m.slot); At(now.slots, now.procs[r].req.id).creator.Some?
  {
    hide At, Owns, Registered, AsAsked, Grows, SlotAsAsked, FoundAsAsked;
    var now := Apply(sys, m.r, m.proc, m.slot);
    DoneOwnsNothing(m.proc.pc);
    if !Owns(sys.procs[m.r].pc) { NotYetOrdered(sys, m); }
    AtAfter(sys.slots, m.proc.req.id, m.slot, now.procs[r].req.id);
  }

  lemma BaseKept(cfg: Config, sys: System, m: Move, q: nat, r: nat)
    requires Ordered(sys) && AskedInv(cfg, sys) && m.Move? && m.r < |sys.procs| && AskedMove(cfg, sys, m)
    requires var now := Apply(sys, m.r, m.proc, m.slot);
             q in now.order && r in now.order && q < |now.procs| && r < |now.procs|
    ensures var now := Apply(sys, m.r, m.proc, m.slot); FoundAsAsked(cfg, now.procs[q], now.procs[r])
  {
    hide At, Owns, Registered, AsAsked, Forward;
    var now := Apply(sys, m.r, m.proc, m.slot);
    DoneOwnsNothing(m.proc.pc);
    if !Owns(sys.procs[m.r].pc) { NotYetOrdered(sys, m); }
    if now.procs[q].req.Post? && now.procs[r].req.id == now.procs[q].req.id {
      SlotKept(cfg, sys, m, q);
      AtAfter(sys.slots, m.proc.req.id, m.slot, now.procs[q].req.id);
      if q in sys.order && r in sys.order {
        assert FoundAsAsked(cfg, sys.procs[q], sys.procs[r]);
      }
    }
  }

  lemma {:induction false} RunAsked(cfg: Config, start: System, evs: seq<Event>)
    requires Initial(start)
    ensures AskedInv(cfg, Run(cfg, start, evs))
  {
    hide Next, SerialInv, AskedInv;
    if evs == [] {
      NobodyAsked(cfg, start);
    } else {
      var front := evs[..|evs| - 1];
      RunAsked(cfg, start, front);
      RunSerial(cfg, start, front);
      NextAsked(cfg, Run(cfg, start, front), evs[|evs| - 1]);
    }
  }

  lemma NobodyAsked(cfg: Config, start: System)
    requires start.order == []
    ensures AskedInv(cfg, start)
  {}

  /** A HEAD has answered what a POST asked for. */
  predicate TellsAsked(cfg: Config, post: Request, found: FileInfo, response: Response)
    requires post.Post?
  {
    var length := if found.sizeIsDeferred then None else Some(found.size);
    match response
    case HeadV1(_, told, partial, final) =>
      && (partial <==> AsksForPartial(cfg, post))
      && final == (if IsFinalPost(cfg, post) then Some(Parts(cfg, post)) else None)
      && told == length && (!IsFinalPost(cfg, post) && Length(post).Some? ==> told == Length(post))
    case HeadDraft(_, told, _) =>
      told == length && (!IsFinalPost(cfg, post) && Length(post).Some? ==> told == Length(post))
    case _ => response.Err?
  }

  /**
   In every reachable state, each HEAD of an upload that a POST has answered success for tells what
   that POST asked for: partial if and only if its header was "partial" and the server concatenates,
   the parts of a final one, and the length that it stated; a length is missing if and only if it was
   still deferred when the HEAD got the upload.
   */
  lemma HeadTellsCreation(cfg: Config, sys: System, q: nat, r: nat)
    requires Reachable(cfg, sys) && q < |sys.procs| && r < |sys.procs| && sys.procs[q].req.id == sys.procs[r].req.id
    requires sys.procs[q].req.Post? && sys.procs[q].pc.Done? && sys.procs[q].pc.response.Created?
    requires sys.procs[r].req.Head? && sys.procs[r].pc.Done?
    ensures TellsAsked(cfg, sys.procs[q].req, InfoOf(sys.procs[r].base), sys.procs[r].pc.response)
  {
    hide Run, Inv, Ordered, Found, Settled, At, Tracks, Prepare, Handle, AsAsked, IsFinalPost, SlotAsAsked, TellsAsked;
    var start: System, evs: seq<Event> :| Initial(start) && sys == Run(cfg, start, evs);
    RunAsked(cfg, start, evs);
    RunSerial(cfg, start, evs);
    var p, h := sys.procs[q], sys.procs[r];
    assert OnTrack(cfg, p, At(sys.slots, p.req.id), q in sys.order);
    assert OnTrack(cfg, h, At(sys.slots, h.req.id), r in sys.order);
    if r in sys.order {
      assert FoundAsAsked(cfg, p, h);
    }
    FormOfFinal(cfg, h.req);
    HeadTells(cfg, p.req, h);
  }

  lemma HeadTells(cfg: Config, post: Request, h: Proc)
    requires post.Post? && h.req.Head? && h.pc.Done?
    requires h.base.upload.Some? && !h.pc.response.Err? ==> AsAsked(cfg, post, h.base.upload.value.info)
    requires h.pc.response.Err? || (!IsFinalPost(cfg, h.req)
             && h.pc.response == Handle(cfg, h.req, h.env, h.plan, h.base).response)
    ensures TellsAsked(cfg, post, InfoOf(h.base), h.pc.response)
  {
    hide IsFinalPost, CreationOf, AsksForPartial, Length, Parts;
  }
}
