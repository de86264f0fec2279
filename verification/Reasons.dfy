/**
 Why an upload is gone: in every run one that was made is there until a DELETE has answered
 success or a stopped request has removed it.  Broken connections and failing stores remove nothing.
 */
module Reasons {
  import opened Prelude
  import opened BodyReaders
  import opened Lifecycle
  import opened Confluence
  import opened Steps
  import opened Invariants
  import opened Safety
  import opened Serial
  import opened Consequences
  import Concat

  /** A DELETE that has succeeded, or is about to answer so. */
  predicate Deletes(p: Proc) {
    p.req.Delete? && (p.pc == Leaving(Deleted) || p.pc == Done(Deleted))
  }

  predicate Removal(cfg: Config, p: Proc) {
    Deletes(p) || (!IsFinalPost(cfg, p.req) && Removes(cfg, p.env, p.plan))
  }

  /** What is known of a request that is about to remove its upload. */
  predicate AboutTo(cfg: Config, p: Proc) {
    && (p.pc.Deleting? ==> p.req.Delete?)
    && (p.pc.Stopping? ==> !IsFinalPost(cfg, p.req) && Stop in p.plan && cfg.usesTerminater)
  }

  ghost predicate GoneFor(cfg: Config, sys: System, id: ID, r: nat) {
    r < |sys.procs| && sys.procs[r].req.id == id && Removal(cfg, sys.procs[r])
  }

  ghost predicate ReasonInv(cfg: Config, sys: System) {
    && (forall r :: 0 <= r < |sys.procs| ==> AboutTo(cfg, sys.procs[r]))
    && (forall id: ID :: At(sys.slots, id).creator.Some? && At(sys.slots, id).upload.None? ==>
          exists r :: GoneFor(cfg, sys, id, r))
  }

  /** A step of a request that has its ID. */
  lemma MicroReason(cfg: Config, p: Proc, s: Slot)
    requires Owns(p.pc) && !p.pc.Writing? && !p.pc.Joining? && !p.pc.Leaving?
    requires Sound(cfg, p, s) && AboutTo(cfg, p) && (!IsFinalPost(cfg, p.req) ==> Tracks(cfg, p, s))
    ensures var l := Micro(cfg, p.req, p.env, p.pc, s);
            var q := p.(pc := l.pc);
            AboutTo(cfg, q) && (s.upload.Some? && l.slot.upload.None? ==> Removal(cfg, q))
  {
    hide InWrite, CreationOf, IsFinalPost, TooLong, BodyCap, HeadResponse, WriteRun, Prepare, Handle, HasError, Before,
         After;
    if p.pc.Wrote? {
      if IsFinalPost(cfg, p.req) {
        Concat.FinalMicro(cfg, p, s);
      } else {
        WroteStopped(cfg, p, s);
      }
    }
  }

  lemma WroteStopped(cfg: Config, p: Proc, s: Slot)
    requires p.pc.Wrote? && !IsFinalPost(cfg, p.req) && Tracks(cfg, p, s)
    ensures HasError(p.pc.w.reader) == Some(ErrUploadStopped) <==> Stop in p.plan
  {
    hide Prepare, WriteRun, IsFinalPost, Before, After, Handle, HasError, BodyCap;
    var body := if (p.req.Patch? || p.req.Post?) && p.req.body.Some? then p.req.body.value else [];
    var length: int64 := if p.req.Patch? || p.req.Post? then p.req.length else 0;
    StoppedIff(NewReader(body, BodyCap(cfg, p.pc.info, length)), p.plan);
  }

  lemma StepReason(cfg: Config, sys: System, r: nat)
    requires SerialInv(cfg, sys) && ReasonInv(cfg, sys) && r < |sys.procs|
    ensures var m := NextStep(cfg, sys, r);
            m.Move? ==>
              && AboutTo(cfg, m.proc) && (Removal(cfg, sys.procs[r]) ==> Removal(cfg, m.proc))
              && (At(sys.slots, sys.procs[r].req.id).upload.Some? && m.slot.upload.None? ==> Removal(cfg, m.proc))
  {
    hide Inv, Ordered, Found, Settled, OnTrack, NextStep, AboutTo, Removal, At, Tracks, Sound, IsFinalPost;
    var p := sys.procs[r];
    var s := At(sys.slots, p.req.id);
    WhereItIs(cfg, sys, r);
    assert AboutTo(cfg, p);
    if Owns(p.pc) && !p.pc.Writing? && !p.pc.Joining? && !p.pc.Leaving? {
      MicroReason(cfg, p, s);
      MicroStep(cfg, sys, r);
    } else {
      OtherReason(cfg, sys, r);
    }
  }

  lemma WhereItIs(cfg: Config, sys: System, r: nat)
    requires SerialInv(cfg, sys) && r < |sys.procs|
    ensures Owns(sys.procs[r].pc) ==> Sound(cfg, sys.procs[r], At(sys.slots, sys.procs[r].req.id))
    ensures Owns(sys.procs[r].pc) && !IsFinalPost(cfg, sys.procs[r].req) ==>
              Tracks(cfg, sys.procs[r], At(sys.slots, sys.procs[r].req.id))
  {
    hide Exclusive, RegistryAgrees, SlotOk, Ordered, Found, Settled, Sound, Tracks, At, IsFinalPost;
    assert ProcOk(cfg, sys.procs[r], At(sys.slots, sys.procs[r].req.id));
    assert OnTrack(cfg, sys.procs[r], At(sys.slots, sys.procs[r].req.id), r in sys.order);
  }

  lemma MicroStep(cfg: Config, sys: System, r: nat)
    requires r < |sys.procs|
    requires var pc := sys.procs[r].pc; Owns(pc) && !pc.Writing? && !pc.Joining? && !pc.Leaving?
    ensures var p := sys.procs[r];
            var l := Micro(cfg, p.req, p.env, p.pc, At(sys.slots, p.req.id));
            NextStep(cfg, sys, r) == Move(r, p.(pc := l.pc), l.slot)
    ensures AboutTo(cfg, sys.procs[r]) && Removal(cfg, sys.procs[r]) ==>
              Removal(cfg, NextStep(cfg, sys, r).proc)
  {
    hide Micro, At, IsFinalPost;
  }

  lemma OtherReason(cfg: Config, sys: System, r: nat)
    requires r < |sys.procs| && AboutTo(cfg, sys.procs[r])
    requires var pc := sys.procs[r].pc; !Owns(pc) || pc.Writing? || pc.Joining? || pc.Leaving?
    ensures var m := NextStep(cfg, sys, r);
            m.Move? ==>
              && AboutTo(cfg, m.proc) && (Removal(cfg, sys.procs[r]) ==> Removal(cfg, m.proc))
              && (At(sys.slots, sys.procs[r].req.id).upload.Some? && m.slot.upload.None? ==> Removal(cfg, m.proc))
  {
    hide Micro, At, IsFinalPost, Parts, TooBig, Complete, FinalInfo, CreationOf, Refusal;
  }

  lemma EventReason(cfg: Config, sys: System, ev: Event)
    requires SerialInv(cfg, sys) && ReasonInv(cfg, sys)
    ensures var m := MoveOf(cfg, sys, ev);
            m.Move? && m.r < |sys.procs| ==>
              && AboutTo(cfg, m.proc) && (Removal(cfg, sys.procs[m.r]) ==> Removal(cfg, m.proc))
              && (At(sys.slots, sys.procs[m.r].req.id).upload.Some? && m.slot.upload.None? ==> Removal(cfg, m.proc))
  {
    hide SerialInv, NextStep, WriteStep, WriteAt, At, IsFinalPost;
    var m := MoveOf(cfg, sys, ev);
    if m.Move? && m.r < |sys.procs| && ev.Step? {
      StepsItself(cfg, sys, ev.r);
      StepReason(cfg, sys, ev.r);
    }
  }

  lemma NextReason(cfg: Config, sys: System, ev: Event)
    requires SerialInv(cfg, sys) && ReasonInv(cfg, sys)
    ensures ReasonInv(cfg, Next(cfg, sys, ev))
  {
    hide Ordered, Found, Settled, OnTrack, MoveOf, At, AboutTo, Removal, Owns, Registered, SlotOk, ProcOk, Exclusive,
         RegistryAgrees, Forward;
    var m := MoveOf(cfg, sys, ev);
    var now := Next(cfg, sys, ev);
    MovesFit(cfg, sys, ev);
    if m.Move? {
      EventReason(cfg, sys, ev);
      forall id: ID | At(now.slots, id).creator.Some? && At(now.slots, id).upload.None?
        ensures exists r :: GoneFor(cfg, now, id, r)
      {
        AtAfter(sys.slots, m.proc.req.id, m.slot, id);
        if At(sys.slots, id).creator.Some? && At(sys.slots, id).upload.None? {
          var r :| GoneFor(cfg, sys, id, r);
          assert GoneFor(cfg, now, id, r);
        } else if At(sys.slots, id).upload.Some? {
          assert GoneFor(cfg, now, id, m.r);
        } else {
          Unmade(cfg, sys, ev);
        }
      }
    }
  }

  /** A slot that is used from now on has an upload. */
  lemma Unmade(cfg: Config, sys: System, ev: Event)
    requires Inv(cfg, sys)
    ensures var m := MoveOf(cfg, sys, ev);
            m.Move? && m.r < |sys.procs| && At(sys.slots, sys.procs[m.r].req.id).creator.None? && m.slot.creator.Some?
            ==> m.slot.upload.Some?
  {
    hide Exclusive, RegistryAgrees, At, NextStep, WriteAt, WriteStep, IsFinalPost, Sound, Outside, SlotOk;
    var m := MoveOf(cfg, sys, ev);
    if m.Move? && m.r < |sys.procs| && ev.Step? {
      StepsItself(cfg, sys, ev.r);
      UnmadeStep(cfg, sys, ev.r);
    }
  }

  lemma UnmadeStep(cfg: Config, sys: System, r: nat)
    requires r < |sys.procs|
    ensures var m := NextStep(cfg, sys, r);
            m.Move? && At(sys.slots, sys.procs[r].req.id).creator.None? && m.slot.creator.Some? ==> m.slot.upload.Some?
  {
    hide At, IsFinalPost, Refusal, CreationOf, Parts, TooBig, Complete, FinalInfo, HeadResponse, WriteAt, WriteError;
  }

  lemma {:induction false} RunReason(cfg: Config, start: System, evs: seq<Event>)
    requires Initial(start)
    ensures ReasonInv(cfg, Run(cfg, start, evs))
  {
    hide Next, SerialInv, ReasonInv;
    if evs == [] {
      NoReasonYet(cfg, start);
    } else {
      var front := evs[..|evs| - 1];
      RunReason(cfg, start, front);
      RunSerial(cfg, start, front);
      NextReason(cfg, Run(cfg, start, front), evs[|evs| - 1]);
    }
  }

  lemma NoReasonYet(cfg: Config, start: System)
    requires Initial(start)
    ensures ReasonInv(cfg, start)
  {}

  /** A request that has answered and after which the upload is gone. */
  ghost predicate GoneAfter(cfg: Config, sys: System, id: ID, r: nat) {
    && r < |sys.procs| && sys.procs[r].req.id == id && sys.procs[r].pc.Done?
    && ((sys.procs[r].req.Delete? && sys.procs[r].pc.response == Deleted)
        || (!IsFinalPost(cfg, sys.procs[r].req) && Removes(cfg, sys.procs[r].env, sys.procs[r].plan)))
  }

  /**
   In every reachable state an upload that was made, and that nobody has, is gone if and only if a
   DELETE for it has answered success or a request for it was stopped in its transfer and the server
   could terminate: nothing that happens to a body, a store or a callback removes it.
   */
  lemma GoneIffRemoved(cfg: Config, sys: System, id: ID)
    requires Reachable(cfg, sys) && id !in sys.owner && At(sys.slots, id).creator.Some?
    ensures At(sys.slots, id).upload.None? <==> exists r :: GoneAfter(cfg, sys, id, r)
  {
    hide Run, Inv, At, SerialInv, PastInv, ReasonInv, Removal, IsFinalPost, Removes;
    var start: System, evs: seq<Event> :| Initial(start) && sys == Run(cfg, start, evs);
    RunReason(cfg, start, evs);
    RunSerial(cfg, start, evs);
    if At(sys.slots, id).upload.None? {
      ReasonOf(cfg, sys, id);
    } else if exists r :: GoneAfter(cfg, sys, id, r) {
      var r :| GoneAfter(cfg, sys, id, r);
      RemovalHolds(cfg, sys, r);
    }
  }

  lemma ReasonOf(cfg: Config, sys: System, id: ID)
    requires SerialInv(cfg, sys) && ReasonInv(cfg, sys) && id !in sys.owner
    requires At(sys.slots, id).creator.Some? && At(sys.slots, id).upload.None?
    ensures exists r :: GoneAfter(cfg, sys, id, r)
  {
    hide RegistryAgrees, SlotOk, Ordered, Found, Settled, OnTrack, Sound, At, IsFinalPost, AboutTo;
    var r: nat :| r < |sys.procs| && GoneFor(cfg, sys, id, r);
    assert ProcOk(cfg, sys.procs[r], At(sys.slots, sys.procs[r].req.id));
    assert !Owns(sys.procs[r].pc);
    OutsideHasNoPlan(cfg, sys.procs[r]);
    assert GoneAfter(cfg, sys, id, r);
  }

  lemma OutsideHasNoPlan(cfg: Config, p: Proc)
    requires !Owns(p.pc) && Outside(cfg, p)
    ensures p.pc.Done? || p.plan == []
  {
    hide IsFinalPost;
  }

  lemma RemovalHolds(cfg: Config, sys: System, r: nat)
    requires Reachable(cfg, sys) && r < |sys.procs| && GoneAfter(cfg, sys, sys.procs[r].req.id, r)
    ensures At(sys.slots, sys.procs[r].req.id).upload.None?
  {
    hide Reachable, At, IsFinalPost, Inv, Ordered, Found, Settled, Tracks, SlotOk, BasesBeyond, Handle, Prepare, Beyond;
    var p := sys.procs[r];
    if !p.req.Delete? {
      StoppedRequestsFail(cfg, sys, r);
    } else {
      DeleteIsPlain(cfg, p.req);
      ReachableSerial(cfg, sys);
      ReachablePast(cfg, sys);
      assert OnTrack(cfg, p, At(sys.slots, p.req.id), r in sys.order);
      if Removes(cfg, p.env, p.plan) {
        StoppedRequestsFail(cfg, sys, r);
      } else {
        var k :| 0 <= k < |sys.order| && sys.order[k] == r;
        assert Beyond(cfg, p, At(sys.slots, p.req.id)) && SlotOk(cfg, p.base);
        DeleteEnds(cfg, p, At(sys.slots, p.req.id));
      }
    }
  }

  lemma DeleteIsPlain(cfg: Config, req: Request)
    ensures req.Delete? ==> !IsFinalPost(cfg, req)
  {}

  lemma DeleteEnds(cfg: Config, p: Proc, s: Slot)
    requires p.req.Delete? && SlotOk(cfg, p.base) && Beyond(cfg, p, s)
    requires Handle(cfg, p.req, p.env, p.plan, p.base).response == Deleted
    ensures s.upload.None?
  {
    hide CreationOf, UploadOk, Added;
  }
}
