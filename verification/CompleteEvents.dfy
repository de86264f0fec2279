/**
 How many complete events a final upload has, in every run: its POST sends one when the parts are
 joined, and a second one from finishUploadIfComplete when the upload is empty.
 */
module CompleteEvents {
  import opened Prelude
  import opened BodyReaders
  import opened Lifecycle
  import opened Finals
  import opened Steps
  import opened Invariants
  import opened Safety
  import opened Serial
  import Concat

  /** The upload of a final POST that has answered success, or is about to. */
  predicate Delivered(cfg: Config, s: Slot) {
    && s.upload.Some? && s.creator == Some(V1Final) && s.completes == EventsOf(cfg, s.upload.value.info.size)
  }

  /** What a final POST has sent so far. */
  predicate Sent(cfg: Config, pc: Pc, s: Slot) {
    match pc
    case Finishing(info, caller) => Empty(s) && s.completes == (if cfg.notifyCompleteUploads then 1 else 0)
                                    && Complete(info)
    case Emitting(info, caller) => Empty(s) && s.completes == (if cfg.notifyCompleteUploads then 1 else 0)
    case Leaving(response) => response.Created? ==> Delivered(cfg, s)
    case _ => true
  }

  predicate Empty(s: Slot) {
    s.upload.Some? && s.upload.value.info.size == 0
  }

  /** Nobody changes the upload of a POST that has succeeded, except by removing it. */
  predicate Kept(cfg: Config, p: Proc, s: Slot) {
    p.pc.Done? && p.pc.response.Created? ==>
      Delivered(cfg, p.base) && s.creator == Some(V1Final) && (s.upload.Some? ==> s == p.base)
  }

  ghost predicate EventsInv(cfg: Config, sys: System) {
    forall r :: 0 <= r < |sys.procs| && IsFinalPost(cfg, sys.procs[r].req) ==>
      && (Owns(sys.procs[r].pc) ==> Sent(cfg, sys.procs[r].pc, At(sys.slots, sys.procs[r].req.id)))
      && Kept(cfg, sys.procs[r], At(sys.slots, sys.procs[r].req.id))
      && (sys.procs[r].pc.Done? && sys.procs[r].pc.response.Created? ==> Published(cfg, sys, sys.procs[r].req.id))
  }

  lemma MicroSends(cfg: Config, p: Proc, s: Slot)
    requires IsFinalPost(cfg, p.req) && Owns(p.pc) && !p.pc.Joining? && !p.pc.Leaving?
    requires Sound(cfg, p, s) && Sent(cfg, p.pc, s)
    ensures var l := Micro(cfg, p.req, p.env, p.pc, s); Sent(cfg, l.pc, l.slot)
  {
    hide InWrite, CreationOf, IsFinalPost, TooLong, BodyCap, HeadResponse, WriteRun, Begun, HasError;
    Concat.FinalMicro(cfg, p, s);
    FormOfFinal(cfg, p.req);
  }

  lemma StepSends(cfg: Config, sys: System, r: nat)
    requires Inv(cfg, sys) && EventsInv(cfg, sys) && r < |sys.procs| && IsFinalPost(cfg, sys.procs[r].req)
    ensures var m := NextStep(cfg, sys, r);
            m.Move? ==> (Owns(m.proc.pc) ==> Sent(cfg, m.proc.pc, m.slot)) && Kept(cfg, m.proc, m.slot)
  {
    hide Exclusive, RegistryAgrees, SlotOk, Micro, IsFinalPost, CreationOf, Refusal, Parts, At, NewUpload, Complete,
         Appended, Delivered;
    var p := sys.procs[r];
    assert ProcOk(cfg, p, At(sys.slots, p.req.id));
    FormOfFinal(cfg, p.req);
    if Owns(p.pc) {
      MicroKeepsHold(cfg, p.req, p.env, p.pc, At(sys.slots, p.req.id));
      if !p.pc.Joining? && !p.pc.Leaving? { MicroSends(cfg, p, At(sys.slots, p.req.id)); }
    }
  }

  /** A request that returns gives its ID back. */
  lemma ReturnsPublish(cfg: Config, sys: System, m: Move)
    requires Inv(cfg, sys) && m.Move? && Fits(sys, m) && IsFinalPost(cfg, m.proc.req)
    requires Kept(cfg, m.proc, m.slot) && (!Owns(sys.procs[m.r].pc) && m.proc.pc.Done? ==> m.proc.pc.response.Err?)
    ensures var now := Apply(sys, m.r, m.proc, m.slot);
            m.proc.pc.Done? && m.proc.pc.response.Created? ==> Published(cfg, now, m.proc.req.id)
  {
    hide IsFinalPost, At, Registered, Delivered, SlotOk, ProcOk, RegistryAgrees;
    AtAfter(sys.slots, m.proc.req.id, m.slot, m.proc.req.id);
  }

  lemma EventSends(cfg: Config, sys: System, ev: Event)
    requires SerialInv(cfg, sys) && EventsInv(cfg, sys)
    ensures var m := MoveOf(cfg, sys, ev);
            m.Move? && m.r < |sys.procs| && IsFinalPost(cfg, sys.procs[m.r].req) ==>
              && (Owns(m.proc.pc) ==> Sent(cfg, m.proc.pc, m.slot)) && Kept(cfg, m.proc, m.slot)
              && (!Owns(sys.procs[m.r].pc) && m.proc.pc.Done? ==> m.proc.pc.response.Err?)
  {
    hide Inv, Ordered, Found, Settled, OnTrack, EventsInv, NextStep, Stored, WriteStep, At, IsFinalPost, Tracks, Handle,
         Prepare, Effect, Delivered;
    var m := MoveOf(cfg, sys, ev);
    if m.Move? && m.r < |sys.procs| && IsFinalPost(cfg, sys.procs[m.r].req) {
      EventMovesOn(cfg, sys, ev);
      if ev.Step? {
        StepsItself(cfg, sys, ev.r);
        StepSends(cfg, sys, ev.r);
      }
    }
  }

  lemma NextEvents(cfg: Config, sys: System, ev: Event)
    requires SerialInv(cfg, sys) && EventsInv(cfg, sys)
    ensures EventsInv(cfg, Next(cfg, sys, ev))
  {
    hide Inv, Ordered, Found, Settled, OnTrack, MoveOf, At, IsFinalPost, Published, Owns, Registered, Sent, Delivered;
    var m := MoveOf(cfg, sys, ev);
    MovesFit(cfg, sys, ev);
    if m.Move? {
      EventSends(cfg, sys, ev);
      DoneOwnsNothing(m.proc.pc);
      var now := Next(cfg, sys, ev);
      forall r | 0 <= r < |now.procs| && IsFinalPost(cfg, now.procs[r].req)
        ensures Owns(now.procs[r].pc) ==> Sent(cfg, now.procs[r].pc, At(now.slots, now.procs[r].req.id))
        ensures Kept(cfg, now.procs[r], At(now.slots, now.procs[r].req.id))
        ensures now.procs[r].pc.Done? && now.procs[r].pc.response.Created? ==>
                  Published(cfg, now, now.procs[r].req.id)
      {
        AtAfter(sys.slots, m.proc.req.id, m.slot, now.procs[r].req.id);
        if r == m.r {
          ReturnsPublish(cfg, sys, m);
        } else {
          OtherSent(cfg, sys, ev, r);
        }
      }
    }
  }

  lemma OtherSent(cfg: Config, sys: System, ev: Event, r: nat)
    requires Inv(cfg, sys) && EventsInv(cfg, sys) && r < |sys.procs| && IsFinalPost(cfg, sys.procs[r].req)
    requires var m := MoveOf(cfg, sys, ev); m.Move? && Fits(sys, m) && m.r != r
    ensures var p := sys.procs[r];
            var now := Next(cfg, sys, ev);
            && (Owns(p.pc) ==> Sent(cfg, p.pc, At(now.slots, p.req.id))) && Kept(cfg, p, At(now.slots, p.req.id))
            && (p.pc.Done? && p.pc.response.Created? ==> Published(cfg, now, p.req.id))
  {
    hide RegistryAgrees, SlotOk, ProcOk, MoveOf, At, IsFinalPost, Registered, Sent, Delivered;
    var p := sys.procs[r];
    var m := MoveOf(cfg, sys, ev);
    AtAfter(sys.slots, m.proc.req.id, m.slot, p.req.id);
    if p.pc.Done? && p.pc.response.Created? {
      NextPublished(cfg, sys, ev, p.req.id);
    } else if Owns(p.pc) && m.proc.req.id == p.req.id {
      assert sys.owner[p.req.id] == r;
    }
  }

  lemma {:induction false} RunEvents(cfg: Config, start: System, evs: seq<Event>)
    requires Initial(start)
    ensures EventsInv(cfg, Run(cfg, start, evs))
  {
    hide Next, SerialInv, EventsInv, IsFinalPost;
    if evs == [] {
      NoEventsYet(cfg, start);
    } else {
      var front := evs[..|evs| - 1];
      RunEvents(cfg, start, front);
      RunSerial(cfg, start, front);
      NextEvents(cfg, Run(cfg, start, front), evs[|evs| - 1]);
    }
  }

  lemma NoEventsYet(cfg: Config, start: System)
    requires Initial(start)
    ensures EventsInv(cfg, start)
  {
    hide IsFinalPost;
  }

  /**
   In every reachable state, whatever came between its steps, a final POST that has answered
   success left an upload with two complete events if and only if events are on and the upload is
   empty; and so the upload still is, as long as it is there.
   */
  lemma FinalCompletes(cfg: Config, sys: System, r: nat)
    requires Reachable(cfg, sys) && r < |sys.procs| && IsFinalPost(cfg, sys.procs[r].req)
    requires sys.procs[r].pc.Done? && sys.procs[r].pc.response.Created?
    ensures var t := sys.procs[r].base;
            var s := At(sys.slots, sys.procs[r].req.id);
            && t.upload.Some? && t.completes == EventsOf(cfg, t.upload.value.info.size)
            && (t.completes == 2 <==> cfg.notifyCompleteUploads && t.upload.value.info.size == 0)
            && (s.upload.Some? ==> s == t)
  {
    hide Run, IsFinalPost, At;
    var start: System, evs: seq<Event> :| Initial(start) && sys == Run(cfg, start, evs);
    RunEvents(cfg, start, evs);
  }
}
