/**
 Results about all runs from an empty store that follow from the invariants: forward-only
 lifecycles, final uploads and the stop registry.
 */
module Safety {
  import opened Prelude
  import opened BodyReaders
  import opened Lifecycle
  import opened Steps
  import opened Invariants

  lemma InitialInv(cfg: Config, sys: System)
    requires Initial(sys)
    ensures Inv(cfg, sys)
  {}

  /** Runs keep the invariant and move every slot forward. */
  lemma {:induction false} RunInv(cfg: Config, sys: System, evs: seq<Event>)
    requires Inv(cfg, sys)
    ensures Inv(cfg, Run(cfg, sys, evs))
    ensures forall id: ID :: Forward(At(sys.slots, id), At(Run(cfg, sys, evs).slots, id))
    ensures |Run(cfg, sys, evs).procs| == |sys.procs|
  {
    hide Forward, SlotOk, Next;
    if evs == [] {
      forall id: ID
        ensures Forward(At(sys.slots, id), At(sys.slots, id))
      {
        ForwardReflexive(At(sys.slots, id));
      }
    } else {
      var mid := Run(cfg, sys, evs[..|evs| - 1]);
      RunInv(cfg, sys, evs[..|evs| - 1]);
      NextInv(cfg, mid, evs[|evs| - 1]);
      NextKeepsProcs(cfg, mid, evs[|evs| - 1]);
      forall id: ID
        ensures Forward(At(sys.slots, id), At(Run(cfg, sys, evs).slots, id))
      {
        assert SlotOk(cfg, At(sys.slots, id)) by { assert Inv(cfg, sys); }
        ForwardChain(cfg, At(sys.slots, id), At(mid.slots, id), At(Run(cfg, sys, evs).slots, id));
      }
    }
  }

  lemma ForwardChain(cfg: Config, s: Slot, t: Slot, u: Slot)
    requires SlotOk(cfg, s) && Forward(s, t) && Forward(t, u)
    ensures Forward(s, u)
  {
    ForwardTransitive(s, t, u);
  }

  lemma NextKeepsProcs(cfg: Config, sys: System, ev: Event)
    ensures |Next(cfg, sys, ev).procs| == |sys.procs|
    ensures forall r :: 0 <= r < |sys.procs| ==>
              var now := Next(cfg, sys, ev).procs[r];
              now.req == sys.procs[r].req && now.env == sys.procs[r].env
  {
    hide MoveOf;
    MovesFit(cfg, sys, ev);
  }

  // ------------------------------------------------------------------ forward only

  /** Some run that starts with an empty store gets to this state. */
  ghost predicate Reachable(cfg: Config, sys: System) {
    exists start: System, evs: seq<Event> :: Initial(start) && sys == Run(cfg, start, evs)
  }

  lemma ReachableInv(cfg: Config, sys: System)
    requires Reachable(cfg, sys)
    ensures Inv(cfg, sys)
  {
    hide Run, Inv;
    var start: System, evs: seq<Event> :| Initial(start) && sys == Run(cfg, start, evs);
    InitialInv(cfg, start);
    RunInv(cfg, start, evs);
  }

  /**
   Between a reachable state and any later one: nothing stored is lost, and the length is
   declared once and then fixed.
   */
  lemma ForwardOnly(cfg: Config, sys: System, evs: seq<Event>, id: ID)
    requires Reachable(cfg, sys)
    ensures var s, t := At(sys.slots, id), At(Run(cfg, sys, evs).slots, id);
            s.upload.Some? && t.upload.Some? ==>
              var u, v := s.upload.value, t.upload.value;
              && u.data <= v.data && u.info.offset <= v.info.offset
              && (!u.info.sizeIsDeferred ==> !v.info.sizeIsDeferred && v.info.size == u.info.size)
  {
    hide Run, Inv, Reachable;
    ReachableInv(cfg, sys);
    RunInv(cfg, sys, evs);
    assert Forward(At(sys.slots, id), At(Run(cfg, sys, evs).slots, id));
  }

  /** The POST that created a final upload has returned. */
  ghost predicate Published(cfg: Config, sys: System, id: ID) {
    && At(sys.slots, id).creator == Some(V1Final)
    && (id in sys.owner ==> sys.owner[id] < |sys.procs| && !IsFinalPost(cfg, sys.procs[sys.owner[id]].req))
  }

  lemma NextPublished(cfg: Config, sys: System, ev: Event, id: ID)
    requires Inv(cfg, sys) && Published(cfg, sys, id)
    ensures Published(cfg, Next(cfg, sys, ev), id)
    ensures var s, t := At(sys.slots, id), At(Next(cfg, sys, ev).slots, id); t.upload.Some? ==> t == s
  {
    hide SlotOk, MoveOf, Owns, Registered, ProcOk, CreationOf, RegistryAgrees;
    var m := MoveOf(cfg, sys, ev);
    MovesFit(cfg, sys, ev);
    EventOk(cfg, sys, ev);
    if m.Move? && sys.procs[m.r].req.id == id && !Owns(sys.procs[m.r].pc) && Owns(m.proc.pc) {
      NoSecondCreation(cfg, sys, m);
    }
    if m.Move? && sys.procs[m.r].req.id == id && Owns(sys.procs[m.r].pc) {
      assert sys.owner[id] == m.r;
    }
  }

  /** A POST only gets an ID that was never used. */
  lemma NoSecondCreation(cfg: Config, sys: System, m: Move)
    requires Inv(cfg, sys) && Fits(sys, m)
    ensures m.Move? && !Owns(sys.procs[m.r].pc) && Owns(m.proc.pc) && sys.procs[m.r].req.Post?
            ==> At(sys.slots, sys.procs[m.r].req.id).creator.None?
  {
    hide SlotOk, RegistryAgrees, Exclusive, Sound;
    if m.Move? {
      var p := sys.procs[m.r];
      assert ProcOk(cfg, p, At(sys.slots, p.req.id));
    }
  }

  /**
   Once its POST has returned, nothing but its termination changes a final upload, even one whose concatenation
   failed.
   */
  lemma {:induction false} FinalIsFrozen(cfg: Config, sys: System, evs: seq<Event>, id: ID)
    requires Inv(cfg, sys) && Published(cfg, sys, id)
    ensures Published(cfg, Run(cfg, sys, evs), id)
    ensures var s, t := At(sys.slots, id), At(Run(cfg, sys, evs).slots, id); t.upload.Some? ==> t == s
  {
    hide Next, Published, SlotOk, Forward;
    if evs != [] {
      var front := evs[..|evs| - 1];
      FinalIsFrozen(cfg, sys, front, id);
      RunInv(cfg, sys, front);
      NextPublished(cfg, Run(cfg, sys, front), evs[|evs| - 1], id);
    }
  }

  // ------------------------------------------------------------------ stopping

  /** The body reader of request r in a state, if it is inside WriteChunk or just out of it. */
  function ReaderOf(p: Proc): Option<Reader> {
    if p.pc.Writing? || p.pc.Wrote? then Some(p.pc.w.reader) else None
  }

  /**
   A stop callback is registered for an ID in a reachable state exactly while one request is between register
   and unregister for it.
   */
  lemma StopRegistry(cfg: Config, sys: System, id: ID)
    requires Reachable(cfg, sys)
    ensures id in sys.stops <==>
        exists r :: 0 <= r < |sys.procs| && sys.procs[r].req.id == id && Registered(sys.procs[r].pc)
    ensures id in sys.stops ==> forall r :: 0 <= r < |sys.procs| ==>
              (r == sys.stops[id] <==> sys.procs[r].req.id == id && Registered(sys.procs[r].pc))
  {
    hide Registered, SlotOk, ProcOk;
    ReachableInv(cfg, sys);
    assert RegistryAgrees(sys);
  }

  /**
   A trigger in a reachable state closes the reader of the one request that is registered for
   the ID, or nothing once that request has sampled its error, and never touches another.
   */
  lemma StopReachesItsReader(cfg: Config, sys: System, id: ID, r: nat)
    requires Reachable(cfg, sys)
    requires r < |sys.procs| && sys.procs[r].req.id == id && Registered(sys.procs[r].pc)
    ensures var now := Next(cfg, sys, Trigger(id));
            && |now.procs| == |sys.procs|
            && (forall q :: 0 <= q < |sys.procs| && q != r ==> now.procs[q] == sys.procs[q])
            && (ReaderOf(sys.procs[r]).Some? ==>
                  ReaderOf(now.procs[r]) == Some(AfterClose(ReaderOf(sys.procs[r]).value, ErrUploadStopped)))
            && (ReaderOf(sys.procs[r]).None? ==> now == sys)
  {
    hide SlotOk, ProcOk, Next, Registered;
    ReachableInv(cfg, sys);
    assert RegistryAgrees(sys);
    TriggerHits(cfg, sys, id, r);
  }

  lemma TriggerHits(cfg: Config, sys: System, id: ID, r: nat)
    requires id in sys.stops && sys.stops[id] == r && r < |sys.procs|
    ensures var now := Next(cfg, sys, Trigger(id));
            && |now.procs| == |sys.procs|
            && (forall q :: 0 <= q < |sys.procs| && q != r ==> now.procs[q] == sys.procs[q])
            && (ReaderOf(sys.procs[r]).Some? ==>
                  ReaderOf(now.procs[r]) == Some(AfterClose(ReaderOf(sys.procs[r]).value, ErrUploadStopped)))
            && (ReaderOf(sys.procs[r]).None? ==> now == sys)
  {
    hide Stored, Owns, Registered;
  }
}
