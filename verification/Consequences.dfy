/**
 What serializability and the invariants mean for clients: stopped writes fail, deleted uploads
 stay deleted, and only one of several PATCHes with the same offset adds bytes.
 */
module Consequences {
  import opened Prelude
  import opened BodyReaders
  import opened Lifecycle
  import opened Steps
  import opened Invariants
  import opened Safety
  import opened Serial

  // ------------------------------------------------------------------ stopped writes

  /** A write that is stopped before hasError is sampled answers an error, and terminates the upload if it can. */
  lemma StopFails(cfg: Config, req: Request, env: Env, plan: seq<WriteEvent>, s: Slot)
    requires !IsFinalPost(cfg, req) && Prepare(cfg, req, env, s).Writes? && Stop in plan
    ensures Handle(cfg, req, env, plan, s).response.Err?
    ensures cfg.usesTerminater && env.terminate.None? ==> Handle(cfg, req, env, plan, s).slot.upload.None?
  {
    hide Prepare, Stored, WriteRun;
    var before := Prepare(cfg, req, env, s);
    StopSticks(Begun(cfg, req, before.info), plan);
  }

  // ------------------------------------------------------------------ termination

  /** The upload is gone, and whoever has its ID is about to find that out or to leave. */
  ghost predicate Dead(sys: System, id: ID) {
    && At(sys.slots, id).creator.Some? && At(sys.slots, id).upload.None?
    && (id in sys.owner ==>
          && sys.owner[id] < |sys.procs|
          && (sys.procs[sys.owner[id]].pc.Holding? || sys.procs[sys.owner[id]].pc.Leaving?))
  }

  /** A request that has not got its ID yet, or found nothing there. */
  predicate Doomed(pc: Pc) {
    (!Owns(pc) && !pc.Done?) || pc.Holding? || ((pc.Leaving? || pc.Done?) && pc.response.Err?)
  }

  /** A successful DELETE leaves its ID dead. */
  lemma DeleteKills(cfg: Config, sys: System, r: nat)
    requires Inv(cfg, sys) && r < |sys.procs| && sys.procs[r].pc.Deleting?
    ensures var now := Next(cfg, sys, Step(r));
            now.procs[r].pc == Leaving(Deleted) ==> Dead(now, sys.procs[r].req.id)
  {
    hide RegistryAgrees, UploadOk;
    assert sys.owner[sys.procs[r].req.id] == r;
    assert ProcOk(cfg, sys.procs[r], At(sys.slots, sys.procs[r].req.id))
        && SlotOk(cfg, At(sys.slots, sys.procs[r].req.id));
  }

  lemma NextDead(cfg: Config, sys: System, ev: Event, id: ID)
    requires Inv(cfg, sys) && Dead(sys, id)
    ensures var now := Next(cfg, sys, ev);
            && Dead(now, id) && At(now.slots, id) == At(sys.slots, id)
            && forall r :: 0 <= r < |sys.procs| && sys.procs[r].req.id == id && Doomed(sys.procs[r].pc) ==>
                 Doomed(now.procs[r].pc)
  {
    hide RegistryAgrees, SlotOk, MoveOf, Registered, Owns, Doomed, ProcOk;
    var m := MoveOf(cfg, sys, ev);
    MovesFit(cfg, sys, ev);
    if m.Move? && sys.procs[m.r].req.id == id {
      DeadMove(cfg, sys, ev);
    }
  }

  lemma DeadMove(cfg: Config, sys: System, ev: Event)
    requires Inv(cfg, sys)
    ensures var m := MoveOf(cfg, sys, ev);
            m.Move? && m.r < |sys.procs| && Dead(sys, sys.procs[m.r].req.id) ==>
              && m.slot == At(sys.slots, sys.procs[m.r].req.id)
              && (Owns(m.proc.pc) ==> m.proc.pc.Holding? || m.proc.pc.Leaving?)
              && (Doomed(sys.procs[m.r].pc) ==> Doomed(m.proc.pc))
  {
    hide RegistryAgrees, SlotOk, Stored, WriteStep, NextStep, ProcOk, Doomed;
    var m := MoveOf(cfg, sys, ev);
    if m.Move? && m.r < |sys.procs| && Dead(sys, sys.procs[m.r].req.id) {
      if ev.Step? {
        StepsItself(cfg, sys, ev.r);
        DeadStep(cfg, sys, ev.r);
      }
    }
  }

  lemma DeadStep(cfg: Config, sys: System, r: nat)
    requires Inv(cfg, sys) && r < |sys.procs| && Dead(sys, sys.procs[r].req.id)
    ensures var m := NextStep(cfg, sys, r);
            m.Move? ==>
              && m.slot == At(sys.slots, sys.procs[r].req.id)
              && (Owns(m.proc.pc) ==> m.proc.pc.Holding? || m.proc.pc.Leaving?)
              && (Doomed(sys.procs[r].pc) ==> Doomed(m.proc.pc))
  {
    hide RegistryAgrees, SlotOk, FromCreate, CreationOf, IsFinalPost, Parts, TooBig, Complete, FinalInfo, Refusal,
         EnterWrite, HeadResponse, Stored, NewUpload;
    var p := sys.procs[r];
    assert ProcOk(cfg, p, At(sys.slots, p.req.id));
    if Owns(p.pc) {
      assert sys.owner[p.req.id] == r;
    }
  }

  /**
   Termination is final.  From a state where an upload is gone, however the run goes on, its
   slot does not change at all (no bytes, no FinishUpload, no event), and every request that
   gets its ID from then on, waiting or yet to come, answers an error.
   */
  lemma {:induction false} TerminationIsFinal(cfg: Config, sys: System, evs: seq<Event>, id: ID)
    requires Inv(cfg, sys) && Dead(sys, id)
    ensures var now := Run(cfg, sys, evs);
            && Dead(now, id) && At(now.slots, id) == At(sys.slots, id)
            && |now.procs| == |sys.procs|
            && forall r :: 0 <= r < |sys.procs| && sys.procs[r].req.id == id && Doomed(sys.procs[r].pc) ==>
                 now.procs[r].req.id == id && Doomed(now.procs[r].pc)
  {
    hide Next, Dead, SlotOk, Forward, Doomed;
    if evs != [] {
      var front := evs[..|evs| - 1];
      TerminationIsFinal(cfg, sys, front, id);
      RunInv(cfg, sys, front);
      var mid := Run(cfg, sys, front);
      NextDead(cfg, mid, evs[|evs| - 1], id);
      NextKeepsProcs(cfg, mid, evs[|evs| - 1]);
    }
  }

  /**
   The same for a run: from the step of a DELETE that terminates an upload on, the ID's slot
   stays as it is, and every request that had not got the ID by then, if it ever answers,
   answers an error.
   */
  lemma DeletedForGood(cfg: Config, sys: System, r: nat, evs: seq<Event>)
    requires Reachable(cfg, sys) && r < |sys.procs| && sys.procs[r].pc.Deleting?
    requires Next(cfg, sys, Step(r)).procs[r].pc == Leaving(Deleted)
    ensures var id := sys.procs[r].req.id;
            var mid := Next(cfg, sys, Step(r));
            var now := Run(cfg, mid, evs);
            && At(now.slots, id) == At(mid.slots, id) && At(now.slots, id).upload.None?
            && |now.procs| == |mid.procs|
            && forall q :: 0 <= q < |mid.procs| && mid.procs[q].req.id == id && !mid.procs[q].pc.Done? ==>
                 !Owns(mid.procs[q].pc) && now.procs[q].pc.Done? ==> now.procs[q].pc.response.Err?
  {
    hide Next, Run, Inv, Owns, SlotOk, Forward, Reachable;
    ReachableInv(cfg, sys);
    DeleteKills(cfg, sys, r);
    NextInv(cfg, sys, Step(r));
    NextKeepsProcs(cfg, sys, Step(r));
    TerminationIsFinal(cfg, Next(cfg, sys, Step(r)), evs, sys.procs[r].req.id);
    forall q | 0 <= q < |sys.procs|
      ensures Owns(Next(cfg, sys, Step(r)).procs[q].pc) ==> !Next(cfg, sys, Step(r)).procs[q].pc.Done?
    {
      DoneOwnsNothing(Next(cfg, sys, Step(r)).procs[q].pc);
    }
  }

  // ------------------------------------------------------------------ one PATCH per offset

  /** The bytes a request has added to its upload. */
  function Added(cfg: Config, p: Proc): nat {
    if IsFinalPost(cfg, p.req) then 0
    else
      match Prepare(cfg, p.req, p.env, p.base)
      case Answered(_) => 0
      case Writes(_, info) => WriteRun(Begun(cfg, p.req, info), p.plan).kept
  }

  /** Handling p leaves its ID used, and without an upload. */
  predicate Ends(cfg: Config, p: Proc) {
    && !IsFinalPost(cfg, p.req)
    && var t := Handle(cfg, p.req, p.env, p.plan, p.base).slot;
    && t.creator.Some? && t.upload.None?
  }

  /** A slot that is beyond the bytes p has added, and has no upload if p ended it. */
  ghost predicate Beyond(cfg: Config, p: Proc, s: Slot) {
    && (Added(cfg, p) > 0 ==>
          && s.creator.Some?
          && (s.upload.Some? ==>
                s.upload.value.info.offset >= Prepare(cfg, p.req, p.env, p.base).info.offset + Added(cfg, p)))
    && (Ends(cfg, p) ==> s.creator.Some? && s.upload.None?)
  }

  lemma BeyondForward(cfg: Config, p: Proc, s: Slot, t: Slot)
    requires Beyond(cfg, p, s) && Forward(s, t)
    ensures Beyond(cfg, p, t)
  {
    hide Added, Prepare, Ends;
  }

  /** Handling a request leaves its slot beyond the bytes it added. */
  lemma HandleAdvances(cfg: Config, p: Proc)
    requires !IsFinalPost(cfg, p.req) && SlotOk(cfg, p.base)
    ensures Beyond(cfg, p, Handle(cfg, p.req, p.env, p.plan, p.base).slot)
  {
    hide Prepare, WriteAt, UploadOk;
    WritesIntoUpload(cfg, p.req, p.env, p.base);
  }

  lemma WritesIntoUpload(cfg: Config, req: Request, env: Env, s: Slot)
    requires !IsFinalPost(cfg, req) && SlotOk(cfg, s)
    ensures var b := Prepare(cfg, req, env, s); b.Writes? ==> b.slot.upload.Some? && b.slot.creator.Some?
    ensures var b := Prepare(cfg, req, env, s);
            b.Writes? && req.Patch? ==>
              s.upload.Some? && req.offset.Value? && req.offset.n == s.upload.value.info.offset == b.info.offset
  {
    hide CreationOf, UploadOk, TooLong;
  }

  /** A slot is beyond what every finished request under its ID has added. */
  ghost predicate SlotsBeyond(cfg: Config, sys: System) {
    forall k :: 0 <= k < |sys.order| && sys.order[k] < |sys.procs| && sys.procs[sys.order[k]].pc.Done? ==>
      Beyond(cfg, sys.procs[sys.order[k]], At(sys.slots, sys.procs[sys.order[k]].req.id))
  }

  /** Whoever comes later under an ID found it beyond what everyone before had added. */
  ghost predicate BasesBeyond(cfg: Config, sys: System) {
    forall i, j :: 0 <= i < j < |sys.order| && sys.order[i] < |sys.procs| && sys.order[j] < |sys.procs| ==>
      SameID(sys.procs[sys.order[i]], sys.procs[sys.order[j]]) ==>
        Beyond(cfg, sys.procs[sys.order[i]], sys.procs[sys.order[j]].base)
  }

  ghost predicate PastInv(cfg: Config, sys: System) {
    && (forall k :: 0 <= k < |sys.order| && sys.order[k] < |sys.procs| ==> SlotOk(cfg, sys.procs[sys.order[k]].base))
    && SlotsBeyond(cfg, sys) && BasesBeyond(cfg, sys)
  }

  predicate SameID(p: Proc, q: Proc) {
    p.req.id == q.req.id
  }

  /** The slot's own move: forward, and beyond what a finishing request has added. */
  lemma MoveBeyond(cfg: Config, sys: System, ev: Event)
    requires SerialInv(cfg, sys) && PastInv(cfg, sys)
    ensures var m := MoveOf(cfg, sys, ev);
            m.Move? && m.r < |sys.procs| ==>
              && Forward(At(sys.slots, sys.procs[m.r].req.id), m.slot)
              && SlotOk(cfg, m.slot)
              && (Owns(sys.procs[m.r].pc) && m.proc.pc.Done? ==>
                    SlotOk(cfg, m.proc.base) && Beyond(cfg, m.proc, m.slot))
  {
    hide Forward, MoveOf, ProcOk, Handle, Prepare, Tracks, Beyond, CreationOf, Found, Settled, OnTrack, SlotOk;
    var m := MoveOf(cfg, sys, ev);
    MovesFit(cfg, sys, ev);
    EventOk(cfg, sys, ev);
    EventMovesOn(cfg, sys, ev);
    if m.Move? && Owns(sys.procs[m.r].pc) && m.proc.pc.Done? {
      assert m.r in sys.order;
      assert SlotOk(cfg, sys.procs[m.r].base);
      assert SlotOk(cfg, At(sys.slots, sys.procs[m.r].req.id));
      if IsFinalPost(cfg, m.proc.req) {
        AddedByFinal(cfg, m.proc, m.slot);
      } else {
        HandleAdvances(cfg, m.proc);
      }
    }
  }

  lemma AddedByFinal(cfg: Config, p: Proc, s: Slot)
    requires IsFinalPost(cfg, p.req)
    ensures Beyond(cfg, p, s)
  {}

  /** What MoveBeyond says of a move. */
  ghost predicate Advances(cfg: Config, sys: System, m: Move)
    requires m.Move? && m.r < |sys.procs|
  {
    && Forward(At(sys.slots, sys.procs[m.r].req.id), m.slot)
    && (Owns(sys.procs[m.r].pc) && m.proc.pc.Done? ==> Beyond(cfg, m.proc, m.slot))
  }

  lemma SlotsStayBeyond(cfg: Config, sys: System, m: Move)
    requires Ordered(sys) && SlotsBeyond(cfg, sys) && m.Move? && Fits(sys, m) && Advances(cfg, sys, m)
    ensures SlotsBeyond(cfg, Apply(sys, m.r, m.proc, m.slot))
  {
    hide Beyond, Forward, Owns, Registered;
    DoneOwnsNothing(m.proc.pc);
    var now := Apply(sys, m.r, m.proc, m.slot);
    if !Owns(sys.procs[m.r].pc) { NotYetOrdered(sys, m); }
    forall k | 0 <= k < |now.order| && now.order[k] < |now.procs| && now.procs[now.order[k]].pc.Done?
      ensures Beyond(cfg, now.procs[now.order[k]], At(now.slots, now.procs[now.order[k]].req.id))
    {
      var p := now.procs[now.order[k]];
      if now.order[k] != m.r && p.req.id == m.proc.req.id {
        BeyondForward(cfg, p, At(sys.slots, p.req.id), m.slot);
      }
    }
  }

  lemma BasesStayBeyond(cfg: Config, sys: System, m: Move)
    requires Exclusive(sys) && Ordered(sys) && SlotsBeyond(cfg, sys) && BasesBeyond(cfg, sys) && m.Move? && Fits(sys, m)
    requires Owns(sys.procs[m.r].pc) && m.proc.pc.Done? ==> m.proc.base == m.slot || m.proc.base == sys.procs[m.r].base
    ensures BasesBeyond(cfg, Apply(sys, m.r, m.proc, m.slot))
  {
    hide Beyond, Forward, Owns, Registered;
    DoneOwnsNothing(sys.procs[m.r].pc);
    DoneOwnsNothing(m.proc.pc);
    var now := Apply(sys, m.r, m.proc, m.slot);
    OrderedKept(sys, m);
    if !Owns(sys.procs[m.r].pc) { NotYetOrdered(sys, m); }
    forall i, j | 0 <= i < j < |now.order| && now.order[i] < |now.procs| && now.order[j] < |now.procs|
                  && SameID(now.procs[now.order[i]], now.procs[now.order[j]])
      ensures Beyond(cfg, now.procs[now.order[i]], now.procs[now.order[j]].base)
    {
      var a, b := now.order[i], now.order[j];
      assert now.procs[a].pc.Done?;
      assert a != m.r;
      assert now.procs[a] == sys.procs[a] && sys.order[i] == a;
      if b == m.r {
        assert Beyond(cfg, sys.procs[a], At(sys.slots, sys.procs[a].req.id));
      }
    }
  }

  lemma NextPast(cfg: Config, sys: System, ev: Event)
    requires SerialInv(cfg, sys) && PastInv(cfg, sys)
    ensures PastInv(cfg, Next(cfg, sys, ev))
  {
    hide Forward, MoveOf, ProcOk, Handle, Prepare, Tracks, Beyond, CreationOf, Found, Settled, OnTrack, SlotOk, Owns,
         Registered,
         SlotsBeyond, BasesBeyond;
    var m := MoveOf(cfg, sys, ev);
    MovesFit(cfg, sys, ev);
    MoveBeyond(cfg, sys, ev);
    if m.Move? {
      LeavingBase(cfg, sys, ev);
      SlotsStayBeyond(cfg, sys, m);
      BasesStayBeyond(cfg, sys, m);
      assert SlotOk(cfg, At(sys.slots, sys.procs[m.r].req.id));
    }
  }

  lemma LeavingBase(cfg: Config, sys: System, ev: Event)
    ensures var m := MoveOf(cfg, sys, ev);
            m.Move? && m.r < |sys.procs| && Owns(sys.procs[m.r].pc) && m.proc.pc.Done? ==>
              m.proc.base == m.slot || m.proc.base == sys.procs[m.r].base
  {
    hide Micro, Stored, WriteStep, CreationOf, AfterEntry;
  }

  lemma {:induction false} RunPast(cfg: Config, start: System, evs: seq<Event>)
    requires Initial(start)
    ensures PastInv(cfg, Run(cfg, start, evs))
  {
    hide Next, SerialInv;
    if evs != [] {
      var front := evs[..|evs| - 1];
      RunPast(cfg, start, front);
      RunSerial(cfg, start, front);
      NextPast(cfg, Run(cfg, start, front), evs[|evs| - 1]);
    }
  }

  lemma ReachablePast(cfg: Config, sys: System)
    requires Reachable(cfg, sys)
    ensures PastInv(cfg, sys)
  {
    hide Run, PastInv;
    var start: System, evs: seq<Event> :| Initial(start) && sys == Run(cfg, start, evs);
    RunPast(cfg, start, evs);
  }

  /**
   Of the PATCHes that carry the same Upload-Offset for one upload, at most one adds bytes in
   any run: once one has, every later one answers an error, the mismatched offset if nothing
   else is wrong with it.
   */
  lemma OnePatchPerOffset(cfg: Config, sys: System, i: nat, j: nat)
    requires Reachable(cfg, sys)
    requires i < j < |sys.order| && sys.order[i] < |sys.procs| && sys.order[j] < |sys.procs|
    requires var p, q := sys.procs[sys.order[i]], sys.procs[sys.order[j]];
             && p.req.Patch? && q.req.Patch? && p.req.id == q.req.id && p.req.offset == q.req.offset
             && Added(cfg, p) > 0
    ensures var q := sys.procs[sys.order[j]];
            && Added(cfg, q) == 0
            && (q.pc.Done? ==> q.pc.response.Err?)
            && (q.pc.Done? && FindsUpload(cfg, q) ==> q.pc.response == Err(ErrMismatchOffset))
  {
    hide Inv, Found, Settled, CreationOf, SlotOk, WriteRun, Ordered, Reachable;
    ReachablePast(cfg, sys);
    ReachableSerial(cfg, sys);
    var p, q := sys.procs[sys.order[i]], sys.procs[sys.order[j]];
    assert SameID(p, q) && Beyond(cfg, p, q.base);
    assert OnTrack(cfg, q, At(sys.slots, q.req.id), sys.order[j] in sys.order);
    WritesIntoUpload(cfg, p.req, p.env, p.base);
    WrongOffset(cfg, q.req, q.env, q.base);
  }

  /**
   So it is in every run: a request that had a stop in its body transfer has answered an error,
   and, if the server and the store can terminate, its upload is gone.
   */
  lemma StoppedRequestsFail(cfg: Config, sys: System, r: nat)
    requires Reachable(cfg, sys)
    requires r < |sys.procs| && sys.procs[r].pc.Done? && Stop in sys.procs[r].plan
    requires !IsFinalPost(cfg, sys.procs[r].req)
    ensures sys.procs[r].pc.response.Err?
    ensures cfg.usesTerminater && sys.procs[r].env.terminate.None? ==>
              At(sys.slots, sys.procs[r].req.id).upload.None?
  {
    hide Handle, Inv, Ordered, Found, Settled, Tracks, CreationOf, Prepare, Reachable, BasesBeyond, Beyond, SlotOk, At;
    ReachableSerial(cfg, sys);
    ReachablePast(cfg, sys);
    var p := sys.procs[r];
    assert OnTrack(cfg, p, At(sys.slots, p.req.id), r in sys.order);
    if r in sys.order {
      StopFails(cfg, p.req, p.env, p.plan, p.base);
      var k :| 0 <= k < |sys.order| && sys.order[k] == r;
      assert Beyond(cfg, p, At(sys.slots, p.req.id)) && SlotOk(cfg, p.base);
      if cfg.usesTerminater && p.env.terminate.None? {
        StopEnds(cfg, p, At(sys.slots, p.req.id));
      }
    }
  }

  lemma StopEnds(cfg: Config, p: Proc, s: Slot)
    requires !IsFinalPost(cfg, p.req) && Prepare(cfg, p.req, p.env, p.base).Writes? && SlotOk(cfg, p.base)
    requires Handle(cfg, p.req, p.env, p.plan, p.base).slot.upload.None? && Beyond(cfg, p, s)
    ensures s.upload.None?
  {
    hide Prepare, WriteRun, Added, UploadOk, WriteAt, HasError;
    WritesIntoUpload(cfg, p.req, p.env, p.base);
  }

  /** Nothing keeps the request from an upload that is not final. */
  predicate FindsUpload(cfg: Config, q: Proc) {
    && Refusal(cfg, q.req).None? && q.env.lock.None? && q.env.lookup.None? && q.env.info.None?
    && q.base.upload.Some? && !q.base.upload.value.info.isFinal
  }

  lemma WrongOffset(cfg: Config, req: Request, env: Env, s: Slot)
    requires req.Patch?
    requires s.upload.Some? ==> !(req.offset.Value? && req.offset.n == s.upload.value.info.offset)
    ensures var b := Prepare(cfg, req, env, s); b.Answered? && b.outcome.slot == s && b.outcome.response.Err?
    ensures Refusal(cfg, req).None? && env.lock.None? && env.lookup.None? && env.info.None? ==>
              s.upload.Some? && !s.upload.value.info.isFinal ==>
                Prepare(cfg, req, env, s).outcome.response == Err(ErrMismatchOffset)
  {
    hide CreationOf, UploadOk, TooLong;
  }
}
