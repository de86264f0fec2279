/**
 A final POST in the middle of other requests does what it would do on its own.  It reads its
 parts one by one, first their sizes and then their bytes, while others go on; as long as no part
 is deleted, its answer and its upload are those of FinalOutcome, which reads them all at once.
 */
module FinalRuns {
  import opened Prelude
  import opened BodyReaders
  import opened Lifecycle
  import opened Finals
  import opened Steps
  import opened Invariants
  import opened Safety
  import opened Sizes
  import opened Concat
  import opened Serial
  import opened Consequences

  /** The uploads of a store. */
  function Files(slots: map<ID, Slot>): (files: map<ID, Upload>)
    ensures forall id: ID :: id in files <==> At(slots, id).upload.Some?
    ensures forall id: ID :: id in files ==> files[id] == At(slots, id).upload.value
  {
    map id | id in slots && slots[id].upload.Some? :: slots[id].upload.value
  }

  /** Two stores have the same uploads under these names. */
  ghost predicate Agree(files: map<ID, Upload>, others: map<ID, Upload>, ids: seq<ID>) {
    forall id :: id in ids ==> id in files && id in others && files[id] == others[id]
  }

  // ------------------------------------------------------------------ what remains of a final POST

  /** From the join of part n on. */
  function FromJoin(cfg: Config, req: Request, env: Env, files: map<ID, Upload>, n: nat, total: int, s: Slot): Outcome
    decreases |Parts(cfg, req)| - n
  {
    var parts := Parts(cfg, req);
    if env.concat.Some? && n >= env.concatAt then Outcome(s, Err(env.concat.value))
    else if n >= |parts| then FromAnnounce(cfg, req, env, total, s)
    else if parts[n] !in files || s.upload.None? then Outcome(s, Err(ErrNotFound))
    else FromJoin(cfg, req, env, files, n + 1, total,
                  s.(upload := Some(Appended(s.upload.value, files[parts[n]].data))))
  }

  /** From the events of a joined upload on. */
  function FromAnnounce(cfg: Config, req: Request, env: Env, total: int, s: Slot): Outcome {
    var f := EmitFinishEvents(cfg, env.concatCallback, s);
    if f.error.Some? then Outcome(f.slot, Err(f.error.value))
    else if total == 0 then FromTailFinish(cfg, env, FinalInfo(req, cfg, total), f.slot, Created(req.id, None))
    else Outcome(f.slot, Created(req.id, None))
  }

  /** The rest of a final POST that has its ID. */
  function Rest(cfg: Config, req: Request, env: Env, files: map<ID, Upload>, pc: Pc, joined: nat, s: Slot): Outcome {
    match pc
    case NewlyCreated =>
      if env.info.Some? then Outcome(s, Err(env.info.value))
      else if s.upload.None? then Outcome(s, Err(ErrNotFound))
      else FromJoin(cfg, req, env, files, joined, s.upload.value.info.size, s)
    case Joining(total) => FromJoin(cfg, req, env, files, joined, total, s)
    case Announcing(total) => FromAnnounce(cfg, req, env, total, s)
    case Finishing(info, caller) =>
      var f := FinishUploadIfComplete(cfg, env, info, s);
      AfterEvents(cfg, req, env, info, caller, f.error, f.slot)
    case Emitting(info, caller) =>
      var f := EmitFinishEvents(cfg, env.finishCallback, s);
      AfterEvents(cfg, req, env, info, caller, f.error, f.slot)
    case Leaving(response) => Outcome(s, response)
    case _ => Outcome(s, Err(ErrNotFound))
  }

  /** What remains depends on the parts alone. */
  lemma {:induction false} FromJoinAgrees(cfg: Config, req: Request, env: Env, files: map<ID, Upload>, others: map<ID,
                                          Upload>,
                                          n: nat, total: int, s: Slot)
    requires Agree(files, others, Parts(cfg, req))
    ensures FromJoin(cfg, req, env, files, n, total, s) == FromJoin(cfg, req, env, others, n, total, s)
    decreases |Parts(cfg, req)| - n
  {
    hide FromAnnounce, Parts;
    var parts := Parts(cfg, req);
    if n < |parts| && s.upload.Some? {
      assert parts[n] in parts;
      FromJoinAgrees(cfg, req, env, files, others, n + 1, total,
                     s.(upload := Some(Appended(s.upload.value, files[parts[n]].data))));
    }
  }

  lemma RestAgrees(cfg: Config, req: Request, env: Env, files: map<ID, Upload>, others: map<ID, Upload>, pc: Pc,
                   joined: nat, s: Slot)
    requires Agree(files, others, Parts(cfg, req))
    ensures Rest(cfg, req, env, files, pc, joined, s) == Rest(cfg, req, env, others, pc, joined, s)
  {
    hide FromJoin, Parts, FromAnnounce;
    match pc {
      case NewlyCreated =>
        if s.upload.Some? { FromJoinAgrees(cfg, req, env, files, others, joined, s.upload.value.info.size, s); }
      case Joining(total) => FromJoinAgrees(cfg, req, env, files, others, joined, total, s);
      case _ =>
    }
  }

  lemma {:induction false} PartSizesAgree(env: Env, files: map<ID, Upload>, others: map<ID, Upload>, ids: seq<ID>)
    requires Agree(files, others, ids)
    ensures PartSizes(env, files, ids) == PartSizes(env, others, ids)
    ensures JoinedFiles(files, ids) == JoinedFiles(others, ids)
  {
    if ids != [] {
      PartSizesAgree(env, files, others, ids[..|ids| - 1]);
      assert ids[|ids| - 1] in ids;
    }
  }

  lemma OutcomeAgrees(cfg: Config, req: Request, env: Env, files: map<ID, Upload>, others: map<ID, Upload>, s: Slot)
    requires IsFinalPost(cfg, req) && Agree(files, others, Parts(cfg, req))
    ensures FinalOutcome(cfg, req, env, files, s) == FinalOutcome(cfg, req, env, others, s)
  {
    hide PartSizes, JoinedFiles, TooBig, WrapSum, CreationOf;
    var parts := Parts(cfg, req);
    PartSizesAgree(env, files, others, parts);
    var joined := if env.concat.Some? && env.concatAt < |parts| then env.concatAt else |parts|;
    assert forall id :: id in parts[..joined] ==> id in parts;
    PartSizesAgree(env, files, others, parts[..joined]);
  }

  // ------------------------------------------------------------------ one step

  /** A step of a final POST that has its ID does a part of what remains. */
  lemma RestStep(cfg: Config, sys: System, r: nat)
    requires Inv(cfg, sys) && r < |sys.procs| && IsFinalPost(cfg, sys.procs[r].req)
    requires OnFinalPath(sys.procs[r].pc) && !sys.procs[r].pc.Leaving?
    ensures var p := sys.procs[r];
            var m := NextStep(cfg, sys, r);
            && m.Move? && m.r == r && OnFinalPath(m.proc.pc) && m.proc.sizes == p.sizes
            && Rest(cfg, p.req, p.env, Files(sys.slots), m.proc.pc, m.proc.joined, m.slot)
                 == Rest(cfg, p.req, p.env, Files(sys.slots), p.pc, p.joined, At(sys.slots, p.req.id))
  {
    hide Exclusive, RegistryAgrees, Sound, SlotOk, IsFinalPost, CreationOf, Parts, Complete, Files, At, TooBig;
    var p := sys.procs[r];
    var s := At(sys.slots, p.req.id);
    assert ProcOk(cfg, p, s);
    FinalMicro(cfg, p, s);
    FinalPath(cfg, p, s);
    FormOfFinal(cfg, p.req);
    if p.pc.Joining? {
      JoinStep(cfg, sys, r);
    } else {
      MicroStep(cfg, p, s, Files(sys.slots));
    }
  }

  lemma JoinStep(cfg: Config, sys: System, r: nat)
    requires r < |sys.procs| && sys.procs[r].pc.Joining?
    ensures var p := sys.procs[r];
            var m := NextStep(cfg, sys, r);
            && m.Move? && m.r == r && OnFinalPath(m.proc.pc) && m.proc.sizes == p.sizes
            && Rest(cfg, p.req, p.env, Files(sys.slots), m.proc.pc, m.proc.joined, m.slot)
              == Rest(cfg, p.req, p.env, Files(sys.slots), p.pc, p.joined, At(sys.slots, p.req.id))
  {
    hide Parts, At, FromAnnounce, Files;
    var p := sys.procs[r];
    var parts := Parts(cfg, p.req);
    assert p.joined < |parts| ==> parts[p.joined] in parts;
  }

  lemma MicroStep(cfg: Config, p: Proc, s: Slot, files: map<ID, Upload>)
    requires p.req.Post? && OnFinalPath(p.pc) && !p.pc.Joining? && !p.pc.Leaving?
    requires p.pc.NewlyCreated? ==> s.upload.Some? && s.upload.value.info.isFinal
    requires p.pc.Finishing? || p.pc.Emitting? ==> p.pc.caller.AtEnd?
    ensures var l := Micro(cfg, p.req, p.env, p.pc, s);
            && OnFinalPath(l.pc)
            && Rest(cfg, p.req, p.env, files, l.pc, p.joined, l.slot)
                 == Rest(cfg, p.req, p.env, files, p.pc, p.joined, s)
  {
    hide Parts, FromJoin, CreationOf;
  }

  /** The steps of a final POST once it has its ID. */
  predicate OnFinalPath(pc: Pc) {
    pc.NewlyCreated? || pc.Joining? || pc.Announcing? || pc.Finishing? || pc.Emitting? || pc.Leaving?
  }

  // ------------------------------------------------------------------ the first step

  /** Joining part by part is joining all that can be joined. */
  lemma {:induction false} JoinIsGrown(cfg: Config, req: Request, env: Env, files: map<ID, Upload>, n: nat,
                                       total: int, s: Slot)
    requires (forall part :: part in Parts(cfg, req) ==> part in files) && n <= |Parts(cfg, req)| && s.upload.Some?
    requires env.concat.Some? ==> n <= env.concatAt
    ensures var parts := Parts(cfg, req);
            var joined := if env.concat.Some? && env.concatAt < |parts| then env.concatAt else |parts|;
            var now := s.(upload := Some(Grown(s.upload.value, JoinedFiles(files, parts[..n]), n)));
            var all := s.(upload := Some(Grown(s.upload.value, JoinedFiles(files, parts[..joined]), joined)));
            FromJoin(cfg, req, env, files, n, total, now)
              == if env.concat.Some? && env.concatAt <= |parts| then Outcome(all, Err(env.concat.value))
                 else FromAnnounce(cfg, req, env, total, all)
    decreases |Parts(cfg, req)| - n
  {
    hide FromAnnounce, Parts, JoinedFiles, Grown;
    var parts := Parts(cfg, req);
    if n < |parts| && !(env.concat.Some? && n >= env.concatAt) {
      assert parts[n] in parts;
      GrowsByOne(files, s.upload.value, parts, n);
      JoinIsGrown(cfg, req, env, files, n + 1, total, s);
    }
  }

  /** What remains of a final POST right after NewUpload is all of FinalOutcome. */
  lemma StartIsOutcome(cfg: Config, req: Request, env: Env, files: map<ID, Upload>, sizes: seq<int>)
    requires IsFinalPost(cfg, req) && (forall part :: part in Parts(cfg, req) ==> part in files)
    requires PartSizes(env, files, Parts(cfg, req)) == Total(sizes) && !TooBig(cfg, WrapSum(sizes))
    requires CreateRefusal(env).None?
    ensures var info := FinalInfo(req, cfg, WrapSum(sizes)).(offset := 0);
            Rest(cfg, req, env, files, NewlyCreated, 0, NewUpload(UNUSED, info, V1Final))
              == FinalOutcome(cfg, req, env, files, UNUSED)
  {
    hide PartSizes, TooBig, WrapSum, CreationOf, FromJoin, JoinedFiles;
    var info := FinalInfo(req, cfg, WrapSum(sizes)).(offset := 0);
    var s := NewUpload(UNUSED, info, V1Final);
    assert Parts(cfg, req)[..0] == [];
    JoinIsGrown(cfg, req, env, files, 0, info.size, s);
  }

  /** Parts that have been read, and are still there, are of the sizes that were read. */
  lemma SizesRead(env: Env, slots: map<ID, Slot>, parts: seq<ID>, sizes: seq<int>)
    requires PartsKept(slots, parts, sizes) && |sizes| == |parts| && AllThere(slots, parts)
    requires env.sizing.Some? ==> |parts| <= env.sizingAt
    ensures PartSizes(env, Files(slots), parts) == Total(sizes)
    ensures forall part :: part in parts ==> part in Files(slots)
  {
    hide At, PartSizes, Complete, Files;
    var files := Files(slots);
    forall j | 0 <= j < |parts|
      ensures parts[j] in files && Complete(files[parts[j]].info) && files[parts[j]].info.size == sizes[j]
    {
      assert PartKept(At(slots, parts[j]), sizes[j]);
    }
    PartSizesIff(env, files, parts);
    var read := PartSizes(env, files, parts).sizes;
    forall j | 0 <= j < |parts|
      ensures read[j] == sizes[j]
    {
      PartSizesAt(env, files, parts, j);
    }
    assert read == sizes;
  }

  // ------------------------------------------------------------------ every run

  /** A final POST that has its ID, or had it, is on its way to what FinalOutcome says of the parts as they are. */
  ghost predicate FinalTracks(cfg: Config, slots: map<ID, Slot>, p: Proc, ordered: bool)
    requires IsFinalPost(cfg, p.req)
  {
    && (p.pc.Sizing? || p.pc.Creating? ==> p.joined == 0 && (p.env.sizing.Some? ==> |p.sizes| <= p.env.sizingAt))
    && (Owns(p.pc) || ordered ==> |p.sizes| == |Parts(cfg, p.req)| && p.req.id !in Parts(cfg, p.req))
    && (Owns(p.pc) ==>
          && OnFinalPath(p.pc)
          && (AllThere(slots, Parts(cfg, p.req)) ==>
                Rest(cfg, p.req, p.env, Files(slots), p.pc, p.joined, At(slots, p.req.id))
                  == FinalOutcome(cfg, p.req, p.env, Files(slots), UNUSED)))
    && (p.pc.Done? && ordered && AllThere(slots, Parts(cfg, p.req)) ==>
          Outcome(p.base, p.pc.response) == FinalOutcome(cfg, p.req, p.env, Files(slots), UNUSED))
  }

  /** The parts as they are after a move: those that are there were there, and the same. */
  lemma PartsAgree(slots: map<ID, Slot>, id: ID, t: Slot, parts: seq<ID>, sizes: seq<int>)
    requires PartsKept(slots, parts, sizes) && |sizes| == |parts| && AllThere(slots[id := t], parts)
    requires id in parts ==> StaysComplete(At(slots, id), t) && Forward(At(slots, id), t)
    ensures AllThere(slots, parts) && Agree(Files(slots[id := t]), Files(slots), parts)
  {
    hide At, Complete, Grows, Files;
    forall j | 0 <= j < |parts|
      ensures At(slots, parts[j]).upload.Some? && At(slots[id := t], parts[j]).upload == At(slots, parts[j]).upload
    {
      AtAfter(slots, id, t, parts[j]);
      assert PartKept(At(slots, parts[j]), sizes[j]);
    }
  }

  /** A move of another request. */
  lemma OtherTracks(cfg: Config, slots: map<ID, Slot>, id: ID, t: Slot, p: Proc, ordered: bool)
    requires IsFinalPost(cfg, p.req) && FinalTracks(cfg, slots, p, ordered) && JoinInv(cfg, slots, p)
    requires id in Parts(cfg, p.req) ==> StaysComplete(At(slots, id), t) && Forward(At(slots, id), t)
    requires id == p.req.id && Owns(p.pc) ==> t == At(slots, id)
    ensures FinalTracks(cfg, slots[id := t], p, ordered)
  {
    hide IsFinalPost, At, Files, FinalOutcome, Rest, Parts, AllThere, PartsKept, FinalHolds, TooBig;
    var parts := Parts(cfg, p.req);
    AtAfter(slots, id, t, p.req.id);
    if (Owns(p.pc) || ordered) && AllThere(slots[id := t], parts) {
      PartsAgree(slots, id, t, parts, p.sizes);
      OutcomeAgrees(cfg, p.req, p.env, Files(slots[id := t]), Files(slots), UNUSED);
      RestAgrees(cfg, p.req, p.env, Files(slots[id := t]), Files(slots), p.pc, p.joined, At(slots, p.req.id));
    }
  }

  /** A step of the POST itself while it has its ID. */
  lemma OwnTracks(cfg: Config, sys: System, r: nat, ordered: bool)
    requires Inv(cfg, sys) && r < |sys.procs| && IsFinalPost(cfg, sys.procs[r].req) && Owns(sys.procs[r].pc)
    requires FinalTracks(cfg, sys.slots, sys.procs[r], ordered) && JoinInv(cfg, sys.slots, sys.procs[r])
    ensures var m := NextStep(cfg, sys, r);
            m.Move? && m.r == r && m.proc.req == sys.procs[r].req
            && FinalTracks(cfg, sys.slots[sys.procs[r].req.id := m.slot], m.proc, ordered)
  {
    hide Inv, IsFinalPost, At, Files, FinalOutcome, Rest, Parts, AllThere, PartsKept, FinalHolds, TooBig, NextStep;
    var p := sys.procs[r];
    var parts := Parts(cfg, p.req);
    var m := NextStep(cfg, sys, r);
    StepFits(cfg, sys, r);
    if p.pc.Leaving? {
      LeaveStep(cfg, sys, r);
    } else {
      RestStep(cfg, sys, r);
      OnPathOwns(m.proc.pc);
    }
    AtAfter(sys.slots, p.req.id, m.slot, p.req.id);
    if AllThere(sys.slots[p.req.id := m.slot], parts) {
      PartsAgree(sys.slots, p.req.id, m.slot, parts, p.sizes);
      OutcomeAgrees(cfg, p.req, p.env, Files(sys.slots[p.req.id := m.slot]), Files(sys.slots), UNUSED);
      RestAgrees(cfg, p.req, p.env, Files(sys.slots[p.req.id := m.slot]), Files(sys.slots),
                 m.proc.pc, m.proc.joined, m.slot);
      RestOfLeaving(cfg, p, Files(sys.slots), At(sys.slots, p.req.id));
    }
  }

  lemma OnPathOwns(pc: Pc)
    ensures OnFinalPath(pc) ==> Owns(pc) && !pc.Done? && !pc.Sizing? && !pc.Creating?
  {}

  lemma RestOfLeaving(cfg: Config, p: Proc, files: map<ID, Upload>, s: Slot)
    ensures p.pc.Leaving? ==> Rest(cfg, p.req, p.env, files, p.pc, p.joined, s) == Outcome(s, p.pc.response)
  {}

  lemma LeaveStep(cfg: Config, sys: System, r: nat)
    requires r < |sys.procs| && sys.procs[r].pc.Leaving? && IsFinalPost(cfg, sys.procs[r].req)
    ensures var p := sys.procs[r];
            var m := NextStep(cfg, sys, r);
            && m.Move? && m.r == r && m.slot == At(sys.slots, p.req.id)
            && m.proc == p.(pc := Done(p.pc.response), base := At(sys.slots, p.req.id))
  {
    hide IsFinalPost, At;
  }

  /** A step of the POST before it has its ID, and the one that gets it. */
  lemma OutsideTracks(cfg: Config, sys: System, r: nat, now: bool)
    requires Inv(cfg, sys) && r < |sys.procs| && IsFinalPost(cfg, sys.procs[r].req) && !Owns(sys.procs[r].pc)
    requires FinalTracks(cfg, sys.slots, sys.procs[r], false) && JoinInv(cfg, sys.slots, sys.procs[r])
    requires Sum(sys.procs[r].sizes) <= MAX_INT64
    requires var m := NextStep(cfg, sys, r); m.Move? ==> (now <==> Owns(m.proc.pc))
    ensures var m := NextStep(cfg, sys, r);
            m.Move? ==>
              m.r == r && m.proc.req == sys.procs[r].req
              && FinalTracks(cfg, sys.slots[sys.procs[r].req.id := m.slot], m.proc, now)
  {
    hide Exclusive, RegistryAgrees, Sound, SlotOk, IsFinalPost, At, Files, FinalOutcome, Rest, Parts, AllThere,
         PartsKept, TooBig,
         CreationOf, Complete, Refusal, FinalInfo, NewUpload;
    var p := sys.procs[r];
    assert ProcOk(cfg, p, At(sys.slots, p.req.id));
    FormOfFinal(cfg, p.req);
    if p.pc.Creating? {
      CreatedTracks(cfg, sys, r);
    }
  }

  lemma CreatedTracks(cfg: Config, sys: System, r: nat)
    requires Inv(cfg, sys) && r < |sys.procs| && IsFinalPost(cfg, sys.procs[r].req) && sys.procs[r].pc.Creating?
    requires FinalTracks(cfg, sys.slots, sys.procs[r], false) && JoinInv(cfg, sys.slots, sys.procs[r])
    requires Sum(sys.procs[r].sizes) <= MAX_INT64
    ensures var m := NextStep(cfg, sys, r);
            m.Move? ==>
              m.r == r && m.proc.req == sys.procs[r].req
              && FinalTracks(cfg, sys.slots[sys.procs[r].req.id := m.slot], m.proc, Owns(m.proc.pc))
  {
    hide Exclusive, RegistryAgrees, Sound, IsFinalPost, At, Files, FinalOutcome, Rest, Parts, AllThere, PartsKept,
         TooBig,
         CreationOf, Complete, Refusal, UploadOk;
    var p := sys.procs[r];
    var s := At(sys.slots, p.req.id);
    var parts := Parts(cfg, p.req);
    var m := NextStep(cfg, sys, r);
    assert ProcOk(cfg, p, s) && SlotOk(cfg, s);
    FormOfFinal(cfg, p.req);
    if m.Move? && m.proc.pc.NewlyCreated? {
      AtAfter(sys.slots, p.req.id, m.slot, p.req.id);
      NotItsOwnPart(sys.slots, p.req.id, parts, p.sizes);
      SizesAreNat(sys.slots, parts, p.sizes);
      TotalIsExact(p.sizes);
      if AllThere(sys.slots[p.req.id := m.slot], parts) {
        PartsAgree(sys.slots, p.req.id, m.slot, parts, p.sizes);
        SizesRead(p.env, sys.slots, parts, p.sizes);
        StartIsOutcome(cfg, p.req, p.env, Files(sys.slots), p.sizes);
        OutcomeAgrees(cfg, p.req, p.env, Files(sys.slots[p.req.id := m.slot]), Files(sys.slots), UNUSED);
        RestAgrees(cfg, p.req, p.env, Files(sys.slots[p.req.id := m.slot]), Files(sys.slots),
                   m.proc.pc, m.proc.joined, m.slot);
      }
    }
  }

  ghost predicate FinalsTrack(cfg: Config, sys: System, ids: set<ID>) {
    forall r :: 0 <= r < |sys.procs| && sys.procs[r].req.id in ids && IsFinalPost(cfg, sys.procs[r].req) ==>
      FinalTracks(cfg, sys.slots, sys.procs[r], r in sys.order)
  }

  /** What every event keeps of these uploads. */
  ghost predicate FinalInv(cfg: Config, sys: System, ids: set<ID>) {
    SerialInv(cfg, sys) && ConcatInv(cfg, sys, ids) && FinalsTrack(cfg, sys, ids)
  }

  lemma MoverTracks(cfg: Config, sys: System, ev: Event, ids: set<ID>)
    requires FinalInv(cfg, sys, ids) && Bounded(cfg, sys, ids)
    ensures var m := MoveOf(cfg, sys, ev);
            m.Move? && m.r < |sys.procs| && IsFinalPost(cfg, sys.procs[m.r].req) && sys.procs[m.r].req.id in ids ==>
              var now := Apply(sys, m.r, m.proc, m.slot);
              m.proc.req == sys.procs[m.r].req && FinalTracks(cfg, now.slots, m.proc, m.r in now.order)
  {
    hide FinalTracks, Inv, IsFinalPost, JoinInv, NextStep, Transfer, At, Owns, Registered, Found, Settled, OnTrack,
         Sole, Within, Sum,
         Parts, Sane;
    var m := MoveOf(cfg, sys, ev);
    MovesFit(cfg, sys, ev);
    OnlyByStep(cfg, sys, ev);
    if m.Move? && IsFinalPost(cfg, sys.procs[m.r].req) && sys.procs[m.r].req.id in ids {
      StepsItself(cfg, sys, ev.r);
      assert ProcBounded(cfg, sys.procs[m.r], ids);
      if Owns(sys.procs[m.r].pc) {
        OwnTracks(cfg, sys, m.r, true);
      } else {
        NotYetOrdered(sys, m);
        OutsideTracks(cfg, sys, m.r, Owns(m.proc.pc));
      }
    }
  }

  lemma NextFinals(cfg: Config, sys: System, ev: Event, ids: set<ID>)
    requires FinalInv(cfg, sys, ids) && Bounded(cfg, sys, ids) && Bounded(cfg, Next(cfg, sys, ev), ids)
    ensures FinalInv(cfg, Next(cfg, sys, ev), ids)
  {
    hide FinalTracks, SerialInv, IsFinalPost, JoinInv, MoveOf, At, Owns, Registered, Sole, Within, Sum, Parts, Sane,
         StaysComplete,
         Forward, Bounded;
    var m := MoveOf(cfg, sys, ev);
    MovesFit(cfg, sys, ev);
    NextSerial(cfg, sys, ev);
    assert Inv(cfg, sys) by { InvOf(cfg, sys); }
    NextConcat(cfg, sys, ev, ids);
    if m.Move? {
      var now := Next(cfg, sys, ev);
      MoverTracks(cfg, sys, ev, ids);
      forall r | 0 <= r < |now.procs| && now.procs[r].req.id in ids && IsFinalPost(cfg, now.procs[r].req)
        ensures FinalTracks(cfg, now.slots, now.procs[r], r in now.order)
      {
        if r != m.r { OtherMoved(cfg, sys, ev, r, ids); }
      }
    }
  }

  lemma InvOf(cfg: Config, sys: System)
    requires SerialInv(cfg, sys)
    ensures Inv(cfg, sys) && Ordered(sys)
  {
    hide Inv, Ordered, Found, Settled, OnTrack;
  }

  lemma OtherMoved(cfg: Config, sys: System, ev: Event, r: nat, ids: set<ID>)
    requires FinalInv(cfg, sys, ids) && Bounded(cfg, sys, ids)
    requires r < |sys.procs| && sys.procs[r].req.id in ids && IsFinalPost(cfg, sys.procs[r].req)
    ensures var m := MoveOf(cfg, sys, ev);
            m.Move? && m.r < |sys.procs| && m.r != r ==>
              FinalTracks(cfg, Apply(sys, m.r, m.proc, m.slot).slots, sys.procs[r],
                          r in Apply(sys, m.r, m.proc, m.slot).order)
  {
    hide FinalTracks, IsFinalPost, JoinInv, MoveOf, At, Registered, Owns, Sole, Within, Sum, Parts, Sane,
         StaysComplete, Forward, Found,
         Settled, OnTrack, Ordered, RegistryAgrees, SlotOk, ProcOk;
    var m := MoveOf(cfg, sys, ev);
    MovesFit(cfg, sys, ev);
    EventOk(cfg, sys, ev);
    MoveStaysComplete(cfg, sys, ev, ids);
    if m.Move? && m.r != r {
      var p := sys.procs[r];
      assert ProcBounded(cfg, p, ids);
      if m.proc.req.id == p.req.id && Owns(p.pc) {
        assert sys.owner[p.req.id] == r && !Owns(sys.procs[m.r].pc);
      }
      OtherTracks(cfg, sys.slots, m.proc.req.id, m.slot, p, r in sys.order);
    }
  }

  lemma InitialFinals(cfg: Config, start: System, ids: set<ID>)
    requires Initial(start)
    ensures FinalsTrack(cfg, start, ids)
  {
    hide IsFinalPost, Parts, AllThere, Rest, FinalOutcome, Files;
  }

  lemma {:induction false} RunFinals(cfg: Config, start: System, evs: seq<Event>, ids: set<ID>)
    requires Initial(start) && Bounded(cfg, Run(cfg, start, evs), ids)
    ensures FinalInv(cfg, Run(cfg, start, evs), ids)
  {
    hide Next, SerialInv, ConcatInv, FinalsTrack, Bounded, Inv;
    if evs == [] {
      InitialFinals(cfg, start, ids);
      InitialConcat(cfg, start, ids);
      InitialSerial(cfg, start);
    } else {
      var front := evs[..|evs| - 1];
      InitialInv(cfg, start);
      RunInv(cfg, start, front);
      SizesGrow(cfg, Run(cfg, start, front), evs[|evs| - 1], ids);
      RunFinals(cfg, start, front, ids);
      NextFinals(cfg, Run(cfg, start, front), evs[|evs| - 1], ids);
    }
  }

  /**
   In every reachable state a final POST that got its ID and has finished has answered, and left,
   what FinalOutcome says of its parts as they are, if they are all there: whatever other
   requests did between its steps.
   */
  lemma FinalServed(cfg: Config, sys: System, r: nat, ids: set<ID>)
    requires Reachable(cfg, sys) && Bounded(cfg, sys, ids)
    requires r < |sys.procs| && r in sys.order && sys.procs[r].pc.Done? && sys.procs[r].req.id in ids
    ensures var p := sys.procs[r];
            IsFinalPost(cfg, p.req) && AllThere(sys.slots, Parts(cfg, p.req)) ==>
              Outcome(p.base, p.pc.response) == FinalOutcome(cfg, p.req, p.env, Files(sys.slots), UNUSED)
  {
    hide Run, SerialInv, ConcatInv, Bounded, IsFinalPost, FinalOutcome, Files, Parts, AllThere, Rest;
    var start: System, evs: seq<Event> :| Initial(start) && sys == Run(cfg, start, evs);
    RunFinals(cfg, start, evs, ids);
  }

  // ------------------------------------------------------------------ its place in the order

  /**
   Whoever gets a part of a final upload after the POST that joins it finds the part as it still is, and
   did not make it.
   */
  ghost predicate PartBases(cfg: Config, sys: System, ids: set<ID>) {
    forall k, j :: 0 <= k < j < |sys.order| && sys.order[k] < |sys.procs| && sys.order[j] < |sys.procs| ==>
      Joins(cfg, sys.procs[sys.order[k]], sys.procs[sys.order[j]].req.id, ids) ==>
        FoundPart(cfg, sys.procs[sys.order[j]], At(sys.slots, sys.procs[sys.order[j]].req.id))
  }

  predicate Joins(cfg: Config, p: Proc, id: ID, ids: set<ID>) {
    IsFinalPost(cfg, p.req) && p.req.id in ids && id in Parts(cfg, p.req)
  }

  predicate FoundPart(cfg: Config, q: Proc, s: Slot) {
    !IsFinalPost(cfg, q.req) && (s.upload.Some? ==> q.base.upload == s.upload)
  }

  lemma MoverFindsPart(cfg: Config, sys: System, ev: Event, k: nat, ids: set<ID>)
    requires FinalInv(cfg, sys, ids) && Bounded(cfg, sys, ids) && k < |sys.order|
    requires var m := MoveOf(cfg, sys, ev);
             && m.Move? && m.r < |sys.procs| && sys.order[k] < |sys.procs|
             && Joins(cfg, sys.procs[sys.order[k]], sys.procs[m.r].req.id, ids)
    ensures var m := MoveOf(cfg, sys, ev);
            && m.proc.req == sys.procs[m.r].req
            && Gone(At(sys.slots, m.proc.req.id), m.slot)
            && (!Owns(sys.procs[m.r].pc) && Owns(m.proc.pc) ==>
                  !IsFinalPost(cfg, m.proc.req) && m.proc.base == At(sys.slots, m.proc.req.id))
  {
    hide FinalTracks, IsFinalPost, MoveOf, At, Registered, Owns, Sole, Within, Sum, Sane, Forward, Found, Settled,
         OnTrack,
         RegistryAgrees, UploadOk, Sound, Parts, FinalHolds, PartKept, TooBig;
    var m := MoveOf(cfg, sys, ev);
    MovesFit(cfg, sys, ev);
    EventOk(cfg, sys, ev);
    MoveStaysComplete(cfg, sys, ev, ids);
    var p, id := sys.procs[sys.order[k]], sys.procs[m.r].req.id;
    assert ProcBounded(cfg, p, ids);
    assert FinalTracks(cfg, sys.slots, p, sys.order[k] in sys.order);
    TracksHasSizes(cfg, sys.slots, p);
    PartIsComplete(sys.slots, Parts(cfg, p.req), p.sizes, id);
    assert ProcOk(cfg, sys.procs[m.r], At(sys.slots, id)) && SlotOk(cfg, At(sys.slots, id));
    GoneWhen(At(sys.slots, id), m.slot);
    FormOfFinal(cfg, m.proc.req);
  }

  /** The slot keeps its upload, or loses it. */
  predicate Gone(s: Slot, t: Slot) {
    t.upload.Some? ==> t.upload == s.upload
  }

  lemma GoneWhen(s: Slot, t: Slot)
    requires s.creator.Some? && (s.upload.Some? ==>
                  Complete(s.upload.value.info)) && StaysComplete(s, t) && Forward(s, t)
    ensures Gone(s, t)
  {}

  lemma TracksHasSizes(cfg: Config, slots: map<ID, Slot>, p: Proc)
    requires IsFinalPost(cfg, p.req) && FinalTracks(cfg, slots, p, true)
    ensures |p.sizes| == |Parts(cfg, p.req)| && p.req.id !in Parts(cfg, p.req)
  {
    hide IsFinalPost, Parts, AllThere, Rest, FinalOutcome, Files;
  }

  lemma PartIsComplete(slots: map<ID, Slot>, parts: seq<ID>, sizes: seq<int>, id: ID)
    requires PartsKept(slots, parts, sizes) && |sizes| == |parts| && id in parts
    ensures At(slots, id).creator.Some? && (At(slots, id).upload.Some? ==> Complete(At(slots, id).upload.value.info))
  {
    hide At, Complete;
    var j :| 0 <= j < |parts| && parts[j] == id;
    assert PartKept(At(slots, parts[j]), sizes[j]);
  }

  lemma NextPartBases(cfg: Config, sys: System, ev: Event, ids: set<ID>)
    requires FinalInv(cfg, sys, ids) && Bounded(cfg, sys, ids) && PartBases(cfg, sys, ids)
    ensures PartBases(cfg, Next(cfg, sys, ev), ids)
  {
    hide FinalTracks, Inv, IsFinalPost, JoinInv, MoveOf, At, Registered, Owns, Sole, Within, Bounded, Found, Settled,
         OnTrack, Parts,
         ConcatInv, FinalsTrack;
    var m := MoveOf(cfg, sys, ev);
    MovesFit(cfg, sys, ev);
    LeavingBase(cfg, sys, ev);
    if m.Move? {
      DoneOwnsNothing(m.proc.pc);
      var now := Next(cfg, sys, ev);
      if !Owns(sys.procs[m.r].pc) { NotYetOrdered(sys, m); }
      forall k, j | 0 <= k < j < |now.order| && now.order[k] < |now.procs| && now.order[j] < |now.procs|
                    && Joins(cfg, now.procs[now.order[k]], now.procs[now.order[j]].req.id, ids)
        ensures FoundPart(cfg, now.procs[now.order[j]], At(now.slots, now.procs[now.order[j]].req.id))
      {
        var q := now.procs[now.order[j]];
        assert k < |sys.order| && now.order[k] == sys.order[k];
        AtAfter(sys.slots, m.proc.req.id, m.slot, q.req.id);
        if q.req.id == m.proc.req.id { MoverFindsPart(cfg, sys, ev, k, ids); }
        if j < |sys.order| {
          assert FoundPart(cfg, sys.procs[sys.order[j]], At(sys.slots, q.req.id));
        }
      }
    }
  }

  lemma {:induction false} RunPartBases(cfg: Config, start: System, evs: seq<Event>, ids: set<ID>)
    requires Initial(start) && Bounded(cfg, Run(cfg, start, evs), ids)
    ensures PartBases(cfg, Run(cfg, start, evs), ids)
  {
    hide Next, FinalInv, Bounded, Inv, PartBases;
    if evs == [] {
      NoBasesYet(cfg, start, ids);
    } else {
      var front := evs[..|evs| - 1];
      InitialInv(cfg, start);
      RunInv(cfg, start, front);
      SizesGrow(cfg, Run(cfg, start, front), evs[|evs| - 1], ids);
      RunFinals(cfg, start, front, ids);
      RunPartBases(cfg, start, front, ids);
      NextPartBases(cfg, Run(cfg, start, front), evs[|evs| - 1], ids);
    }
  }

  lemma NoBasesYet(cfg: Config, sys: System, ids: set<ID>)
    ensures sys.order == [] ==> PartBases(cfg, sys, ids)
  {}

  /** The replay up to a final POST has a part as it still is; nobody in order[k..i] has the part. */
  lemma {:induction false} ReplayedPart(cfg: Config, sys: System, k: nat, i: nat, id: ID, ids: set<ID>)
    requires SerialInv(cfg, sys) && PartBases(cfg, sys, ids) && k < i <= |sys.order| && sys.order[k] < |sys.procs|
    requires Joins(cfg, sys.procs[sys.order[k]], id, ids) && id !in sys.owner && At(sys.slots, id).upload.Some?
    requires forall j :: k <= j < i && sys.order[j] < |sys.procs| ==> sys.procs[sys.order[j]].req.id != id
    ensures At(Replay(cfg, sys.procs, sys.order[..k]), id).upload == At(sys.slots, id).upload
    decreases |sys.order| - i
  {
    hide Inv, OnTrack, At, Replay, IsFinalPost, Parts, Settled;
    if i == |sys.order| {
      ReplayNoMore(cfg, sys.procs, sys.order, k, id);
      SettledAt(cfg, sys, id);
    } else if sys.procs[sys.order[i]].req.id == id {
      var q := sys.procs[sys.order[i]];
      assert FoundPart(cfg, q, At(sys.slots, id));
      assert q.base == At(Replay(cfg, sys.procs, sys.order[..i]), id);
      assert sys.order[..i][..k] == sys.order[..k];
      ReplayNoMore(cfg, sys.procs, sys.order[..i], k, id);
    } else {
      ReplayedPart(cfg, sys, k, i + 1, id, ids);
    }
  }

  lemma OwnIDIsNoPart(cfg: Config, sys: System, k: nat, ids: set<ID>)
    requires FinalsTrack(cfg, sys, ids) && k < |sys.order| && sys.order[k] < |sys.procs|
    requires sys.procs[sys.order[k]].req.id in ids && IsFinalPost(cfg, sys.procs[sys.order[k]].req)
    ensures sys.procs[sys.order[k]].req.id !in Parts(cfg, sys.procs[sys.order[k]].req)
  {
    hide FinalTracks, IsFinalPost, Parts;
    assert FinalTracks(cfg, sys.slots, sys.procs[sys.order[k]], sys.order[k] in sys.order);
    TracksHasSizes(cfg, sys.slots, sys.procs[sys.order[k]]);
  }

  /**
   Serializability of final POSTs.  In every reachable state in which the parts of a finished
   final POST are all there, and nobody has them, the POST has answered, and left, what
   FinalOutcome says of the store that handling its predecessors one at a time leaves.
   */
  lemma FinalSerializable(cfg: Config, sys: System, k: nat, ids: set<ID>)
    requires Reachable(cfg, sys) && Bounded(cfg, sys, ids)
    requires k < |sys.order| && sys.order[k] < |sys.procs| && sys.procs[sys.order[k]].pc.Done?
    requires sys.procs[sys.order[k]].req.id in ids
    ensures var p := sys.procs[sys.order[k]];
            IsFinalPost(cfg, p.req) && AllThere(sys.slots, Parts(cfg, p.req))
            && (forall id :: id in Parts(cfg, p.req) ==> id !in sys.owner) ==>
              Outcome(p.base, p.pc.response)
                == FinalOutcome(cfg, p.req, p.env, Files(Replay(cfg, sys.procs, sys.order[..k])), UNUSED)
  {
    hide Run, SerialInv, ConcatInv, FinalsTrack, PartBases, Bounded, IsFinalPost, FinalOutcome, Files, Parts, Replay,
         At;
    var start: System, evs: seq<Event> :| Initial(start) && sys == Run(cfg, start, evs);
    RunFinals(cfg, start, evs, ids);
    RunPartBases(cfg, start, evs, ids);
    FinalServed(cfg, sys, sys.order[k], ids);
    var p := sys.procs[sys.order[k]];
    var parts := Parts(cfg, p.req);
    if IsFinalPost(cfg, p.req) && AllThere(sys.slots, parts) && forall id :: id in parts ==> id !in sys.owner {
      OwnIDIsNoPart(cfg, sys, k, ids);
      var slots := Replay(cfg, sys.procs, sys.order[..k]);
      forall id | id in parts
        ensures id in Files(sys.slots) && id in Files(slots) && Files(sys.slots)[id] == Files(slots)[id]
      {
        var j :| 0 <= j < |parts| && parts[j] == id;
        ReplayedPart(cfg, sys, k, k + 1, id, ids);
      }
      OutcomeAgrees(cfg, p.req, p.env, Files(sys.slots), Files(slots), UNUSED);
    }
  }
}
