/**
 Serializability: however the steps of HEAD, GET, PATCH, DELETE and POST requests interleave,
 the store and the answers are those of handling the requests one at a time, each from start
 to end, in the order in which they got hold of their IDs.
 */
module Serial {
  import opened Prelude
  import opened BodyReaders
  import opened Lifecycle
  import opened Steps
  import opened Invariants
  import opened Safety

  // ------------------------------------------------------------------ what remains of one request

  predicate BeforeWrite(pc: Pc) {
    pc.Holding? || pc.Looked? || pc.Reading? || pc.Deleting? || pc.Declaring? || pc.Ready? || pc.NewlyCreated?
  }

  predicate AfterWrite(pc: Pc) {
    pc.Stopping? || pc.Finishing? || pc.Emitting? || pc.Unregistering? || pc.Asking? || pc.DeclaringEnd? || pc.Leaving?
  }

  /** The steps that only some requests have. */
  predicate OnPath(req: Request, pc: Pc) {
    && (pc.Holding? || pc.Looked? ==> !req.Post?)
    && (pc.Declaring? ==> req.Patch?)
    && (pc.Ready? ==> req.Patch? || req.Post?)
    && (pc.NewlyCreated? || pc.Asking? || pc.DeclaringEnd? ==> req.Post?)
  }

  /** The rest of a handler up to the read of the body. */
  function Before(cfg: Config, req: Request, env: Env, pc: Pc, s: Slot): Prepared
    requires BeforeWrite(pc) && OnPath(req, pc)
  {
    match pc
    case Holding => FromGetUpload(cfg, req, env, s)
    case Looked => FromGetInfo(cfg, req, env, s)
    case Reading => FromGetReader(env, s)
    case Deleting => FromTerminate(env, s)
    case Declaring(info, n) => FromDeclare(req, env, info, n, s)
    case Ready(info) => EnterWrite(s, info, req.length, req.body)
    case NewlyCreated => FromNewUpload(cfg, req, env, s)
  }

  /** The end of a handler that has called FinishUpload, or found that it need not. */
  function AfterEvents(cfg: Config, req: Request, env: Env, info: FileInfo, caller: Caller, error: Option<Error>,
                       s: Slot): Outcome {
    match caller
    case FromWriteChunk(chunkInfo, err) =>
      FromChunk(cfg, req, env, chunkInfo, if err.Some? then err else error, info.offset, s)
    case AtEnd(response) => Outcome(s, if error.Some? then Err(error.value) else response)
  }

  /** The rest of a handler after the body has been read. */
  function After(cfg: Config, req: Request, env: Env, pc: Pc, s: Slot): Outcome
    requires AfterWrite(pc) && OnPath(req, pc)
  {
    match pc
    case Stopping(info, err, next) =>
      FromChunkFinish(cfg, req, env, info, err, next, if env.terminate.None? then Terminated(s) else s)
    case Finishing(info, caller) =>
      var f := FinishUploadIfComplete(cfg, env, info, s);
      AfterEvents(cfg, req, env, info, caller, f.error, f.slot)
    case Emitting(info, caller) =>
      var f := EmitFinishEvents(cfg, env.finishCallback, s);
      AfterEvents(cfg, req, env, info, caller, f.error, f.slot)
    case Unregistering(info, err, next) => FromChunk(cfg, req, env, info, err, next, s)
    case Asking(next) => FromGetInfoAgain(cfg, req, env, next, s)
    case DeclaringEnd(info, next) => FromDeclareEnd(cfg, req, env, info, next, s)
    case Leaving(response) => Outcome(s, response)
  }

  /**
   The request, wherever it is, is on the way to what Handle says of the slot it found: the
   part done, with the slot as it is now, and the part that remains make up the whole.
   */
  ghost predicate Tracks(cfg: Config, p: Proc, s: Slot)
    requires !IsFinalPost(cfg, p.req)
  {
    && OnPath(p.req, p.pc)
    && (p.plan != [] ==> Prepare(cfg, p.req, p.env, p.base).Writes?)
    && if BeforeWrite(p.pc) then
      p.plan == [] && Before(cfg, p.req, p.env, p.pc, s) == Prepare(cfg, p.req, p.env, p.base)
    else if p.pc.Writing? || p.pc.Wrote? then
      && var before := Prepare(cfg, p.req, p.env, p.base);
      && before.Writes? && before.info == p.pc.info
      && p.pc.w == WriteRun(Begun(cfg, p.req, p.pc.info), p.plan)
      && s == Stored(before.slot, p.pc.info, p.pc.w)
    else
      AfterWrite(p.pc) && After(cfg, p.req, p.env, p.pc, s) == Handle(cfg, p.req, p.env, p.plan, p.base)
  }

  lemma HandleAnswered(cfg: Config, req: Request, env: Env, plan: seq<WriteEvent>, s: Slot)
    requires !IsFinalPost(cfg, req) && Prepare(cfg, req, env, s).Answered?
    ensures Handle(cfg, req, env, plan, s) == Prepare(cfg, req, env, s).outcome
  {}

  /** Before the body is read. */
  lemma TracksBefore(cfg: Config, p: Proc, s: Slot)
    requires BeforeWrite(p.pc) && !IsFinalPost(cfg, p.req) && Tracks(cfg, p, s) && Sound(cfg, p, s) && SlotOk(cfg, s)
    ensures var l := Micro(cfg, p.req, p.env, p.pc, s); Tracks(cfg, p.(pc := l.pc), l.slot)
  {
    hide Prepare, CreationOf, IsFinalPost, Begun, Stored, InWrite, UploadOk, Handle, PatchDecision, HeadResponse,
         TooLong, AcceptableLength, OwnKind;
    var l := Micro(cfg, p.req, p.env, p.pc, s);
    if Prepare(cfg, p.req, p.env, p.base).Answered? {
      HandleAnswered(cfg, p.req, p.env, p.plan, p.base);
    }
  }

  /** After the body has been read. */
  lemma TracksAfter(cfg: Config, p: Proc, s: Slot)
    requires AfterWrite(p.pc) && !p.pc.Leaving? && !IsFinalPost(cfg, p.req)
    requires Tracks(cfg, p, s) && Sound(cfg, p, s) && SlotOk(cfg, s)
    ensures var l := Micro(cfg, p.req, p.env, p.pc, s); Tracks(cfg, p.(pc := l.pc), l.slot)
  {
    hide Handle, CreationOf, IsFinalPost, Begun, Stored, InWrite, UploadOk, Prepare, OwnKind;
  }

  lemma TracksWrote(cfg: Config, p: Proc, s: Slot)
    requires p.pc.Wrote? && !IsFinalPost(cfg, p.req) && Tracks(cfg, p, s) && Sound(cfg, p, s) && SlotOk(cfg, s)
    ensures var l := Micro(cfg, p.req, p.env, p.pc, s); Tracks(cfg, p.(pc := l.pc), l.slot)
  {
    hide Prepare, CreationOf, IsFinalPost, Begun, Stored, InWrite, UploadOk, HasError, OwnKind, WriteRun;
  }

  lemma StopStoresNothing(s: Slot, info: FileInfo, w: Write)
    ensures Stored(s, info, WriteStep(w, Stop)) == Stored(s, info, w)
  {}

  /** An event of the body transfer: the slot holds what the transfer has kept so far. */
  lemma TracksTransfer(cfg: Config, p: Proc, s: Slot, e: WriteEvent)
    requires (p.pc.Writing? || p.pc.Wrote?) && !IsFinalPost(cfg, p.req) && Tracks(cfg, p, s)
    requires p.pc.Wrote? ==> e == Stop
    ensures var w := WriteStep(p.pc.w, e);
            if p.pc.Writing? then Tracks(cfg, p.(pc := Writing(p.pc.info, w), plan := p.plan + [e]),
                        Stored(s, p.pc.info, w))
            else Tracks(cfg, p.(pc := Wrote(p.pc.info, w), plan := p.plan + [e]), s)
  {
    hide Prepare, CreationOf, IsFinalPost, Begun, WriteStep, WriteRun, Stored, Handle, Before, After;
    var before := Prepare(cfg, p.req, p.env, p.base).slot;
    WriteRunSnoc(Begun(cfg, p.req, p.pc.info), p.plan, e);
    StoredTwice(before, p.pc.info, p.pc.w, WriteStep(p.pc.w, e));
    StopStoresNothing(before, p.pc.info, p.pc.w);
  }

  /** A request that gets its ID starts on its way. */
  lemma TracksStart(cfg: Config, sys: System, r: nat)
    requires Inv(cfg, sys) && r < |sys.procs| && !IsFinalPost(cfg, sys.procs[r].req)
    requires sys.procs[r].pc.Waiting? || sys.procs[r].pc.Creating?
    ensures var m := NextStep(cfg, sys, r);
            m.Move? && Owns(m.proc.pc) ==> Tracks(cfg, m.proc, m.slot)
  {
    hide SlotOk, Exclusive, RegistryAgrees, FromGetUpload, FromNewUpload, NewUpload;
    assert ProcOk(cfg, sys.procs[r], At(sys.slots, sys.procs[r].req.id));
  }

  // ------------------------------------------------------------------ one request at a time

  /** What a finished request does to its slot; a final upload's POST leaves what it left in the run. */
  function Effect(cfg: Config, p: Proc, s: Slot): Slot {
    if IsFinalPost(cfg, p.req) then p.base else Handle(cfg, p.req, p.env, p.plan, s).slot
  }

  /** The store after the finished requests of order, one at a time. */
  function Replay(cfg: Config, procs: seq<Proc>, order: seq<nat>): map<ID, Slot> {
    if order == [] then map[]
    else
      var slots := Replay(cfg, procs, order[..|order| - 1]);
      var r := order[|order| - 1];
      if r < |procs| && procs[r].pc.Done?
        then slots[procs[r].req.id := Effect(cfg, procs[r], At(slots, procs[r].req.id))]
      else slots
  }

  /** Requests of one ID follow each other: only the last may still be under way. */
  ghost predicate Ordered(sys: System) {
    && (forall k :: 0 <= k < |sys.order| ==>
          sys.order[k] < |sys.procs| && (Owns(sys.procs[sys.order[k]].pc) || sys.procs[sys.order[k]].pc.Done?))
    && (forall i, j :: 0 <= i < j < |sys.order| ==>
          && sys.order[i] != sys.order[j]
          && (sys.procs[sys.order[i]].req.id == sys.procs[sys.order[j]].req.id ==> sys.procs[sys.order[i]].pc.Done?))
    && (forall r :: 0 <= r < |sys.procs| && Owns(sys.procs[r].pc) ==> r in sys.order)
  }

  /** Every request found its slot as handling its predecessors one at a time leaves it. */
  ghost predicate Found(cfg: Config, sys: System) {
    forall k :: 0 <= k < |sys.order| && sys.order[k] < |sys.procs| && !IsFinalPost(cfg, sys.procs[sys.order[k]].req) ==>
      sys.procs[sys.order[k]].base == At(Replay(cfg, sys.procs, sys.order[..k]), sys.procs[sys.order[k]].req.id)
  }

  /** A slot nobody has is as handling all finished requests one at a time leaves it. */
  ghost predicate Settled(cfg: Config, sys: System) {
    forall id: ID :: id !in sys.owner ==> At(sys.slots, id) == At(Replay(cfg, sys.procs, sys.order), id)
  }

  /** A request under way tracks Handle, a finished one has answered as Handle does. */
  ghost predicate OnTrack(cfg: Config, p: Proc, s: Slot, ordered: bool) {
    && (Owns(p.pc) && !IsFinalPost(cfg, p.req) ==> Tracks(cfg, p, s))
    && (p.pc.Done? && ordered && !IsFinalPost(cfg, p.req) ==>
          && p.pc.response == Handle(cfg, p.req, p.env, p.plan, p.base).response
          && (p.plan != [] ==> Prepare(cfg, p.req, p.env, p.base).Writes?))
    && (p.pc.Done? && !ordered ==> p.pc.response.Err? && p.plan == [])
  }

  ghost predicate SerialInv(cfg: Config, sys: System) {
    && Inv(cfg, sys) && Ordered(sys) && Found(cfg, sys) && Settled(cfg, sys)
    && forall r :: 0 <= r < |sys.procs| ==>
          OnTrack(cfg, sys.procs[r], At(sys.slots, sys.procs[r].req.id), r in sys.order)
  }

  lemma {:induction false} ReplayUnchanged(cfg: Config, procs: seq<Proc>, now: seq<Proc>, order: seq<nat>)
    requires |now| == |procs|
    requires forall r :: r in order && r < |procs| ==> procs[r] == now[r] || (!procs[r].pc.Done? && !now[r].pc.Done?)
    ensures Replay(cfg, now, order) == Replay(cfg, procs, order)
  {
    hide Effect;
    if order != [] {
      ReplayUnchanged(cfg, procs, now, order[..|order| - 1]);
      assert order[|order| - 1] in order;
    }
  }

  lemma {:induction false} ReplayOtherID(cfg: Config, procs: seq<Proc>, r: nat, p: Proc, order: seq<nat>, id: ID)
    requires r < |procs| && p.req == procs[r].req && id != p.req.id
    ensures At(Replay(cfg, procs[r := p], order), id) == At(Replay(cfg, procs, order), id)
  {
    if order != [] {
      ReplayOtherID(cfg, procs, r, p, order[..|order| - 1], id);
      SameEffect(cfg, procs, r, p, order, id);
    }
  }

  lemma SameEffect(cfg: Config, procs: seq<Proc>, r: nat, p: Proc, order: seq<nat>, id: ID)
    requires order != [] && r < |procs| && p.req == procs[r].req && id != p.req.id
    requires At(Replay(cfg, procs[r := p], order[..|order| - 1]), id)
         == At(Replay(cfg, procs, order[..|order| - 1]), id)
    ensures At(Replay(cfg, procs[r := p], order), id) == At(Replay(cfg, procs, order), id)
  {
    hide Effect;
  }

  lemma {:induction false} ReplayNoMore(cfg: Config, procs: seq<Proc>, order: seq<nat>, k: nat, id: ID)
    requires k <= |order|
    requires forall j :: k <= j < |order| && order[j] < |procs| ==> procs[order[j]].req.id != id
    ensures At(Replay(cfg, procs, order), id) == At(Replay(cfg, procs, order[..k]), id)
  {
    hide Effect;
    if k < |order| {
      assert order[..|order| - 1][..k] == order[..k];
      ReplayNoMore(cfg, procs, order[..|order| - 1], k, id);
    } else {
      assert order[..k] == order;
    }
  }

  // ------------------------------------------------------------------ a move keeps the replay

  lemma DoneOwnsNothing(pc: Pc)
    ensures Owns(pc) ==> !pc.Done?
  {}

  lemma OrderedKept(sys: System, m: Move)
    requires Exclusive(sys) && Ordered(sys) && m.Move? && Fits(sys, m)
    ensures Ordered(Apply(sys, m.r, m.proc, m.slot))
  {
    hide Owns, Registered, At;
    var now := Apply(sys, m.r, m.proc, m.slot);
    DoneOwnsNothing(sys.procs[m.r].pc);
    DoneOwnsNothing(m.proc.pc);
    forall k | 0 <= k < |now.order|
      ensures now.order[k] < |now.procs| && (Owns(now.procs[now.order[k]].pc) || now.procs[now.order[k]].pc.Done?)
    {}
    forall i, j | 0 <= i < j < |now.order|
      ensures now.order[i] != now.order[j]
      ensures now.procs[now.order[i]].req.id == now.procs[now.order[j]].req.id ==> now.procs[now.order[i]].pc.Done?
    {
      var a := now.order[i];
      assert Owns(sys.procs[a].pc) ==> sys.procs[a].req.id in sys.owner;
    }
  }

  /** The replay of the first k requests only changes when one of them finishes. */
  lemma ReplayPrefix(cfg: Config, sys: System, m: Move, k: nat)
    requires Ordered(sys) && m.Move? && Fits(sys, m) && k <= |sys.order|
    requires m.r in sys.order[..k] ==> !m.proc.pc.Done?
    ensures var now := Apply(sys, m.r, m.proc, m.slot);
            k <= |now.order| && now.order[..k] == sys.order[..k]
            && Replay(cfg, now.procs, now.order[..k]) == Replay(cfg, sys.procs, sys.order[..k])
  {
    hide Owns, Registered, At, Effect;
    var now := Apply(sys, m.r, m.proc, m.slot);
    DoneOwnsNothing(sys.procs[m.r].pc);
    ReplayUnchanged(cfg, sys.procs, now.procs, sys.order[..k]);
  }

  /** A request that does not have its ID is not in the order. */
  lemma NotYetOrdered(sys: System, m: Move)
    requires Ordered(sys) && m.Move? && Fits(sys, m) && !Owns(sys.procs[m.r].pc)
    ensures m.r !in sys.order
  {
    hide Owns;
  }

  lemma FoundKept(cfg: Config, sys: System, m: Move)
    requires Exclusive(sys) && Ordered(sys) && Found(cfg, sys) && Settled(cfg, sys) && m.Move? && Fits(sys, m)
    requires !m.proc.pc.Done? || !Owns(sys.procs[m.r].pc)
    ensures Found(cfg, Apply(sys, m.r, m.proc, m.slot))
  {
    hide Owns, Registered, Replay;
    var now := Apply(sys, m.r, m.proc, m.slot);
    if !Owns(sys.procs[m.r].pc) { NotYetOrdered(sys, m); }
    forall k | 0 <= k < |now.order| && now.order[k] < |now.procs| && !IsFinalPost(cfg, now.procs[now.order[k]].req)
      ensures now.procs[now.order[k]].base == At(Replay(cfg, now.procs, now.order[..k]), now.procs[now.order[k]].req.id)
    {
      ReplayPrefix(cfg, sys, m, k);
      if k == |sys.order| {
        assert sys.order[..k] == sys.order;
      }
    }
  }

  lemma NotDoneYet(cfg: Config, procs: seq<Proc>, order: seq<nat>, r: nat)
    requires r < |procs| && !procs[r].pc.Done?
    ensures Replay(cfg, procs, order + [r]) == Replay(cfg, procs, order)
  {
    hide Effect;
    assert (order + [r])[..|order|] == order;
  }

  lemma SettledKept(cfg: Config, sys: System, m: Move)
    requires Exclusive(sys) && Ordered(sys) && Settled(cfg, sys) && m.Move? && Fits(sys, m)
    requires !m.proc.pc.Done? || !Owns(sys.procs[m.r].pc)
    ensures Settled(cfg, Apply(sys, m.r, m.proc, m.slot))
  {
    hide Owns, Registered, Replay, At, Ordered;
    var now := Apply(sys, m.r, m.proc, m.slot);
    var n := |sys.order|;
    DoneOwnsNothing(m.proc.pc);
    if !Owns(sys.procs[m.r].pc) { NotYetOrdered(sys, m); }
    ReplayPrefix(cfg, sys, m, n);
    assert sys.order[..n] == sys.order;
    if |now.order| > n {
      NotDoneYet(cfg, now.procs, sys.order, m.r);
    } else {
      assert now.order[..n] == now.order;
    }
    forall id: ID | id !in now.owner
      ensures At(now.slots, id) == At(Replay(cfg, now.procs, now.order), id)
    {
      assert id !in sys.owner;
      AtAfter(sys.slots, m.proc.req.id, m.slot, id);
    }
  }

  /** Where a request that has its ID stands in the order; nobody with its ID comes later. */
  lemma Position(sys: System, r: nat) returns (k: nat)
    requires Ordered(sys) && r < |sys.procs| && Owns(sys.procs[r].pc)
    ensures k < |sys.order| && sys.order[k] == r && r !in sys.order[..k]
    ensures forall j :: k < j < |sys.order| ==> sys.procs[sys.order[j]].req.id != sys.procs[r].req.id
    ensures forall j :: 0 <= j < |sys.order| && sys.procs[sys.order[j]].req.id == sys.procs[r].req.id && j != k ==>
                  j < k
  {
    hide Owns;
    DoneOwnsNothing(sys.procs[r].pc);
    k :| 0 <= k < |sys.order| && sys.order[k] == r;
  }

  lemma FoundAfterRelease(cfg: Config, sys: System, m: Move)
    requires Ordered(sys) && Found(cfg, sys) && m.Move? && Fits(sys, m)
    requires Owns(sys.procs[m.r].pc) && m.proc.pc.Done?
    requires !IsFinalPost(cfg, m.proc.req) ==> m.proc.base == sys.procs[m.r].base
    ensures Found(cfg, Apply(sys, m.r, m.proc, m.slot))
  {
    hide Owns, Registered, Replay;
    DoneOwnsNothing(m.proc.pc);
    var now := Apply(sys, m.r, m.proc, m.slot);
    var p := Position(sys, m.r);
    forall k | 0 <= k < |now.order| && now.order[k] < |now.procs| && !IsFinalPost(cfg, now.procs[now.order[k]].req)
      ensures now.procs[now.order[k]].base == At(Replay(cfg, now.procs, now.order[..k]), now.procs[now.order[k]].req.id)
    {
      if now.procs[now.order[k]].req.id == m.proc.req.id {
        assert sys.order[..k] == sys.order[..p][..k];
        ReplayPrefix(cfg, sys, m, k);
      } else {
        ReplayOtherID(cfg, sys.procs, m.r, m.proc, sys.order[..k], now.procs[now.order[k]].req.id);
      }
    }
  }

  lemma SettledAfterRelease(cfg: Config, sys: System, m: Move)
    requires Exclusive(sys) && Ordered(sys) && Found(cfg, sys) && Settled(cfg, sys) && m.Move? && Fits(sys, m)
    requires Owns(sys.procs[m.r].pc) && m.proc.pc.Done?
    requires Effect(cfg, m.proc, sys.procs[m.r].base) == m.slot
    requires !IsFinalPost(cfg, m.proc.req) ==> m.proc.base == sys.procs[m.r].base
    ensures Settled(cfg, Apply(sys, m.r, m.proc, m.slot))
  {
    hide Owns, Registered, Replay, Handle;
    DoneOwnsNothing(m.proc.pc);
    var now := Apply(sys, m.r, m.proc, m.slot);
    forall id: ID | id !in now.owner
      ensures At(now.slots, id) == At(Replay(cfg, now.procs, now.order), id)
    {
      if id == m.proc.req.id {
        LastEffect(cfg, sys, m);
      } else {
        ReplayOtherID(cfg, sys.procs, m.r, m.proc, sys.order, id);
      }
    }
  }

  lemma ReplayLast(cfg: Config, procs: seq<Proc>, order: seq<nat>, r: nat)
    requires r < |procs| && procs[r].pc.Done?
    ensures At(Replay(cfg, procs, order + [r]), procs[r].req.id)
         == Effect(cfg, procs[r], At(Replay(cfg, procs, order), procs[r].req.id))
  {
    hide Effect;
    assert (order + [r])[..|order|] == order;
  }

  lemma SameFinalEffect(cfg: Config, p: Proc, s: Slot, t: Slot)
    ensures IsFinalPost(cfg, p.req) ==> Effect(cfg, p, s) == Effect(cfg, p, t)
  {
    hide Handle, IsFinalPost;
  }

  /** A finishing request has the last word on its slot. */
  lemma LastEffect(cfg: Config, sys: System, m: Move)
    requires Ordered(sys) && Found(cfg, sys) && m.Move? && Fits(sys, m)
    requires Owns(sys.procs[m.r].pc) && m.proc.pc.Done?
    requires Effect(cfg, m.proc, sys.procs[m.r].base) == m.slot
    requires !IsFinalPost(cfg, m.proc.req) ==> m.proc.base == sys.procs[m.r].base
    ensures At(Replay(cfg, Apply(sys, m.r, m.proc, m.slot).procs, sys.order), m.proc.req.id) == m.slot
  {
    hide Owns, Registered, Effect, Replay, IsFinalPost, At;
    var now := Apply(sys, m.r, m.proc, m.slot);
    var id := m.proc.req.id;
    var k := Position(sys, m.r);
    assert forall j :: k + 1 <= j < |sys.order| ==> now.procs[sys.order[j]].req.id == sys.procs[sys.order[j]].req.id;
    ReplayNoMore(cfg, now.procs, sys.order, k + 1, id);
    ReplayPrefix(cfg, sys, m, k);
    assert sys.order[..k + 1] == sys.order[..k] + [m.r];
    ReplayLast(cfg, now.procs, sys.order[..k], m.r);
    SameFinalEffect(cfg, m.proc, At(Replay(cfg, now.procs, sys.order[..k]), id), sys.procs[m.r].base);
  }

  // ------------------------------------------------------------------ every run

  /** A step of a request that has its ID keeps it on track. */
  lemma TracksStep(cfg: Config, sys: System, r: nat)
    requires Inv(cfg, sys) && r < |sys.procs|
    requires var p := sys.procs[r];
             Owns(p.pc) && !IsFinalPost(cfg, p.req) && !p.pc.Leaving? && Tracks(cfg, p, At(sys.slots, p.req.id))
    ensures var m := NextStep(cfg, sys, r); m.Move? ==> m.r == r && Owns(m.proc.pc) && Tracks(cfg, m.proc, m.slot)
  {
    hide SlotOk, Exclusive, RegistryAgrees, Micro, Tracks, CreationOf, Sound;
    var p := sys.procs[r];
    var s := At(sys.slots, p.req.id);
    assert ProcOk(cfg, p, s) && SlotOk(cfg, s);
    TracksWhere(cfg, p, s);
    MicroKeepsHold(cfg, p.req, p.env, p.pc, s);
    if BeforeWrite(p.pc) {
      TracksBefore(cfg, p, s);
    } else if p.pc.Wrote? {
      TracksWrote(cfg, p, s);
    } else if !p.pc.Writing? {
      TracksAfter(cfg, p, s);
    }
  }

  lemma TracksWhere(cfg: Config, p: Proc, s: Slot)
    requires !IsFinalPost(cfg, p.req) && Tracks(cfg, p, s)
    ensures BeforeWrite(p.pc) || p.pc.Writing? || p.pc.Wrote? || AfterWrite(p.pc)
  {
    hide Before, After, Prepare, Handle, Stored, WriteRun;
  }

  /** What a move does to the moving request. */
  ghost predicate MovesOn(cfg: Config, sys: System, m: Move)
    requires m.Move? && m.r < |sys.procs|
  {
    var p := sys.procs[m.r];
    && (Owns(m.proc.pc) && !IsFinalPost(cfg, m.proc.req) ==> Tracks(cfg, m.proc, m.slot))
    && (!Owns(p.pc) && m.proc.pc.Done? ==> m.proc.pc.response.Err? && m.proc.plan == [])
    && (Owns(p.pc) && m.proc.pc.Done? ==>
          && Effect(cfg, m.proc, p.base) == m.slot
          && (!IsFinalPost(cfg, m.proc.req) ==>
                && m.proc.base == p.base
                && m.proc.pc.response == Handle(cfg, m.proc.req, m.proc.env, m.proc.plan, m.proc.base).response
                && (m.proc.plan != [] ==> Prepare(cfg, m.proc.req, m.proc.env, m.proc.base).Writes?)))
  }

  lemma StepMovesOn(cfg: Config, sys: System, r: nat)
    requires SerialInv(cfg, sys) && r < |sys.procs|
    ensures var m := NextStep(cfg, sys, r); m.Move? ==> m.r == r && MovesOn(cfg, sys, m)
  {
    var p := sys.procs[r];
    var s := At(sys.slots, p.req.id);
    assert OnTrack(cfg, p, s, r in sys.order) && ProcOk(cfg, p, s);
    if p.pc.Leaving? {
      LeaveMovesOn(cfg, sys, r);
    } else if Owns(p.pc) {
      OwnerMovesOn(cfg, sys, r);
    } else {
      OutsideMovesOn(cfg, sys, r);
    }
  }

  lemma LeaveMovesOn(cfg: Config, sys: System, r: nat)
    requires r < |sys.procs| && sys.procs[r].pc.Leaving?
    requires OnTrack(cfg, sys.procs[r], At(sys.slots, sys.procs[r].req.id), r in sys.order)
    ensures var m := NextStep(cfg, sys, r); m.Move? && m.r == r && MovesOn(cfg, sys, m)
  {
    hide Handle, CreationOf, Prepare;
  }

  lemma OwnerMovesOn(cfg: Config, sys: System, r: nat)
    requires Inv(cfg, sys) && r < |sys.procs| && Owns(sys.procs[r].pc) && !sys.procs[r].pc.Leaving?
    requires OnTrack(cfg, sys.procs[r], At(sys.slots, sys.procs[r].req.id), r in sys.order)
    ensures var m := NextStep(cfg, sys, r); m.Move? ==> m.r == r && MovesOn(cfg, sys, m)
  {
    hide SlotOk, Exclusive, RegistryAgrees, Micro, Tracks, CreationOf, Sound, Handle;
    var p := sys.procs[r];
    MicroKeepsHold(cfg, p.req, p.env, p.pc, At(sys.slots, p.req.id));
    if !IsFinalPost(cfg, p.req) {
      TracksStep(cfg, sys, r);
      var m := NextStep(cfg, sys, r);
      if m.Move? { DoneOwnsNothing(m.proc.pc); }
    }
  }

  lemma OutsideMovesOn(cfg: Config, sys: System, r: nat)
    requires Inv(cfg, sys) && r < |sys.procs| && !Owns(sys.procs[r].pc)
    ensures var m := NextStep(cfg, sys, r); m.Move? ==> m.r == r && MovesOn(cfg, sys, m)
  {
    hide SlotOk, Exclusive, RegistryAgrees, Tracks, CreationOf, Handle, Refusal;
    var p := sys.procs[r];
    assert ProcOk(cfg, p, At(sys.slots, p.req.id));
    if (p.pc.Waiting? || p.pc.Creating?) && !IsFinalPost(cfg, p.req) {
      TracksStart(cfg, sys, r);
    }
  }

  lemma EventMovesOn(cfg: Config, sys: System, ev: Event)
    requires SerialInv(cfg, sys)
    ensures var m := MoveOf(cfg, sys, ev); m.Move? && m.r < |sys.procs| ==> MovesOn(cfg, sys, m)
  {
    hide Inv, Ordered, Found, Settled, NextStep, WriteStep, Stored, Handle, Prepare, CreationOf;
    var m := MoveOf(cfg, sys, ev);
    if ev.Step? && ev.r < |sys.procs| {
      StepMovesOn(cfg, sys, ev.r);
    } else if m.Move? && m.r < |sys.procs| {
      var p := sys.procs[m.r];
      var s := At(sys.slots, p.req.id);
      assert OnTrack(cfg, p, s, m.r in sys.order);
      if !ev.Return? && !IsFinalPost(cfg, p.req) {
        TracksTransfer(cfg, p, s, if ev.Body? then ev.e else Stop);
      }
    }
  }

  lemma OthersOnTrack(cfg: Config, sys: System, m: Move)
    requires SerialInv(cfg, sys) && m.Move? && Fits(sys, m) && MovesOn(cfg, sys, m)
    ensures var now := Apply(sys, m.r, m.proc, m.slot);
            forall r :: 0 <= r < |now.procs| ==>
              OnTrack(cfg, now.procs[r], At(now.slots, now.procs[r].req.id), r in now.order)
  {
    hide Owns, Registered, Handle, Tracks, Found, Settled, CreationOf, SlotOk, ProcOk;
    var now := Apply(sys, m.r, m.proc, m.slot);
    DoneOwnsNothing(m.proc.pc);
    if !Owns(sys.procs[m.r].pc) { NotYetOrdered(sys, m); }
    forall r | 0 <= r < |now.procs|
      ensures OnTrack(cfg, now.procs[r], At(now.slots, now.procs[r].req.id), r in now.order)
    {
      if r != m.r {
        assert OnTrack(cfg, sys.procs[r], At(sys.slots, sys.procs[r].req.id), r in sys.order);
        if Owns(sys.procs[r].pc) && sys.procs[r].req.id == m.proc.req.id {
          assert sys.owner[m.proc.req.id] == r && m.slot == At(sys.slots, m.proc.req.id);
        }
      }
    }
  }

  lemma NextSerial(cfg: Config, sys: System, ev: Event)
    requires SerialInv(cfg, sys)
    ensures SerialInv(cfg, Next(cfg, sys, ev))
  {
    hide Ordered, Found, Settled, OnTrack, MoveOf, SlotOk, ProcOk, RegistryAgrees, Exclusive, Handle;
    var m := MoveOf(cfg, sys, ev);
    NextInv(cfg, sys, ev);
    MovesFit(cfg, sys, ev);
    EventMovesOn(cfg, sys, ev);
    if m.Move? {
      OthersOnTrack(cfg, sys, m);
      OrderedKept(sys, m);
      if Owns(sys.procs[m.r].pc) && m.proc.pc.Done? {
        FoundAfterRelease(cfg, sys, m);
        SettledAfterRelease(cfg, sys, m);
      } else {
        FoundKept(cfg, sys, m);
        SettledKept(cfg, sys, m);
      }
    }
  }

  lemma InitialSerial(cfg: Config, start: System)
    requires Initial(start)
    ensures SerialInv(cfg, start)
  {
    InitialInv(cfg, start);
  }

  lemma {:induction false} RunSerial(cfg: Config, start: System, evs: seq<Event>)
    requires Initial(start)
    ensures SerialInv(cfg, Run(cfg, start, evs))
  {
    hide Next, SerialInv;
    if evs == [] {
      InitialSerial(cfg, start);
    } else {
      RunSerial(cfg, start, evs[..|evs| - 1]);
      NextSerial(cfg, Run(cfg, start, evs[..|evs| - 1]), evs[|evs| - 1]);
    }
  }

  lemma ReachableSerial(cfg: Config, sys: System)
    requires Reachable(cfg, sys)
    ensures SerialInv(cfg, sys)
  {
    hide Run, SerialInv;
    var start: System, evs: seq<Event> :| Initial(start) && sys == Run(cfg, start, evs);
    RunSerial(cfg, start, evs);
  }

  lemma SettledAt(cfg: Config, sys: System, id: ID)
    requires SerialInv(cfg, sys)
    ensures id !in sys.owner ==> At(sys.slots, id) == At(Replay(cfg, sys.procs, sys.order), id)
  {
    hide Inv, Ordered, Found, OnTrack, Replay, At;
  }

  /**
   Serializability.  In every state any interleaving can reach, each slot that no request has
   is what handling the finished requests one at a time in their order leaves, each finished
   request has answered what Handle answers at its place in that order, and a request that
   never got its ID has answered an error and changed nothing.
   */
  lemma Serializable(cfg: Config, sys: System)
    requires Reachable(cfg, sys)
    ensures forall id: ID :: id !in sys.owner ==> At(sys.slots, id) == At(Replay(cfg, sys.procs, sys.order), id)
    ensures forall k :: 0 <= k < |sys.order| ==> sys.order[k] < |sys.procs|
    ensures forall k :: 0 <= k < |sys.order| ==>
              var p := sys.procs[sys.order[k]];
              p.pc.Done? && !IsFinalPost(cfg, p.req) ==>
                var found := At(Replay(cfg, sys.procs, sys.order[..k]), p.req.id);
                p.pc.response == Handle(cfg, p.req, p.env, p.plan, found).response
    ensures forall r :: 0 <= r < |sys.procs| && sys.procs[r].pc.Done? && r !in sys.order ==>
                  sys.procs[r].pc.response.Err?
  {
    hide Handle, Replay, Inv, Tracks, CreationOf, Reachable;
    ReachableSerial(cfg, sys);
    forall k | 0 <= k < |sys.order|
      ensures var p := sys.procs[sys.order[k]];
              p.pc.Done? && !IsFinalPost(cfg, p.req) ==>
                var found := At(Replay(cfg, sys.procs, sys.order[..k]), p.req.id);
                p.pc.response == Handle(cfg, p.req, p.env, p.plan, found).response
    {
      var p := sys.procs[sys.order[k]];
      assert OnTrack(cfg, p, At(sys.slots, p.req.id), sys.order[k] in sys.order);
    }
  }
}
