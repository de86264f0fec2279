/**
 Every stored byte was added by exactly one request: the offset of an upload is the sum of what
 the requests in its history persisted, whatever they answered.
 */
module Conservation {
  import opened Prelude
  import opened BodyReaders
  import opened Lifecycle
  import opened Steps
  import opened Invariants
  import opened Safety
  import opened Serial
  import opened Consequences
  import opened Sizes
  import Bounds

  /** The bytes that the finished requests of an order persisted under an ID. */
  function BytesAdded(cfg: Config, procs: seq<Proc>, order: seq<nat>, id: ID): nat {
    if order == [] then 0
    else
      var r := order[|order| - 1];
      BytesAdded(cfg, procs, order[..|order| - 1], id)
      + if r < |procs| && procs[r].pc.Done? && procs[r].req.id == id then Added(cfg, procs[r]) else 0
  }

  /** How many finished PATCHes of an order persisted at least one byte under an ID. */
  function Progressing(cfg: Config, procs: seq<Proc>, order: seq<nat>, id: ID): nat {
    if order == [] then 0
    else
      var r := order[|order| - 1];
      Progressing(cfg, procs, order[..|order| - 1], id)
      + if r < |procs| && procs[r].pc.Done? && procs[r].req.id == id && procs[r].req.Patch? && Added(cfg, procs[r]) > 0
        then 1 else 0
  }

  lemma {:induction false} ProgressIsBytes(cfg: Config, procs: seq<Proc>, order: seq<nat>, id: ID)
    ensures Progressing(cfg, procs, order, id) <= BytesAdded(cfg, procs, order, id)
  {
    hide Added;
    if order != [] {
      ProgressIsBytes(cfg, procs, order[..|order| - 1], id);
    }
  }

  // ------------------------------------------------------------------ one request

  function OffsetOf(s: Slot): nat {
    if s.upload.Some? then s.upload.value.info.offset else 0
  }

  /** Handling a request moves the offset by exactly the bytes it added. */
  lemma HandleAdds(cfg: Config, p: Proc)
    requires !IsFinalPost(cfg, p.req) && SlotOk(cfg, p.base) && (p.req.Post? ==> p.base.creator.None?)
    ensures var s := p.base;
            var t := Handle(cfg, p.req, p.env, p.plan, s).slot;
            && (s.creator.Some? ==> t.creator == s.creator && (s.upload.None? ==> t.upload.None?))
            && (t.upload.Some? ==> OffsetOf(t) == OffsetOf(s) + Added(cfg, p))
            && (t.creator.None? ==> t.upload.None? && Added(cfg, p) == 0)
            && (s.creator.None? ==> t.creator != Some(V1Final))
  {
    hide Prepare, WriteAt, UploadOk, WriteRun, HasError, SlotOk, Begun, FinishUploadIfComplete;
    PreparedOffset(cfg, p.req, p.env, p.base);
    var b := Prepare(cfg, p.req, p.env, p.base);
    if b.Writes? {
      var w := WriteRun(Begun(cfg, p.req, b.info), p.plan);
      ReturnKeeps(cfg, p.req, p.env, b.info, w, Stored(b.slot, b.info, w));
    }
  }

  lemma PreparedOffset(cfg: Config, req: Request, env: Env, s: Slot)
    requires !IsFinalPost(cfg, req) && SlotOk(cfg, s) && (req.Post? ==> s.creator.None?)
    ensures var b := Prepare(cfg, req, env, s);
            var t := if b.Writes? then b.slot else b.outcome.slot;
            && (s.creator.Some? ==> t.creator == s.creator && (s.upload.None? ==> t.upload.None?))
            && (t.upload.Some? ==> OffsetOf(t) == OffsetOf(s))
            && (t.creator.None? ==> t.upload.None?)
            && (s.creator.None? ==> t.creator != Some(V1Final))
            && (b.Writes? ==> t.upload.Some? && b.info.offset == OffsetOf(t))
  {
    hide CreationOf, UploadOk, TooLong;
    if req.Post? && CreationOf(cfg, req).Plain? {
      PlainCreation(cfg, req);
    }
  }

  /** After WriteChunk the offset stays. */
  lemma ReturnKeeps(cfg: Config, req: Request, env: Env, info: FileInfo, w: Write, s: Slot)
    ensures var t := FromReturn(cfg, req, env, info, w, s).slot;
            t.creator == s.creator && (t.upload.Some? ==> s.upload.Some? && OffsetOf(t) == OffsetOf(s))
  {
    hide HasError;
  }

  // ------------------------------------------------------------------ whole runs

  /** A plain POST found its ID unused, and a final one leaves a final upload. */
  ghost predicate Kinds(cfg: Config, sys: System) {
    forall r :: r in sys.order && r < |sys.procs| && sys.procs[r].req.Post? ==>
      if IsFinalPost(cfg, sys.procs[r].req) then sys.procs[r].pc.Done? ==> sys.procs[r].base.creator == Some(V1Final)
      else sys.procs[r].base.creator.None?
  }

  lemma NextKinds(cfg: Config, sys: System, ev: Event)
    requires SerialInv(cfg, sys) && Kinds(cfg, sys)
    ensures Kinds(cfg, Next(cfg, sys, ev))
  {
    hide MoveOf, Owns, Registered, Found, Settled, OnTrack, IsFinalPost, SlotOk, Exclusive, RegistryAgrees, ProcOk, At;
    var m := MoveOf(cfg, sys, ev);
    MovesFit(cfg, sys, ev);
    if m.Move? {
      DoneOwnsNothing(m.proc.pc);
      KindOfBase(cfg, sys, ev);
      if !Owns(sys.procs[m.r].pc) { NotYetOrdered(sys, m); }
      var now := Next(cfg, sys, ev);
      forall r | r in now.order && r < |now.procs| && now.procs[r].req.Post?
        ensures if IsFinalPost(cfg, now.procs[r].req) then now.procs[r].pc.Done? ==>
                      now.procs[r].base.creator == Some(V1Final)
                else now.procs[r].base.creator.None?
      {
        if r != m.r { assert r in sys.order && now.procs[r] == sys.procs[r]; }
      }
    }
  }

  lemma KindOfBase(cfg: Config, sys: System, ev: Event)
    requires Inv(cfg, sys)
    ensures var m := MoveOf(cfg, sys, ev);
            m.Move? && m.r < |sys.procs| && m.proc.req.Post? ==>
              && (!Owns(sys.procs[m.r].pc) && Owns(m.proc.pc) ==> m.proc.base.creator.None?)
              && (Owns(sys.procs[m.r].pc) && m.proc.pc.Done? ==>
                    if IsFinalPost(cfg, m.proc.req) then m.proc.base.creator == Some(V1Final)
                    else m.proc.base == sys.procs[m.r].base)
  {
    hide SlotOk, Exclusive, RegistryAgrees, MoveOf, At, IsFinalPost, Sound, Registered;
    var m := MoveOf(cfg, sys, ev);
    MovesFit(cfg, sys, ev);
    if m.Move? {
      var p := sys.procs[m.r];
      assert ProcOk(cfg, p, At(sys.slots, p.req.id));
      if Owns(p.pc) {
        OwnKindOf(cfg, p, At(sys.slots, p.req.id));
        BaseAtRelease(cfg, sys, ev);
      }
    }
  }

  lemma BaseAtRelease(cfg: Config, sys: System, ev: Event)
    ensures var m := MoveOf(cfg, sys, ev);
            m.Move? && m.r < |sys.procs| && Owns(sys.procs[m.r].pc) && m.proc.pc.Done? ==>
              m.proc.base == if IsFinalPost(cfg, m.proc.req) then m.slot else sys.procs[m.r].base
  {
    hide Micro, Stored, WriteStep, CreationOf, AfterEntry, IsFinalPost, At;
    MovesFit(cfg, sys, ev);
  }

  lemma OwnKindOf(cfg: Config, p: Proc, s: Slot)
    requires Sound(cfg, p, s)
    ensures IsFinalPost(cfg, p.req) ==> s.creator == Some(V1Final)
  {}

  lemma {:induction false} RunKinds(cfg: Config, start: System, evs: seq<Event>)
    requires Initial(start)
    ensures Kinds(cfg, Run(cfg, start, evs))
  {
    hide Next, SerialInv, Kinds;
    if evs == [] {
      assert Kinds(cfg, start) by { NoKindsYet(cfg, start); }
    } else {
      RunKinds(cfg, start, evs[..|evs| - 1]);
      RunSerial(cfg, start, evs[..|evs| - 1]);
      NextKinds(cfg, Run(cfg, start, evs[..|evs| - 1]), evs[|evs| - 1]);
    }
  }

  lemma NoKindsYet(cfg: Config, sys: System)
    ensures sys.order == [] ==> Kinds(cfg, sys)
  {}

  /** What the replay of the first k requests says of the bytes under an ID. */
  ghost predicate Accounted(cfg: Config, sys: System, k: nat, id: ID)
    requires k <= |sys.order|
  {
    var s := At(Replay(cfg, sys.procs, sys.order[..k]), id);
    var bytes := BytesAdded(cfg, sys.procs, sys.order[..k], id);
    && (s.creator.None? ==> s.upload.None? && bytes == 0)
    && (s.upload.Some? && s.creator != Some(V1Final) ==> OffsetOf(s) == bytes)
  }

  lemma {:induction false} AllAccounted(cfg: Config, sys: System, k: nat, id: ID)
    requires SerialInv(cfg, sys) && PastInv(cfg, sys) && Kinds(cfg, sys) && k <= |sys.order|
    ensures Accounted(cfg, sys, k, id)
  {
    hide Inv, SerialInv, PastInv, Kinds, Accounted;
    if k == 0 {
      NothingAccounted(cfg, sys, id);
    } else {
      AllAccounted(cfg, sys, k - 1, id);
      OneMoreAccounted(cfg, sys, k - 1, id);
    }
  }

  lemma NothingAccounted(cfg: Config, sys: System, id: ID)
    ensures Accounted(cfg, sys, 0, id)
  {
    assert sys.order[..0] == [];
  }

  lemma OneMoreAccounted(cfg: Config, sys: System, k: nat, id: ID)
    requires SerialInv(cfg, sys) && PastInv(cfg, sys) && Kinds(cfg, sys) && k < |sys.order|
    requires Accounted(cfg, sys, k, id)
    ensures Accounted(cfg, sys, k + 1, id)
  {
    hide Inv, Settled, OnTrack, Handle, IsFinalPost, Added, SlotOk, SlotsBeyond, BasesBeyond, Owns, At;
    var r := sys.order[k];
    var p := sys.procs[r];
    assert sys.order[..k + 1][..k] == sys.order[..k] && sys.order[..k + 1][k] == r;
    var before := Replay(cfg, sys.procs, sys.order[..k]);
    if p.pc.Done? {
      AtAfter(before, p.req.id, Effect(cfg, p, At(before, p.req.id)), id);
      if p.req.id == id && !IsFinalPost(cfg, p.req) {
        assert p.base == At(before, id) && SlotOk(cfg, p.base);
        HandleAdds(cfg, p);
      }
    }
    FormOfFinal(cfg, p.req);
  }

  lemma ReachableKinds(cfg: Config, sys: System)
    requires Reachable(cfg, sys)
    ensures Kinds(cfg, sys)
  {
    hide Run, Kinds;
    var start: System, evs: seq<Event> :| Initial(start) && sys == Run(cfg, start, evs);
    RunKinds(cfg, start, evs);
  }

  /**
   Conservation.  In every reachable state in which nobody works on an upload, its offset is the
   sum of the bytes persisted by the requests that have been handled, those that failed
   included: no byte is counted twice, none is lost.  At most that many PATCHes made progress,
   so for a known size, where the code's sums are exact, at most Size of them.
   */
  lemma EveryByteOnce(cfg: Config, sys: System, id: ID, ids: set<ID>)
    requires Reachable(cfg, sys)
    ensures var s := At(sys.slots, id);
            id !in sys.owner && s.upload.Some? && s.creator != Some(V1Final) ==>
              && s.upload.value.info.offset == BytesAdded(cfg, sys.procs, sys.order, id)
              && Progressing(cfg, sys.procs, sys.order, id) <= s.upload.value.info.offset
              && (!s.upload.value.info.sizeIsDeferred && Bounded(cfg, sys, ids) && id in ids ==>
                    Progressing(cfg, sys.procs, sys.order, id) <= Max(s.upload.value.info.size, 0))
  {
    hide Inv, Ordered, Found, OnTrack, SerialInv, PastInv, Kinds, BytesAdded, Progressing, Replay, At, Reachable,
         Bounded;
    ReachableSerial(cfg, sys);
    ReachablePast(cfg, sys);
    ReachableKinds(cfg, sys);
    AllAccounted(cfg, sys, |sys.order|, id);
    assert sys.order[..|sys.order|] == sys.order;
    ProgressIsBytes(cfg, sys.procs, sys.order, id);
    Bounds.SizeInvariant(cfg, sys, id, ids);
    SettledAt(cfg, sys, id);
  }
}
