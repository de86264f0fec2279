/**
 Concatenation.  A final POST reads its parts without their locks, first their sizes and then
 their bytes, while other requests go on; its result is still the parts' bytes in header order,
 because an upload that is complete no longer changes.
 */
module Concat {
  import opened Prelude
  import opened BodyReaders
  import opened Lifecycle
  import opened Finals
  import opened Steps
  import opened Invariants
  import opened Safety
  import opened Sizes
  import UploadConcat

  // ------------------------------------------------------------------ what a final POST knows of its parts

  /** A part that was complete with this size when the POST read it. */
  ghost predicate PartKept(s: Slot, size: int) {
    && s.creator.Some? && 0 <= size
    && (s.upload.Some? ==>
          Complete(s.upload.value.info) && s.upload.value.info.size == size && |s.upload.value.data| == size)
  }

  ghost predicate PartsKept(slots: map<ID, Slot>, parts: seq<ID>, sizes: seq<int>) {
    && |sizes| <= |parts| && AllNat(sizes)
    && forall j :: 0 <= j < |sizes| ==> PartKept(At(slots, parts[j]), sizes[j])
  }

  ghost predicate HasAt(data: seq<byte>, from: int, bytes: seq<byte>) {
    0 <= from && from + |bytes| <= |data| && data[from..from + |bytes|] == bytes
  }

  /** data consists of the first n parts in order: each one that still exists is in its place. */
  ghost predicate JoinedUpTo(slots: map<ID, Slot>, parts: seq<ID>, sizes: seq<int>, n: nat, data: seq<byte>) {
    && n <= |parts| && |sizes| == |parts|
    && |data| == Sum(sizes[..n])
    && forall j :: 0 <= j < n && At(slots, parts[j]).upload.Some? ==>
         HasAt(data, Sum(sizes[..j]), At(slots, parts[j]).upload.value.data)
  }

  /** The final upload of a POST that has joined n of its parts. */
  ghost predicate FinalHolds(cfg: Config, slots: map<ID, Slot>, p: Proc, n: nat) {
    var parts := Parts(cfg, p.req);
    var s := At(slots, p.req.id);
    && |p.sizes| == |parts| && p.req.id !in parts && s.creator == Some(V1Final)
    && (s.upload.Some? ==>
          && s.upload.value.info.size == Sum(p.sizes) && s.upload.value.info.partialUploads == parts
          && !TooBig(cfg, Sum(p.sizes))
          && JoinedUpTo(slots, parts, p.sizes, n, s.upload.value.data))
  }

  ghost predicate JoinInv(cfg: Config, slots: map<ID, Slot>, p: Proc) {
    var parts := Parts(cfg, p.req);
    && PartsKept(slots, parts, p.sizes)
    && match p.pc
    case Sizing(total) => total == WrapSum(p.sizes)
    case Creating(info) =>
      && |p.sizes| == |parts| && info.size == Sum(p.sizes) && !TooBig(cfg, info.size) && info.partialUploads == parts
      && info.isFinal && info.offset == 0
    case NewlyCreated => p.joined == 0 && FinalHolds(cfg, slots, p, 0)
    case Joining(total) => total == Sum(p.sizes) && FinalHolds(cfg, slots, p, p.joined)
    case Announcing(_) => FinalHolds(cfg, slots, p, |parts|)
    case Finishing(_, _) => FinalHolds(cfg, slots, p, |parts|)
    case Emitting(_, _) => FinalHolds(cfg, slots, p, |parts|)
    case Leaving(response) => response.Created? ==> FinalHolds(cfg, slots, p, |parts|)
    case Done(response) => response.Created? ==> FinalHolds(cfg, slots, p, |parts|)
    case _ => true
  }

  /** A final POST whose NewUpload has succeeded; it has not failed since if it is done. */
  predicate Made(cfg: Config, p: Proc) {
    IsFinalPost(cfg, p.req) && (Owns(p.pc) || (p.pc.Done? && p.pc.response.Created?))
  }

  /** No two POSTs made the same upload. */
  ghost predicate Sole(cfg: Config, sys: System) {
    && (forall r :: 0 <= r < |sys.procs| && Made(cfg, sys.procs[r]) ==>
          At(sys.slots, sys.procs[r].req.id).creator == Some(V1Final))
    && (forall q, r :: 0 <= q < r < |sys.procs| && Made(cfg, sys.procs[q]) && Made(cfg, sys.procs[r]) ==>
          sys.procs[q].req.id != sys.procs[r].req.id)
  }

  /** The size of a final upload has not wrapped. */
  predicate NotNegative(s: Slot) {
    s.upload.Some? && s.creator == Some(V1Final) ==> 0 <= s.upload.value.info.size
  }

  /** What holds of these uploads and of the POSTs that join them. */
  ghost predicate ConcatInv(cfg: Config, sys: System, ids: set<ID>) {
    && Sole(cfg, sys)
    && (forall id :: id in ids ==> Within(At(sys.slots, id)) && NotNegative(At(sys.slots, id)))
    && forall r :: 0 <= r < |sys.procs| && IsFinalPost(cfg, sys.procs[r].req) && sys.procs[r].req.id in ids ==>
         JoinInv(cfg, sys.slots, sys.procs[r])
  }

  // ------------------------------------------------------------------ complete uploads stay as they are

  /** Apart from joining, a final POST leaves the stored upload as it is. */
  lemma FinalMicro(cfg: Config, p: Proc, s: Slot)
    requires IsFinalPost(cfg, p.req) && Owns(p.pc) && Sound(cfg, p, s)
    ensures !p.pc.Writing? && !p.pc.Wrote?
    ensures var t := Micro(cfg, p.req, p.env, p.pc, s).slot; t.upload == s.upload || t.upload.None?
  {
    hide WriteInv, BodyCap, CreationOf, IsFinalPost, TooLong;
    assert OwnKind(cfg, p.req, s);
    FormOfFinal(cfg, p.req);
  }

  /** Joining bytes to an upload that already has its size adds nothing. */
  lemma JoinKeepsComplete(cfg: Config, sys: System, r: nat)
    requires r < |sys.procs| && sys.procs[r].pc.Joining? && JoinInv(cfg, sys.slots, sys.procs[r])
    requires Counted(At(sys.slots, sys.procs[r].req.id))
    ensures var m := NextStep(cfg, sys, r); m.Move? && StaysComplete(At(sys.slots, sys.procs[r].req.id), m.slot)
  {
    hide Parts, TooBig, HasAt;
    var p := sys.procs[r];
    var parts := Parts(cfg, p.req);
    if p.joined < |parts| && At(sys.slots, p.req.id).upload.Some? {
      assert PartKept(At(sys.slots, parts[p.joined]), p.sizes[p.joined]);
      SumPrefix(p.sizes, p.joined);
      var u := At(sys.slots, p.req.id).upload.value;
      if At(sys.slots, parts[p.joined]).upload.Some? && Complete(u.info) {
        var b := At(sys.slots, parts[p.joined]).upload.value.data;
        assert |u.data| == Sum(p.sizes) && |b| == 0;
        assert u.data + b == u.data;
      }
    }
  }

  /** No event changes one of these uploads once it is complete, except by removing it. */
  lemma MoveStaysComplete(cfg: Config, sys: System, ev: Event, ids: set<ID>)
    requires Inv(cfg, sys) && ConcatInv(cfg, sys, ids) && Bounded(cfg, sys, ids)
    ensures var m := MoveOf(cfg, sys, ev);
            m.Move? && m.r < |sys.procs| && sys.procs[m.r].req.id in ids ==>
              StaysComplete(At(sys.slots, sys.procs[m.r].req.id), m.slot)
  {
    hide IsFinalPost, Exclusive, RegistryAgrees, Sole, JoinInv, SlotOk, NextStep, Sound, Stored, WriteStep, At, Sum,
         Sane, Within,
         StaysComplete, Parts;
    var m := MoveOf(cfg, sys, ev);
    MoveWithin(cfg, sys, ev);
    if m.Move? && m.r < |sys.procs| && sys.procs[m.r].req.id in ids {
      assert ProcBounded(cfg, sys.procs[m.r], ids);
      if sys.procs[m.r].pc.Joining? {
        StepsItself(cfg, sys, ev.r);
        OnlyFinalJoins(cfg, sys, m.r);
        assert SlotOk(cfg, At(sys.slots, sys.procs[m.r].req.id));
        SlotCounts(cfg, At(sys.slots, sys.procs[m.r].req.id));
        JoinKeepsComplete(cfg, sys, m.r);
      }
    }
  }

  lemma OnlyFinalJoins(cfg: Config, sys: System, r: nat)
    requires Inv(cfg, sys) && r < |sys.procs| && sys.procs[r].pc.Joining?
    ensures IsFinalPost(cfg, sys.procs[r].req)
  {
    hide Exclusive, RegistryAgrees, SlotOk, IsFinalPost;
    assert ProcOk(cfg, sys.procs[r], At(sys.slots, sys.procs[r].req.id));
  }

  // ------------------------------------------------------------------ every event keeps the bookkeeping

  lemma PartsKeptMove(slots: map<ID, Slot>, id: ID, t: Slot, parts: seq<ID>, sizes: seq<int>)
    requires PartsKept(slots, parts, sizes) && (id in parts ==>
                  StaysComplete(At(slots, id), t)) && Forward(At(slots, id), t)
    ensures PartsKept(slots[id := t], parts, sizes)
  {
    hide At, Complete, Grows;
    forall j | 0 <= j < |sizes|
      ensures PartKept(At(slots[id := t], parts[j]), sizes[j])
    {
      AtAfter(slots, id, t, parts[j]);
      assert PartKept(At(slots, parts[j]), sizes[j]);
    }
  }

  lemma JoinedMove(slots: map<ID, Slot>, id: ID, t: Slot, parts: seq<ID>, sizes: seq<int>, n: nat, data: seq<byte>)
    requires PartsKept(slots, parts, sizes) && (id in parts ==>
                  StaysComplete(At(slots, id), t)) && Forward(At(slots, id), t)
    requires JoinedUpTo(slots, parts, sizes, n, data)
    ensures JoinedUpTo(slots[id := t], parts, sizes, n, data)
  {
    hide At, Complete, Grows, HasAt;
    forall j | 0 <= j < n && At(slots[id := t], parts[j]).upload.Some?
      ensures HasAt(data, Sum(sizes[..j]), At(slots[id := t], parts[j]).upload.value.data)
    {
      AtAfter(slots, id, t, parts[j]);
      assert PartKept(At(slots, parts[j]), sizes[j]);
    }
  }

  /** A move that leaves p's own final upload as it is, or takes it away. */
  lemma FinalHoldsMove(cfg: Config, slots: map<ID, Slot>, id: ID, t: Slot, p: Proc, q: Proc, n: nat)
    requires FinalHolds(cfg, slots, p, n) && PartsKept(slots, Parts(cfg, p.req), p.sizes)
    requires (id in Parts(cfg, p.req) ==> StaysComplete(At(slots, id), t)) && Forward(At(slots, id), t)
    requires id == p.req.id ==> t.upload == At(slots, id).upload || t.upload.None?
    requires q.req == p.req && q.sizes == p.sizes
    ensures FinalHolds(cfg, slots[id := t], q, n)
  {
    hide At, Complete, Grows, HasAt, JoinedUpTo, PartsKept, TooBig, Parts, StaysComplete;
    AtAfter(slots, id, t, p.req.id);
    if At(slots[id := t], p.req.id).upload.Some? {
      JoinedMove(slots, id, t, Parts(cfg, p.req), p.sizes, n, At(slots[id := t], p.req.id).upload.value.data);
    }
  }

  lemma JoinInvMove(cfg: Config, slots: map<ID, Slot>, id: ID, t: Slot, p: Proc)
    requires JoinInv(cfg, slots, p) && (id in Parts(cfg, p.req) ==>
                  StaysComplete(At(slots, id), t)) && Forward(At(slots, id), t)
    requires id == p.req.id && (Owns(p.pc) || (p.pc.Done? && p.pc.response.Created?)) ==>
               t.upload == At(slots, id).upload || t.upload.None?
    ensures JoinInv(cfg, slots[id := t], p)
  {
    hide At, Forward, StaysComplete, PartsKept, FinalHolds, Parts, TooBig;
    PartsKeptMove(slots, id, t, Parts(cfg, p.req), p.sizes);
    if p.pc.NewlyCreated? {
      FinalHoldsMove(cfg, slots, id, t, p, p, 0);
    } else if p.pc.Joining? {
      FinalHoldsMove(cfg, slots, id, t, p, p, p.joined);
    } else if p.pc.Announcing? || p.pc.Finishing? || p.pc.Emitting?
             || ((p.pc.Leaving? || p.pc.Done?) && p.pc.response.Created?) {
      FinalHoldsMove(cfg, slots, id, t, p, p, |Parts(cfg, p.req)|);
    }
  }

  /** Nobody but the POST that made it changes a final upload, except by termination. */
  lemma OthersLeaveIt(cfg: Config, sys: System, ev: Event, r: nat)
    requires Inv(cfg, sys) && Sole(cfg, sys) && r < |sys.procs| && Made(cfg, sys.procs[r])
    ensures var m := MoveOf(cfg, sys, ev);
            m.Move? && m.r < |sys.procs| && m.r != r && sys.procs[m.r].req.id == sys.procs[r].req.id ==>
              (m.slot == At(sys.slots, sys.procs[r].req.id) || m.slot.upload.None?) && !Made(cfg, m.proc)
  {
    hide IsFinalPost, Exclusive, RegistryAgrees, SlotOk, MoveOf, Sound, Outside, Registered, At;
    var m := MoveOf(cfg, sys, ev);
    MovesFit(cfg, sys, ev);
    EventOk(cfg, sys, ev);
    if m.Move? && m.r != r && sys.procs[m.r].req.id == sys.procs[r].req.id && IsFinalPost(cfg, sys.procs[m.r].req) {
      OutsideFinal(cfg, sys, ev);
    }
  }

  /** A final POST that owns nothing stays outside, or fails, while its ID is taken. */
  lemma OutsideFinal(cfg: Config, sys: System, ev: Event)
    requires Inv(cfg, sys)
    ensures var m := MoveOf(cfg, sys, ev);
            m.Move? && m.r < |sys.procs| && IsFinalPost(cfg, sys.procs[m.r].req) && !Owns(sys.procs[m.r].pc)
            && At(sys.slots, sys.procs[m.r].req.id).creator.Some? ==>
              && !Owns(m.proc.pc) && !(m.proc.pc.Done? && m.proc.pc.response.Created?)
              && m.slot == At(sys.slots, sys.procs[m.r].req.id)
  {
    hide Exclusive, RegistryAgrees, SlotOk, Sound, Stored, WriteStep, NextStep, At, IsFinalPost;
    var m := MoveOf(cfg, sys, ev);
    if m.Move? && m.r < |sys.procs| && ev.Step? && IsFinalPost(cfg, sys.procs[m.r].req)
       && !Owns(sys.procs[m.r].pc) && At(sys.slots, sys.procs[m.r].req.id).creator.Some? {
      StepsItself(cfg, sys, ev.r);
      assert ProcOk(cfg, sys.procs[m.r], At(sys.slots, sys.procs[m.r].req.id));
      FormOfFinal(cfg, sys.procs[m.r].req);
      OutsideFinalStep(cfg, sys, ev.r);
    }
  }

  lemma OutsideFinalStep(cfg: Config, sys: System, r: nat)
    requires r < |sys.procs| && !Owns(sys.procs[r].pc) && sys.procs[r].req.Post? && Outside(cfg, sys.procs[r])
    requires At(sys.slots, sys.procs[r].req.id).creator.Some?
    ensures var m := NextStep(cfg, sys, r);
            m.Move? ==>
              && !Owns(m.proc.pc) && !(m.proc.pc.Done? && m.proc.pc.response.Created?)
              && m.slot == At(sys.slots, sys.procs[r].req.id)
  {
    hide At, Refusal, TooBig, Micro, IsFinalPost, CreationOf, Parts, Complete, FinalInfo, NewUpload;
  }

  /** What one step of sizeOfUploads does. */
  lemma SizingStep(cfg: Config, sys: System, r: nat)
    requires r < |sys.procs| && sys.procs[r].pc.Sizing?
    ensures var p := sys.procs[r];
            var parts := Parts(cfg, p.req);
            var m := NextStep(cfg, sys, r);
            && m.Move? && m.r == r && m.slot == At(sys.slots, p.req.id) && m.proc.req == p.req
            && match m.proc.pc
               case Sizing(total) =>
                 && |p.sizes| < |parts| && At(sys.slots, parts[|p.sizes|]).upload.Some?
                 && Complete(At(sys.slots, parts[|p.sizes|]).upload.value.info)
                 && m.proc.sizes == p.sizes + [At(sys.slots, parts[|p.sizes|]).upload.value.info.size]
                 && total == Wrap(p.pc.total + At(sys.slots, parts[|p.sizes|]).upload.value.info.size)
               case Creating(info) =>
                 && |p.sizes| >= |parts| && m.proc.sizes == p.sizes && !TooBig(cfg, p.pc.total)
                 && info == FinalInfo(p.req, cfg, p.pc.total).(offset := 0)
               case Done(response) => response.Err? && m.proc.sizes == p.sizes
               case _ => false
  {
    hide IsFinalPost, Parts, TooBig, At, Complete, Micro, AfterEntry, FinalInfo;
  }

  /** Before it has its ID, a final POST adds up complete parts. */
  lemma SizingKeeps(cfg: Config, sys: System, r: nat)
    requires Inv(cfg, sys) && r < |sys.procs| && IsFinalPost(cfg, sys.procs[r].req)
    requires JoinInv(cfg, sys.slots, sys.procs[r])
    requires sys.procs[r].pc.Sizing?
    requires var m := NextStep(cfg, sys, r); m.Move? ==> Sum(m.proc.sizes) <= MAX_INT64
    ensures var m := NextStep(cfg, sys, r); m.Move? ==>
                  m.r == r && JoinInv(cfg, sys.slots[sys.procs[r].req.id := m.slot], m.proc)
  {
    hide IsFinalPost, Exclusive, RegistryAgrees, ProcOk, Parts, FinalHolds, SlotOk, TooBig, At, PartsKept, PartKept,
         Complete, NextStep, Sum, WrapSum;
    var p := sys.procs[r];
    var parts := Parts(cfg, p.req);
    SizingStep(cfg, sys, r);
    var m := NextStep(cfg, sys, r);
    if m.proc.pc.Sizing? {
      var part := At(sys.slots, parts[|p.sizes|]);
      assert SlotOk(cfg, part);
      CompleteIsWhole(cfg, part);
      SumSnoc(p.sizes, part.upload.value.info.size);
      OneMorePart(sys.slots, parts, p.sizes, part.upload.value.info.size);
    } else if m.proc.pc.Creating? {
      SizesAreNat(sys.slots, parts, p.sizes);
      TotalIsExact(p.sizes);
    }
    JoinInvSameStore(cfg, sys.slots, p.req.id, m.proc);
  }

  lemma SizesAreNat(slots: map<ID, Slot>, parts: seq<ID>, sizes: seq<int>)
    requires PartsKept(slots, parts, sizes)
    ensures AllNat(sizes) && |sizes| <= |parts|
  {}

  lemma OneMorePart(slots: map<ID, Slot>, parts: seq<ID>, sizes: seq<int>, size: int)
    requires PartsKept(slots, parts, sizes) && |sizes| < |parts| && PartKept(At(slots, parts[|sizes|]), size)
    ensures PartsKept(slots, parts, sizes + [size])
  {
    hide At;
  }

  lemma JoinInvSameStore(cfg: Config, slots: map<ID, Slot>, id: ID, p: Proc)
    requires JoinInv(cfg, slots, p)
    ensures JoinInv(cfg, slots[id := At(slots, id)], p)
  {
    hide At, JoinInv;
    ForwardReflexive(At(slots, id));
    JoinInvMove(cfg, slots, id, At(slots, id), p);
  }

  lemma CompleteIsWhole(cfg: Config, s: Slot)
    requires SlotOk(cfg, s)
    ensures s.upload.Some? && Complete(s.upload.value.info) ==> PartKept(s, s.upload.value.info.size)
  {}

  lemma OutsideKeeps(cfg: Config, sys: System, r: nat)
    requires Inv(cfg, sys) && r < |sys.procs| && IsFinalPost(cfg, sys.procs[r].req)
    requires JoinInv(cfg, sys.slots, sys.procs[r])
    requires !Owns(sys.procs[r].pc) && !sys.procs[r].pc.Sizing?
    ensures var m := NextStep(cfg, sys, r); m.Move? ==>
                  m.r == r && JoinInv(cfg, sys.slots[sys.procs[r].req.id := m.slot], m.proc)
  {
    hide Exclusive, RegistryAgrees, Sound, SlotOk, Parts, TooBig, CreationOf, Refusal;
    var p := sys.procs[r];
    var s := At(sys.slots, p.req.id);
    assert ProcOk(cfg, p, s);
    var parts := Parts(cfg, p.req);
    FormOfFinal(cfg, p.req);
    if p.pc.Creating? && s.creator.None? {
      NotItsOwnPart(sys.slots, p.req.id, parts, p.sizes);
    }
  }

  /** A part was there before the final upload. */
  lemma NotItsOwnPart(slots: map<ID, Slot>, id: ID, parts: seq<ID>, sizes: seq<int>)
    requires PartsKept(slots, parts, sizes) && |sizes| == |parts| && At(slots, id).creator.None?
    ensures id !in parts
  {
    hide At;
    forall j | 0 <= j < |parts|
      ensures parts[j] != id
    {
      assert PartKept(At(slots, parts[j]), sizes[j]);
    }
  }

  /** One more part is in place. */
  lemma JoinKeeps(cfg: Config, sys: System, r: nat)
    requires r < |sys.procs| && JoinInv(cfg, sys.slots, sys.procs[r]) && sys.procs[r].pc.Joining?
    ensures var m := NextStep(cfg, sys, r); m.Move? && JoinInv(cfg, sys.slots[sys.procs[r].req.id := m.slot], m.proc)
  {
    hide Parts, TooBig, HasAt, At;
    var p := sys.procs[r];
    var parts := Parts(cfg, p.req);
    var m := NextStep(cfg, sys, r);
    var s := At(sys.slots, p.req.id);
    assert StoresDiffer(sys.slots, p.req.id, m.slot, parts) by {
      forall j | 0 <= j < |parts|
        ensures At(sys.slots[p.req.id := m.slot], parts[j]) == At(sys.slots, parts[j])
      {
        AtAfter(sys.slots, p.req.id, m.slot, parts[j]);
      }
    }
    AtAfter(sys.slots, p.req.id, m.slot, p.req.id);
    if m.proc.pc.Joining? {
      assert PartKept(At(sys.slots, parts[p.joined]), p.sizes[p.joined]);
      JoinOneMore(sys.slots, parts, p.sizes, p.joined, s.upload.value.data);
    }
  }

  /** The other slots are the same in both stores. */
  ghost predicate StoresDiffer(slots: map<ID, Slot>, id: ID, t: Slot, parts: seq<ID>) {
    forall j :: 0 <= j < |parts| ==> At(slots[id := t], parts[j]) == At(slots, parts[j])
  }

  lemma JoinOneMore(slots: map<ID, Slot>, parts: seq<ID>, sizes: seq<int>, n: nat, data: seq<byte>)
    requires AllNat(sizes) && n < |parts| && JoinedUpTo(slots, parts, sizes, n, data)
    requires At(slots, parts[n]).upload.Some? && |At(slots, parts[n]).upload.value.data| == sizes[n]
    ensures JoinedUpTo(slots, parts, sizes, n + 1, data + At(slots, parts[n]).upload.value.data)
  {
    hide At;
    var b := At(slots, parts[n]).upload.value.data;
    SumPrefix(sizes, n);
    forall j | 0 <= j < n + 1 && At(slots, parts[j]).upload.Some?
      ensures HasAt(data + b, Sum(sizes[..j]), At(slots, parts[j]).upload.value.data)
    {
      if j < n {
        HasAtLonger(data, b, Sum(sizes[..j]), At(slots, parts[j]).upload.value.data);
      } else {
        assert (data + b)[|data|..|data| + |b|] == b;
      }
    }
  }

  lemma HasAtLonger(data: seq<byte>, more: seq<byte>, from: int, bytes: seq<byte>)
    requires HasAt(data, from, bytes)
    ensures HasAt(data + more, from, bytes)
  {
    assert (data + more)[from..from + |bytes|] == data[from..from + |bytes|];
  }

  /** The other steps of a final POST that has its ID. */
  lemma MicroKeeps(cfg: Config, sys: System, r: nat)
    requires Inv(cfg, sys) && r < |sys.procs| && IsFinalPost(cfg, sys.procs[r].req)
    requires JoinInv(cfg, sys.slots, sys.procs[r])
    requires Owns(sys.procs[r].pc) && !sys.procs[r].pc.Joining?
    requires var m := NextStep(cfg, sys, r);
             var s := At(sys.slots, sys.procs[r].req.id);
             m.Move? ==> Forward(s, m.slot) && StaysComplete(s, m.slot)
    ensures var m := NextStep(cfg, sys, r); m.Move? ==>
                  m.r == r && JoinInv(cfg, sys.slots[sys.procs[r].req.id := m.slot], m.proc)
  {
    hide Exclusive, RegistryAgrees, Sound, SlotOk, Parts, TooBig, CreationOf, IsFinalPost, FinalHolds, PartsKept, At,
         Forward, StaysComplete,
         HeadResponse, EnterWrite, FinalInfo;
    var p := sys.procs[r];
    var s := At(sys.slots, p.req.id);
    assert ProcOk(cfg, p, s);
    FinalMicro(cfg, p, s);
    FinalPath(cfg, p, s);
    FormOfFinal(cfg, p.req);
    var m := NextStep(cfg, sys, r);
    if m.Move? {
      PartsKeptMove(sys.slots, p.req.id, m.slot, Parts(cfg, p.req), p.sizes);
      if p.pc.NewlyCreated? {
        FinalHoldsMove(cfg, sys.slots, p.req.id, m.slot, p, m.proc, 0);
        FinalHoldsSize(cfg, sys.slots, p, 0);
      } else if p.pc.Announcing? || p.pc.Finishing? || p.pc.Emitting? || (p.pc.Leaving? && p.pc.response.Created?) {
        FinalHoldsMove(cfg, sys.slots, p.req.id, m.slot, p, m.proc, |Parts(cfg, p.req)|);
      }
    }
  }

  lemma FinalHoldsSize(cfg: Config, slots: map<ID, Slot>, p: Proc, n: nat)
    requires FinalHolds(cfg, slots, p, n)
    ensures At(slots, p.req.id).upload.Some? ==> At(slots, p.req.id).upload.value.info.size == Sum(p.sizes)
  {}

  /** Where a final POST that has its ID can be. */
  lemma FinalPath(cfg: Config, p: Proc, s: Slot)
    requires IsFinalPost(cfg, p.req) && Owns(p.pc) && Sound(cfg, p, s)
    ensures p.pc.NewlyCreated? ==> s.upload.Some? && s.upload.value.info.isFinal
    ensures p.pc.Finishing? || p.pc.Emitting? ==> p.pc.caller.AtEnd?
    ensures !p.pc.Ready? && !p.pc.Declaring? && !p.pc.Unregistering?
            && !p.pc.DeclaringEnd? && !p.pc.Asking? && !p.pc.Stopping?
  {
    hide WriteInv, BodyCap, CreationOf, IsFinalPost, TooLong;
    FormOfFinal(cfg, p.req);
  }

  /** The moving POST's own bookkeeping. */
  lemma MoverKeeps(cfg: Config, sys: System, ev: Event, ids: set<ID>)
    requires Inv(cfg, sys) && ConcatInv(cfg, sys, ids) && Bounded(cfg, sys, ids)
    requires var m := MoveOf(cfg, sys, ev); m.Move? && m.proc.req.id in ids ==> Sum(m.proc.sizes) <= MAX_INT64
    ensures var m := MoveOf(cfg, sys, ev);
            m.Move? && m.r < |sys.procs| && IsFinalPost(cfg, sys.procs[m.r].req) && sys.procs[m.r].req.id in ids ==>
              JoinInv(cfg, sys.slots[sys.procs[m.r].req.id := m.slot], m.proc)
  {
    hide Exclusive, RegistryAgrees, Sound, SlotOk, NextStep, Stored, WriteStep, IsFinalPost, Sole, JoinInv, Forward,
         StaysComplete, At, Owns, Inv, Bounded, Sum;
    var m := MoveOf(cfg, sys, ev);
    MovesFit(cfg, sys, ev);
    if m.Move? && m.r < |sys.procs| && IsFinalPost(cfg, sys.procs[m.r].req) && sys.procs[m.r].req.id in ids {
      OnlyByStep(cfg, sys, ev);
      StepsItself(cfg, sys, ev.r);
      EventOk(cfg, sys, ev);
      MoveStaysComplete(cfg, sys, ev, ids);
      var p := sys.procs[m.r];
      if p.pc.Joining? {
        JoinKeeps(cfg, sys, m.r);
      } else if Owns(p.pc) {
        MicroKeeps(cfg, sys, m.r);
      } else if p.pc.Sizing? {
        SizingKeeps(cfg, sys, m.r);
      } else {
        OutsideKeeps(cfg, sys, m.r);
      }
    }
  }

  /** A final POST transfers no body. */
  lemma OnlyByStep(cfg: Config, sys: System, ev: Event)
    requires Inv(cfg, sys)
    ensures var m := MoveOf(cfg, sys, ev); m.Move? && m.r < |sys.procs| && IsFinalPost(cfg, sys.procs[m.r].req) ==>
                  ev.Step?
  {
    hide Exclusive, RegistryAgrees, Sound, SlotOk, NextStep, Stored, WriteStep, IsFinalPost;
    var m := MoveOf(cfg, sys, ev);
    if m.Move? && m.r < |sys.procs| && IsFinalPost(cfg, sys.procs[m.r].req) && !ev.Step? {
      var p := sys.procs[m.r];
      assert ProcOk(cfg, p, At(sys.slots, p.req.id));
      FinalMicro(cfg, p, At(sys.slots, p.req.id));
    }
  }

  lemma SoleKept(cfg: Config, sys: System, ev: Event)
    requires Inv(cfg, sys) && Sole(cfg, sys)
    ensures Sole(cfg, Next(cfg, sys, ev))
  {
    hide Exclusive, RegistryAgrees, ProcOk, SlotOk, MoveOf, IsFinalPost, JoinInv, At, Owns, Registered, Grows;
    var m := MoveOf(cfg, sys, ev);
    MovesFit(cfg, sys, ev);
    NextInv(cfg, sys, ev);
    if m.Move? {
      var now := Next(cfg, sys, ev);
      forall r | 0 <= r < |now.procs| && Made(cfg, now.procs[r])
        ensures At(now.slots, now.procs[r].req.id).creator == Some(V1Final)
      {
        assert Forward(At(sys.slots, now.procs[r].req.id), At(now.slots, now.procs[r].req.id));
        if r == m.r { MadeByFinal(cfg, sys, ev); AtAfter(sys.slots, m.proc.req.id, m.slot, m.proc.req.id); }
      }
      forall q, r | 0 <= q < r < |now.procs| && Made(cfg, now.procs[q]) && Made(cfg, now.procs[r])
        ensures now.procs[q].req.id != now.procs[r].req.id
      {
        if q == m.r { OthersLeaveIt(cfg, sys, ev, r); }
        if r == m.r { OthersLeaveIt(cfg, sys, ev, q); }
      }
    }
  }

  lemma MadeByFinal(cfg: Config, sys: System, ev: Event)
    requires Inv(cfg, sys) && Sole(cfg, sys)
    ensures var m := MoveOf(cfg, sys, ev);
            m.Move? && m.r < |sys.procs| && Made(cfg, m.proc) ==> m.slot.creator == Some(V1Final)
  {
    hide Exclusive, RegistryAgrees, SlotOk, MoveOf, IsFinalPost, At, Grows;
    var m := MoveOf(cfg, sys, ev);
    MovesFit(cfg, sys, ev);
    EventOk(cfg, sys, ev);
    if m.Move? && Made(cfg, m.proc) {
      if Made(cfg, sys.procs[m.r]) {
      } else {
        FormOfFinal(cfg, m.proc.req);
        FreshIsSound(cfg, sys, ev);
      }
    }
  }

  /** A final POST that gets its ID has created a final upload. */
  lemma FreshIsSound(cfg: Config, sys: System, ev: Event)
    requires Inv(cfg, sys)
    ensures var m := MoveOf(cfg, sys, ev);
            m.Move? && m.r < |sys.procs| && IsFinalPost(cfg, sys.procs[m.r].req) && !Owns(sys.procs[m.r].pc) ==>
              && (Owns(m.proc.pc) ==> m.slot.creator == Some(V1Final))
              && !(m.proc.pc.Done? && m.proc.pc.response.Created?)
  {
    hide Exclusive, RegistryAgrees, SlotOk, NextStep, Stored, WriteStep, IsFinalPost, At, Sound;
    var m := MoveOf(cfg, sys, ev);
    if m.Move? && m.r < |sys.procs| && IsFinalPost(cfg, sys.procs[m.r].req) && !Owns(sys.procs[m.r].pc) {
      OnlyByStep(cfg, sys, ev);
      StepsItself(cfg, sys, ev.r);
      assert ProcOk(cfg, sys.procs[m.r], At(sys.slots, sys.procs[m.r].req.id));
      FreshStep(cfg, sys, m.r);
    }
  }

  lemma FreshStep(cfg: Config, sys: System, r: nat)
    requires r < |sys.procs| && IsFinalPost(cfg, sys.procs[r].req) && !Owns(sys.procs[r].pc)
    requires Outside(cfg, sys.procs[r])
    ensures var m := NextStep(cfg, sys, r);
            m.Move? ==>
              && (Owns(m.proc.pc) ==> m.slot.creator == Some(V1Final))
              && !(m.proc.pc.Done? && m.proc.pc.response.Created?)
  {
    hide At, Refusal, TooBig, Micro, IsFinalPost, CreationOf, Parts, Complete;
    FormOfFinal(cfg, sys.procs[r].req);
  }

  lemma NextConcat(cfg: Config, sys: System, ev: Event, ids: set<ID>)
    requires Inv(cfg, sys) && ConcatInv(cfg, sys, ids) && Bounded(cfg, sys, ids)
    requires Bounded(cfg, Next(cfg, sys, ev), ids)
    ensures ConcatInv(cfg, Next(cfg, sys, ev), ids)
  {
    hide Exclusive, RegistryAgrees, ProcOk, SlotOk, MoveOf, IsFinalPost, JoinInv, At, Owns, Registered, Sole, Forward,
         StaysComplete, Sum, Within, NotNegative, Parts, Sane;
    var m := MoveOf(cfg, sys, ev);
    MovesFit(cfg, sys, ev);
    SoleKept(cfg, sys, ev);
    if m.Move? {
      var now := Next(cfg, sys, ev);
      assert now.procs[m.r] == m.proc;
      assert m.proc.req.id in ids ==> ProcBounded(cfg, m.proc, ids);
      MoverKeeps(cfg, sys, ev, ids);
      MoveStaysComplete(cfg, sys, ev, ids);
      EventOk(cfg, sys, ev);
      forall id | id in ids
        ensures Within(At(now.slots, id)) && NotNegative(At(now.slots, id))
      {
        AtAfter(sys.slots, m.proc.req.id, m.slot, id);
        if id == m.proc.req.id {
          MoverWithin(cfg, sys, ev, ids);
          MoverNotNegative(cfg, sys, ev);
        }
      }
      forall r | 0 <= r < |now.procs| && IsFinalPost(cfg, now.procs[r].req) && now.procs[r].req.id in ids
        ensures JoinInv(cfg, now.slots, now.procs[r])
      {
        if r != m.r {
          assert ProcBounded(cfg, sys.procs[r], ids);
          if Made(cfg, sys.procs[r]) { OthersLeaveIt(cfg, sys, ev, r); }
          JoinInvMove(cfg, sys.slots, m.proc.req.id, m.slot, sys.procs[r]);
        }
      }
    }
  }

  /** A known size bounds the offset after the move. */
  lemma MoverWithin(cfg: Config, sys: System, ev: Event, ids: set<ID>)
    requires Inv(cfg, sys) && ConcatInv(cfg, sys, ids) && Bounded(cfg, sys, ids)
    requires var m := MoveOf(cfg, sys, ev);
             m.Move? && m.r < |sys.procs| && m.proc.req.id in ids && m.proc.req == sys.procs[m.r].req
             && (IsFinalPost(cfg, m.proc.req) ==> JoinInv(cfg, sys.slots[m.proc.req.id := m.slot], m.proc))
    ensures Within(MoveOf(cfg, sys, ev).slot)
  {
    hide Exclusive, RegistryAgrees, ProcOk, SlotOk, NextStep, Stored, WriteStep, IsFinalPost, JoinInv, At, Sole, Sum,
         Within,
         Parts, Sane;
    var m := MoveOf(cfg, sys, ev);
    assert ProcBounded(cfg, sys.procs[m.r], ids);
    MoveWithin(cfg, sys, ev);
    if sys.procs[m.r].pc.Joining? {
      OnlyFinalJoins(cfg, sys, m.r);
      StepsItself(cfg, sys, ev.r);
      EventOk(cfg, sys, ev);
      JoiningWithin(cfg, sys, m.r);
    }
  }

  lemma MoverNotNegative(cfg: Config, sys: System, ev: Event)
    requires Inv(cfg, sys)
    requires var m := MoveOf(cfg, sys, ev);
             m.Move? && m.r < |sys.procs| && m.proc.req == sys.procs[m.r].req
             && NotNegative(At(sys.slots, m.proc.req.id))
             && (IsFinalPost(cfg, m.proc.req) ==> JoinInv(cfg, sys.slots[m.proc.req.id := m.slot], m.proc))
    ensures NotNegative(MoveOf(cfg, sys, ev).slot)
  {
    hide Exclusive, RegistryAgrees, ProcOk, MoveOf, IsFinalPost, At, Sum, Parts, JoinInv;
    var m := MoveOf(cfg, sys, ev);
    var s := At(sys.slots, m.proc.req.id);
    EventOk(cfg, sys, ev);
    assert SlotOk(cfg, s);
    CreatesFinal(cfg, sys, ev);
    if s.creator.None? && m.slot.creator == Some(V1Final) {
      AtAfter(sys.slots, m.proc.req.id, m.slot, m.proc.req.id);
      FreshNotNegative(cfg, sys.slots[m.proc.req.id := m.slot], m.proc);
    }
  }

  lemma FreshNotNegative(cfg: Config, slots: map<ID, Slot>, p: Proc)
    requires JoinInv(cfg, slots, p) && p.pc.NewlyCreated?
    ensures NotNegative(At(slots, p.req.id))
  {
    hide At, Parts, TooBig, JoinedUpTo, PartKept;
    SumPrefix(p.sizes, 0);
  }

  /** Only the creation by a final POST makes a final upload. */
  lemma CreatesFinal(cfg: Config, sys: System, ev: Event)
    requires Inv(cfg, sys)
    ensures var m := MoveOf(cfg, sys, ev);
            m.Move? && m.r < |sys.procs| && At(sys.slots, sys.procs[m.r].req.id).creator.None?
            && m.slot.creator == Some(V1Final) ==>
              m.proc.pc.NewlyCreated? && IsFinalPost(cfg, m.proc.req)
  {
    hide Exclusive, RegistryAgrees, SlotOk, NextStep, Sound, WriteStep, At, IsFinalPost, WriteAt;
    var m := MoveOf(cfg, sys, ev);
    if m.Move? && m.r < |sys.procs| && ev.Step? && At(sys.slots, sys.procs[m.r].req.id).creator.None? {
      StepsItself(cfg, sys, ev.r);
      assert ProcOk(cfg, sys.procs[m.r], At(sys.slots, sys.procs[m.r].req.id));
      CreatesFinalStep(cfg, sys, ev.r);
    }
  }

  lemma CreatesFinalStep(cfg: Config, sys: System, r: nat)
    requires r < |sys.procs| && (!Owns(sys.procs[r].pc) ==> Outside(cfg, sys.procs[r]))
    requires At(sys.slots, sys.procs[r].req.id).creator.None?
    ensures var m := NextStep(cfg, sys, r);
            m.Move? && m.slot.creator == Some(V1Final) ==> m.proc.pc.NewlyCreated? && IsFinalPost(cfg, m.proc.req)
  {
    hide At, Refusal, TooBig, Micro, CreationOf, Parts, Complete, AfterEntry, FinalInfo;
    var p := sys.procs[r];
    if Owns(p.pc) { MicroKeepsCreator(cfg, p.req, p.env, p.pc, At(sys.slots, p.req.id)); }
    if p.pc.Creating? { PlainIsPlain(cfg, p.req); }
  }

  lemma PlainIsPlain(cfg: Config, req: Request)
    ensures req.Post? && CreationOf(cfg, req).Plain? ==> !CreationOf(cfg, req).info.isFinal
  {
    if req.Post? && CreationOf(cfg, req).Plain? { PlainCreation(cfg, req); }
  }

  lemma MicroKeepsCreator(cfg: Config, req: Request, env: Env, pc: Pc, s: Slot)
    ensures Micro(cfg, req, env, pc, s).slot.creator == s.creator
  {
    hide CreationOf, TooLong, WriteAt, HeadResponse, Begun;
  }

  lemma JoiningWithin(cfg: Config, sys: System, r: nat)
    requires r < |sys.procs| && sys.procs[r].pc.Joining? && Within(At(sys.slots, sys.procs[r].req.id))
    requires var m := NextStep(cfg, sys, r);
             m.Move? && SlotOk(cfg, m.slot) && JoinInv(cfg, sys.slots[sys.procs[r].req.id := m.slot], m.proc)
    ensures Within(NextStep(cfg, sys, r).slot)
  {
    hide Parts, TooBig, HasAt, PartKept;
    var p := sys.procs[r];
    var m := NextStep(cfg, sys, r);
    AtAfter(sys.slots, p.req.id, m.slot, p.req.id);
    if m.proc.pc.Joining? {
      SumPrefix(m.proc.sizes, m.proc.joined);
    }
  }

  /** The sizes a final POST has read only grow. */
  lemma SizesGrow(cfg: Config, sys: System, ev: Event, ids: set<ID>)
    requires Inv(cfg, sys) && Bounded(cfg, Next(cfg, sys, ev), ids)
    ensures Bounded(cfg, sys, ids)
  {
    hide Exclusive, RegistryAgrees, SlotOk, ProcOk, MoveOf, Sum, At, Sane, Parts;
    var m := MoveOf(cfg, sys, ev);
    MovesFit(cfg, sys, ev);
    forall r | 0 <= r < |sys.procs| && sys.procs[r].req.id in ids
      ensures ProcBounded(cfg, sys.procs[r], ids)
    {
      assert ProcBounded(cfg, Next(cfg, sys, ev).procs[r], ids);
      if m.Move? && r == m.r { SizesGrowOne(cfg, sys, ev); }
    }
  }

  lemma SizesGrowOne(cfg: Config, sys: System, ev: Event)
    requires Inv(cfg, sys)
    ensures var m := MoveOf(cfg, sys, ev); m.Move? && m.r < |sys.procs| ==>
                  Sum(sys.procs[m.r].sizes) <= Sum(m.proc.sizes)
  {
    hide Exclusive, RegistryAgrees, SlotOk, ProcOk, Micro, Stored, WriteStep, Sum, At, Parts, AfterEntry, CreationOf;
    var m := MoveOf(cfg, sys, ev);
    if m.Move? && m.r < |sys.procs| && m.proc.sizes != sys.procs[m.r].sizes {
      var p := sys.procs[m.r];
      var part := At(sys.slots, Parts(cfg, p.req)[|p.sizes|]).upload;
      SumSnoc(p.sizes, part.value.info.size);
    }
  }

  lemma InitialConcat(cfg: Config, start: System, ids: set<ID>)
    requires Initial(start)
    ensures ConcatInv(cfg, start, ids)
  {}

  lemma {:induction false} RunConcatInv(cfg: Config, start: System, evs: seq<Event>, ids: set<ID>)
    requires Initial(start) && Bounded(cfg, Run(cfg, start, evs), ids)
    ensures ConcatInv(cfg, Run(cfg, start, evs), ids)
  {
    hide Next, ConcatInv, Inv, Bounded;
    if evs == [] {
      InitialConcat(cfg, start, ids);
    } else {
      var front := evs[..|evs| - 1];
      InitialInv(cfg, start);
      RunInv(cfg, start, front);
      SizesGrow(cfg, Run(cfg, start, front), evs[|evs| - 1], ids);
      RunConcatInv(cfg, start, front, ids);
      NextConcat(cfg, Run(cfg, start, front), evs[|evs| - 1], ids);
    }
  }

  lemma ReachableConcat(cfg: Config, sys: System, ids: set<ID>)
    requires Reachable(cfg, sys) && Bounded(cfg, sys, ids)
    ensures ConcatInv(cfg, sys, ids)
  {
    hide Run, ConcatInv, Bounded;
    var start: System, evs: seq<Event> :| Initial(start) && sys == Run(cfg, start, evs);
    RunConcatInv(cfg, start, evs, ids);
  }

  // ------------------------------------------------------------------ the result of a concatenation

  /** The bytes of the named uploads, one after the other. */
  function Join(slots: map<ID, Slot>, parts: seq<ID>): seq<byte> {
    if parts == [] then []
    else
      var last := At(slots, parts[|parts| - 1]).upload;
      Join(slots, parts[..|parts| - 1]) + (if last.Some? then last.value.data else [])
  }

  ghost predicate AllThere(slots: map<ID, Slot>, parts: seq<ID>) {
    forall j :: 0 <= j < |parts| ==> At(slots, parts[j]).upload.Some?
  }

  lemma {:induction false} JoinedIsJoin(slots: map<ID, Slot>, parts: seq<ID>, sizes: seq<int>, n: nat, data: seq<byte>)
    requires PartsKept(slots, parts, sizes) && AllThere(slots, parts)
    requires |sizes| == |parts| && JoinedUpTo(slots, parts, sizes, |parts|, data) && n <= |parts|
    ensures 0 <= Sum(sizes[..n]) <= |data| && data[..Sum(sizes[..n])] == Join(slots, parts[..n])
  {
    hide At, Sum, HasAt, PartKept;
    assert sizes[..|parts|] == sizes;
    SumPrefix(sizes, n);
    if n == 0 {
      SumEmpty(sizes[..n]);
    } else {
      JoinedIsJoin(slots, parts, sizes, n - 1, data);
      SumPrefix(sizes, n - 1);
      var part := At(slots, parts[n - 1]);
      assert PartKept(part, sizes[n - 1]);
      PartLength(part, sizes[n - 1]);
      HasAtExtends(data, Sum(sizes[..n - 1]), part.upload.value.data);
      JoinSnoc(slots, parts[..n - 1], parts[n - 1]);
      assert parts[..n - 1] + [parts[n - 1]] == parts[..n];
    }
  }

  lemma SumEmpty(sizes: seq<int>)
    ensures sizes == [] ==> Sum(sizes) == 0
  {}

  lemma PartLength(s: Slot, size: int)
    requires PartKept(s, size) && s.upload.Some?
    ensures |s.upload.value.data| == size
  {}

  lemma HasAtExtends(data: seq<byte>, from: int, bytes: seq<byte>)
    requires HasAt(data, from, bytes)
    ensures 0 <= from && from + |bytes| <= |data| && data[..from + |bytes|] == data[..from] + bytes
  {}

  lemma JoinSnoc(slots: map<ID, Slot>, parts: seq<ID>, part: ID)
    requires At(slots, part).upload.Some?
    ensures Join(slots, parts + [part]) == Join(slots, parts) + At(slots, part).upload.value.data
  {
    hide At;
    assert (parts + [part])[..|parts|] == parts;
  }

  /**
   Concatenation.  Whenever a final POST has answered success, its upload, until it is deleted,
   names the parts of the header in their order, its size is its offset, within MaxSize, and its
   bytes are those of the parts in that order, as long as none of them is deleted: however the
   POST's steps interleave with other requests, and for parts that are final uploads too.
   */
  lemma Concatenated(cfg: Config, sys: System, r: nat, ids: set<ID>)
    requires Reachable(cfg, sys) && Bounded(cfg, sys, ids)
    requires r < |sys.procs| && sys.procs[r].req.id in ids && sys.procs[r].pc.Done? && sys.procs[r].pc.response.Created?
    ensures IsFinalPost(cfg, sys.procs[r].req) ==>
              var parts := Parts(cfg, sys.procs[r].req);
              var s := At(sys.slots, sys.procs[r].req.id);
              s.upload.Some? ==>
                var info, data := s.upload.value.info, s.upload.value.data;
                && info.isFinal && info.partialUploads == parts
                && info.size == info.offset == |data| && !TooBig(cfg, info.size)
                && (AllThere(sys.slots, parts) ==> data == Join(sys.slots, parts))
  {
    hide Inv, IsFinalPost, Parts, TooBig, At, Reachable, Join, Bounded, JoinInv, AllThere, Sole, Within;
    ReachableInv(cfg, sys);
    ReachableConcat(cfg, sys, ids);
    if IsFinalPost(cfg, sys.procs[r].req) {
      FinishedConcat(cfg, sys, r);
    }
  }

  lemma FinishedConcat(cfg: Config, sys: System, r: nat)
    requires Inv(cfg, sys) && r < |sys.procs| && IsFinalPost(cfg, sys.procs[r].req)
    requires JoinInv(cfg, sys.slots, sys.procs[r])
    requires sys.procs[r].pc.Done? && sys.procs[r].pc.response.Created?
    ensures var parts := Parts(cfg, sys.procs[r].req);
            var s := At(sys.slots, sys.procs[r].req.id);
            s.upload.Some? ==>
              var info, data := s.upload.value.info, s.upload.value.data;
              && info.isFinal && info.partialUploads == parts
              && info.size == info.offset == |data| && !TooBig(cfg, info.size)
              && (AllThere(sys.slots, parts) ==> data == Join(sys.slots, parts))
  {
    hide IsFinalPost, Parts, TooBig, At, Exclusive, RegistryAgrees, ProcOk;
    var p := sys.procs[r];
    var parts := Parts(cfg, p.req);
    var s := At(sys.slots, p.req.id);
    assert SlotOk(cfg, s);
    if s.upload.Some? {
      assert p.sizes[..|parts|] == p.sizes;
      var data := s.upload.value.data;
      if AllThere(sys.slots, parts) {
        JoinedIsJoin(sys.slots, parts, p.sizes, |parts|, data);
        assert data[..|data|] == data && parts[..|parts|] == parts;
      }
    }
  }

  lemma PartsOfFinal(cfg: Config, req: Request)
    requires IsFinalPost(cfg, req)
    ensures Parts(cfg, req) != []
  {
    SomeParts(cfg, req);
  }

  /**
   What HEAD prints of a final upload, in any state after its POST has answered success, parses
   back into the very list of parts that the POST's own header was parsed into, if and only if
   the base path is unambiguous.
   */
  lemma HeadPrintsParts(cfg: Config, sys: System, r: nat, ids: set<ID>, env: Env, loc: UploadConcat.Location)
    requires Reachable(cfg, sys) && Bounded(cfg, sys, ids) && env.lock.None? && env.lookup.None? && env.info.None?
    requires r < |sys.procs| && sys.procs[r].req.id in ids && sys.procs[r].req.id != ""
    requires sys.procs[r].pc.Done? && sys.procs[r].pc.response.Created?
    ensures var req := sys.procs[r].req;
            var parts := Parts(cfg, req);
            var answer := Handle(cfg, Head(req.id, false), env, [], At(sys.slots, req.id)).response;
            IsFinalPost(cfg, req) && At(sys.slots, req.id).upload.Some? ==>
              && answer.HeadV1? && answer.final == Some(parts)
              && (loc.basePath == cfg.basePath && UploadConcat.PlainLocation(loc) ==>
                    UploadConcat.OnlyPlainIDs(parts) ==>
                    (UploadConcat.ParseConcat(UploadConcat.Printed(loc, answer.final.value), cfg.basePath)
                       == UploadConcat.Concat(false, true, parts, None)
                     <==> UploadConcat.Unambiguous(loc)))
  {
    hide Inv, JoinInv, Sole, Within, IsFinalPost, Parts, UploadConcat.ParseConcat, UploadConcat.Printed,
         UploadConcat.PlainLocation, UploadConcat.OnlyPlainIDs, CreationOf, At, Reachable, Bounded;
    ReachableInv(cfg, sys);
    ReachableConcat(cfg, sys, ids);
    if IsFinalPost(cfg, sys.procs[r].req) {
      FinishedConcat(cfg, sys, r);
      PartsOfFinal(cfg, sys.procs[r].req);
      if UploadConcat.PlainLocation(loc) && UploadConcat.OnlyPlainIDs(Parts(cfg, sys.procs[r].req)) {
        UploadConcat.RoundTrip(loc, Parts(cfg, sys.procs[r].req));
      }
    }
  }
}
