/**
 What holds of all uploads, those made by concatenation included, wherever the code's 64-bit sums
 are exact: sizes bound offsets, those of v1 uploads respect MaxSize, only complete uploads are
 finished, and a complete upload is never changed.
 */
module Bounds {
  import opened Prelude
  import opened BodyReaders
  import opened Lifecycle
  import opened Steps
  import opened Invariants
  import opened Safety
  import opened Sizes
  import opened Concat

  /**
   In every reachable state the offset counts the stored bytes and a known v1 size respects
   MaxSize; and it bounds the offset, before, during and after uploads and concatenations, failed
   ones too.  A known draft size bounds the offset as well; if it is negative nothing is stored.
   */
  lemma SizeInvariant(cfg: Config, sys: System, id: ID, ids: set<ID>)
    requires Reachable(cfg, sys)
    ensures var s := At(sys.slots, id);
            s.upload.Some? ==>
              var info := s.upload.value.info;
              && info.offset == |s.upload.value.data|
              && (s.creator == Some(V1Final) ==> !info.sizeIsDeferred)
              && (s.creator != Some(Draft) && !info.sizeIsDeferred ==>
                    && (cfg.maxSize > 0 ==> info.size <= cfg.maxSize)
                    && (Bounded(cfg, sys, ids) && id in ids ==> 0 <= info.offset <= info.size))
              && (s.creator == Some(Draft) && !info.sizeIsDeferred && Bounded(cfg, sys, ids) && id in ids ==>
                    info.offset <= Max(info.size, 0))
  {
    hide Reachable, Bounded, Sole, JoinInv;
    ReachableInv(cfg, sys);
    assert SlotOk(cfg, At(sys.slots, id));
    if Bounded(cfg, sys, ids) {
      ReachableConcat(cfg, sys, ids);
    }
  }

  /**
   FinishUpload is called at most once per ID in any run, on an upload whose declared size is
   its offset; the complete event is sent at most once too, or twice for a final upload of
   total size zero.
   */
  lemma FinishedOnce(cfg: Config, sys: System, id: ID, ids: set<ID>)
    requires Reachable(cfg, sys)
    ensures var s := At(sys.slots, id);
            && s.finishes <= 1 && s.completes <= 2
            && (s.finishes == 1 && s.upload.Some? && s.creator != Some(V1Final) ==> Complete(s.upload.value.info))
            && (s.finishes == 1 && s.upload.Some? && Bounded(cfg, sys, ids) && id in ids ==>
                  Complete(s.upload.value.info))
            && (s.finishes == 1 && s.upload.Some? && s.creator == Some(V1Final) ==> s.upload.value.info.size == 0)
            && (s.completes == 2 ==> s.creator == Some(V1Final) && (s.upload.Some? ==> s.upload.value.info.size == 0))
  {
    hide Reachable, Bounded;
    ReachableInv(cfg, sys);
    SizeInvariant(cfg, sys, id, ids);
    assert SlotOk(cfg, At(sys.slots, id));
  }

  lemma {:induction false} RunStays(cfg: Config, sys: System, evs: seq<Event>, id: ID, ids: set<ID>)
    requires Inv(cfg, sys) && ConcatInv(cfg, sys, ids) && Bounded(cfg, Run(cfg, sys, evs), ids) && id in ids
    ensures Bounded(cfg, sys, ids) && ConcatInv(cfg, Run(cfg, sys, evs), ids)
    ensures StaysComplete(At(sys.slots, id), At(Run(cfg, sys, evs).slots, id))
  {
    hide Next, ConcatInv, Inv, Bounded, StaysComplete, Forward;
    if evs == [] {
      SameStays(At(sys.slots, id));
    } else {
      var front := evs[..|evs| - 1];
      var mid := Run(cfg, sys, front);
      RunInv(cfg, sys, front);
      SizesGrow(cfg, mid, evs[|evs| - 1], ids);
      RunStays(cfg, sys, front, id, ids);
      NextConcat(cfg, mid, evs[|evs| - 1], ids);
      NextStays(cfg, mid, evs[|evs| - 1], id, ids);
      NextInv(cfg, mid, evs[|evs| - 1]);
      StaysTransitive(cfg, sys, mid, At(Run(cfg, sys, evs).slots, id), id);
    }
  }

  lemma StaysTransitive(cfg: Config, sys: System, mid: System, u: Slot, id: ID)
    requires Inv(cfg, sys) && Inv(cfg, mid)
    requires StaysComplete(At(sys.slots, id), At(mid.slots, id)) && StaysComplete(At(mid.slots, id), u)
    requires Forward(At(sys.slots, id), At(mid.slots, id)) && Forward(At(mid.slots, id), u)
    ensures StaysComplete(At(sys.slots, id), u)
  {
    hide Exclusive, RegistryAgrees, ProcOk, At, Grows;
    assert SlotOk(cfg, At(sys.slots, id)) && SlotOk(cfg, At(mid.slots, id));
  }

  lemma NextStays(cfg: Config, sys: System, ev: Event, id: ID, ids: set<ID>)
    requires Inv(cfg, sys) && ConcatInv(cfg, sys, ids) && Bounded(cfg, sys, ids) && id in ids
    ensures StaysComplete(At(sys.slots, id), At(Next(cfg, sys, ev).slots, id))
  {
    hide Inv, ConcatInv, Bounded, MoveOf, StaysComplete, At, Owns, Registered;
    var m := MoveOf(cfg, sys, ev);
    MovesFit(cfg, sys, ev);
    MoveStaysComplete(cfg, sys, ev, ids);
    SameStays(At(sys.slots, id));
    if m.Move? {
      AtAfter(sys.slots, m.proc.req.id, m.slot, id);
    }
  }

  /** From a reachable state in which an upload is complete on, nothing changes it but its removal. */
  lemma CompleteForGood(cfg: Config, sys: System, evs: seq<Event>, id: ID, ids: set<ID>)
    requires Reachable(cfg, sys) && Bounded(cfg, Run(cfg, sys, evs), ids) && id in ids
    ensures var s, t := At(sys.slots, id), At(Run(cfg, sys, evs).slots, id);
            s.upload.Some? && Complete(s.upload.value.info) && t.upload.Some? ==> t.upload == s.upload
  {
    hide Run, Inv, Bounded, ConcatInv, Reachable;
    ReachableInv(cfg, sys);
    BoundedBefore(cfg, sys, evs, ids);
    ReachableConcat(cfg, sys, ids);
    RunStays(cfg, sys, evs, id, ids);
  }

  lemma {:induction false} BoundedBefore(cfg: Config, sys: System, evs: seq<Event>, ids: set<ID>)
    requires Inv(cfg, sys) && Bounded(cfg, Run(cfg, sys, evs), ids)
    ensures Bounded(cfg, sys, ids)
  {
    hide Next, Inv, Bounded, Forward;
    if evs != [] {
      var front := evs[..|evs| - 1];
      RunInv(cfg, sys, front);
      SizesGrow(cfg, Run(cfg, sys, front), evs[|evs| - 1], ids);
      BoundedBefore(cfg, sys, front, ids);
    }
  }
}
