/**
 What the answers of a run say: a PATCH or a POST that succeeds answers the offset that the next
 HEAD reports, HEAD tells what the POST asked for, and whoever got a failure from FinishUpload has
 been told.
 */
module Honest {
  import opened Prelude
  import opened BodyReaders
  import opened Lifecycle
  import opened Answers
  import opened Effects
  import opened Steps
  import opened Invariants
  import opened Safety
  import opened Serial
  import opened Consequences
  import opened Conservation

  /** The slot of a request's ID before and after the requests up to its place in the order. */
  function Before(cfg: Config, sys: System, k: nat): Slot
    requires k < |sys.order| && sys.order[k] < |sys.procs|
  {
    At(Replay(cfg, sys.procs, sys.order[..k]), sys.procs[sys.order[k]].req.id)
  }

  function After(cfg: Config, sys: System, k: nat): Slot
    requires k < |sys.order| && sys.order[k] < |sys.procs|
  {
    At(Replay(cfg, sys.procs, sys.order[..k + 1]), sys.procs[sys.order[k]].req.id)
  }

  /** A finished request in its place. */
  predicate Served(cfg: Config, sys: System, k: nat) {
    && k < |sys.order| && sys.order[k] < |sys.procs|
    && sys.procs[sys.order[k]].pc.Done? && !IsFinalPost(cfg, sys.procs[sys.order[k]].req)
  }

  lemma InPlace(cfg: Config, sys: System, k: nat)
    requires SerialInv(cfg, sys) && PastInv(cfg, sys) && Kinds(cfg, sys) && Served(cfg, sys, k)
    ensures var p := sys.procs[sys.order[k]];
            && p.base == Before(cfg, sys, k) && SlotOk(cfg, p.base) && (p.req.Post? ==> p.base == UNUSED)
            && Handle(cfg, p.req, p.env, p.plan, p.base) == Outcome(After(cfg, sys, k), p.pc.response)
  {
    hide Inv, Ordered, Settled, Tracks, SlotsBeyond, BasesBeyond, Handle, IsFinalPost, At, UploadOk, Prepare;
    var r := sys.order[k];
    var p := sys.procs[r];
    assert r in sys.order && OnTrack(cfg, p, At(sys.slots, p.req.id), r in sys.order);
    assert sys.order[..k + 1][..k] == sys.order[..k] && sys.order[..k + 1][k] == r;
    AtAfter(Replay(cfg, sys.procs, sys.order[..k]), p.req.id, After(cfg, sys, k), p.req.id);
    ReplayLast(cfg, sys.procs, sys.order[..k], r);
    assert sys.order[..k + 1] == sys.order[..k] + [r];
  }

  /**
   In every reachable state each finished request has answered the truth about the upload it left:
   the offset, if it answered one; and an error, without a complete event, if its FinishUpload call
   or the callback behind it failed.
   */
  lemma AnswersHold(cfg: Config, sys: System, k: nat)
    requires Reachable(cfg, sys) && Served(cfg, sys, k)
    ensures var p := sys.procs[sys.order[k]];
            && TellsOffset(p.pc.response, p.req.id, After(cfg, sys, k))
            && TellsFailure(cfg, p.env, Before(cfg, sys, k), Outcome(After(cfg, sys, k), p.pc.response))
            && (p.pc.response.Patched? && Complete(InfoOf(Before(cfg, sys, k))) ==>
                  After(cfg, sys, k) == Before(cfg, sys, k))
  {
    hide Reachable, SerialInv, PastInv, Kinds, Handle, TellsOffset, TellsFailure, Before, After, IsFinalPost, SlotOk;
    ReachableSerial(cfg, sys);
    ReachablePast(cfg, sys);
    ReachableKinds(cfg, sys);
    InPlace(cfg, sys, k);
    var p := sys.procs[sys.order[k]];
    SlotCounts(cfg, p.base);
    AnswersAreHonest(cfg, p.req, p.env, p.plan, p.base);
  }

  /** The offset that a request has answered. */
  function Told(response: Response): Option<nat> {
    match response
    case Patched(n) => Some(n)
    case Created(_, uploaded) => uploaded
    case HeadV1(n, _, _, _) => Some(n)
    case HeadDraft(n, _, _) => Some(n)
    case _ => None
  }

  /**
   In every reachable state, a HEAD that is the next request to get an upload after a PATCH, a POST
   or a HEAD that answered an offset reports that offset, if it reports one.
   */
  lemma NextHeadAgrees(cfg: Config, sys: System, k: nat, j: nat)
    requires Reachable(cfg, sys) && Served(cfg, sys, k) && Served(cfg, sys, j) && k < j
    requires sys.procs[sys.order[j]].req.Head? && sys.procs[sys.order[j]].req.id == sys.procs[sys.order[k]].req.id
    requires forall i :: k < i < j && sys.order[i] < |sys.procs| ==>
               sys.procs[sys.order[i]].req.id != sys.procs[sys.order[k]].req.id
    ensures var told := Told(sys.procs[sys.order[k]].pc.response);
            var head := sys.procs[sys.order[j]].pc.response;
            told.Some? && !head.Err? ==> Told(head) == told
  {
    hide Reachable, SerialInv, PastInv, Kinds, Handle, IsFinalPost, SlotOk, Replay, At;
    ReachableSerial(cfg, sys);
    ReachablePast(cfg, sys);
    ReachableKinds(cfg, sys);
    InPlace(cfg, sys, k);
    InPlace(cfg, sys, j);
    AnswersHold(cfg, sys, k);
    var p, q := sys.procs[sys.order[k]], sys.procs[sys.order[j]];
    assert sys.order[..j][..k + 1] == sys.order[..k + 1];
    ReplayNoMore(cfg, sys.procs, sys.order[..j], k + 1, p.req.id);
    SlotCounts(cfg, p.base);
    SlotCounts(cfg, q.base);
    HeadTells(cfg, p, q);
  }

  lemma HeadTells(cfg: Config, p: Proc, q: Proc)
    requires q.req.Head? && Counted(q.base) && !IsFinalPost(cfg, p.req) && Counted(p.base)
    requires q.pc.Done? && q.pc.response == Handle(cfg, q.req, q.env, q.plan, q.base).response
    requires p.pc.Done? && Handle(cfg, p.req, p.env, p.plan, p.base) == Outcome(q.base, p.pc.response)
    requires TellsOffset(p.pc.response, p.req.id, q.base)
    ensures Told(p.pc.response).Some? && !q.pc.response.Err? ==> Told(q.pc.response) == Told(p.pc.response)
  {
    hide CreationOf, IsFinalPost, Handle;
    HeadReportsBytes(cfg, q.req, q.env, q.plan, q.base);
    OffsetTold(cfg, p.req, p.env, p.plan, p.base);
    if p.req.Head? {
      HeadReportsBytes(cfg, p.req, p.env, p.plan, p.base);
    }
  }

  lemma HeadReportsBytes(cfg: Config, req: Request, env: Env, plan: seq<WriteEvent>, s: Slot)
    requires req.Head?
    ensures var o := Handle(cfg, req, env, plan, s);
            o.slot == s && (!o.response.Err? ==> s.upload.Some? && Told(o.response) == Some(s.upload.value.info.offset))
  {
    hide CreationOf;
  }

  lemma OffsetTold(cfg: Config, req: Request, env: Env, plan: seq<WriteEvent>, s: Slot)
    requires !IsFinalPost(cfg, req)
    ensures var r := Handle(cfg, req, env, plan, s).response; r.HeadV1? || r.HeadDraft? ==> req.Head?
  {
    hide CreationOf, WriteRun, Stored, HasError, Begun, TooLong;
  }

  // ------------------------------------------------------------------ complete events

  /** The finished request in place k called FinishUpload, and what came of it. */
  ghost predicate Finisher(cfg: Config, sys: System, k: nat, id: ID, completes: nat) {
    && Served(cfg, sys, k) && sys.procs[sys.order[k]].req.id == id
    && After(cfg, sys, k).finishes > Before(cfg, sys, k).finishes
    && var p := sys.procs[sys.order[k]];
    && completes == (if FinishesWell(p.env) && cfg.notifyCompleteUploads then 1 else 0)
    && (!FinishesWell(p.env) ==> p.pc.response.Err?)
  }

  /** What the first n requests say of the FinishUpload calls and the complete events of an ID. */
  ghost predicate FinishStory(cfg: Config, sys: System, n: nat, id: ID)
    requires n <= |sys.order|
  {
    var s := At(Replay(cfg, sys.procs, sys.order[..n]), id);
    s.creator == Some(V1Final) || s.finishes > 1 || (s.finishes == 0 && s.completes == 0)
    || (s.finishes == 1 && exists k: nat :: k < n && Finisher(cfg, sys, k, id, s.completes))
  }

  lemma {:induction false} AllFinishes(cfg: Config, sys: System, n: nat, id: ID)
    requires SerialInv(cfg, sys) && PastInv(cfg, sys) && Kinds(cfg, sys) && Reachable(cfg, sys) && n <= |sys.order|
    ensures FinishStory(cfg, sys, n, id)
  {
    hide SerialInv, PastInv, Kinds, FinishStory, Reachable;
    if n == 0 {
      NoStory(cfg, sys, id);
    } else {
      AllFinishes(cfg, sys, n - 1, id);
      OneMoreFinish(cfg, sys, n - 1, id);
    }
  }

  lemma NoStory(cfg: Config, sys: System, id: ID)
    ensures FinishStory(cfg, sys, 0, id)
  {
    assert sys.order[..0] == [];
  }

  lemma OneMoreFinish(cfg: Config, sys: System, n: nat, id: ID)
    requires SerialInv(cfg, sys) && PastInv(cfg, sys) && Kinds(cfg, sys) && Reachable(cfg, sys) && n < |sys.order|
    requires FinishStory(cfg, sys, n, id)
    ensures FinishStory(cfg, sys, n + 1, id)
  {
    hide Reachable, Inv, Settled, OnTrack, Handle, IsFinalPost, SlotOk, SlotsBeyond, BasesBeyond, Owns, At, Found,
         TellsOffset, FinishStory, SerialInv, PastInv, Served;
    var r := sys.order[n];
    OrderedIn(cfg, sys, n);
    var p := sys.procs[r];
    assert sys.order[..n + 1][..n] == sys.order[..n] && sys.order[..n + 1][n] == r;
    var before := Replay(cfg, sys.procs, sys.order[..n]);
    if p.pc.Done? {
      AtAfter(before, p.req.id, Effect(cfg, p, At(before, p.req.id)), id);
    }
    if p.pc.Done? && p.req.id == id {
      if IsFinalPost(cfg, p.req) {
        FormOfFinal(cfg, p.req);
        assert At(Replay(cfg, sys.procs, sys.order[..n + 1]), id).creator == Some(V1Final);
        FinalStory(cfg, sys, n + 1, id);
      } else {
        assert Served(cfg, sys, n) by { IsServed(cfg, sys, n); }
        InPlace(cfg, sys, n);
        AnswersHold(cfg, sys, n);
        HandleAdds(cfg, p);
        StoryGrows(cfg, sys, n, id);
      }
    } else {
      SameStory(cfg, sys, n, id);
    }
  }

  lemma OrderedIn(cfg: Config, sys: System, n: nat)
    requires SerialInv(cfg, sys) && n < |sys.order|
    ensures sys.order[n] < |sys.procs| && sys.order[n] in sys.order
  {
    hide Inv, Settled, OnTrack, Found;
  }

  lemma IsServed(cfg: Config, sys: System, k: nat)
    requires k < |sys.order| && sys.order[k] < |sys.procs|
    requires sys.procs[sys.order[k]].pc.Done? && !IsFinalPost(cfg, sys.procs[sys.order[k]].req)
    ensures Served(cfg, sys, k)
  {
    hide IsFinalPost;
  }

  lemma FinalStory(cfg: Config, sys: System, n: nat, id: ID)
    requires n <= |sys.order| && At(Replay(cfg, sys.procs, sys.order[..n]), id).creator == Some(V1Final)
    ensures FinishStory(cfg, sys, n, id)
  {
    hide Replay, At;
  }

  lemma SameStory(cfg: Config, sys: System, n: nat, id: ID)
    requires n < |sys.order| && FinishStory(cfg, sys, n, id)
    requires At(Replay(cfg, sys.procs, sys.order[..n + 1]), id) == At(Replay(cfg, sys.procs, sys.order[..n]), id)
    ensures FinishStory(cfg, sys, n + 1, id)
  {
    hide Replay, At, Finisher;
  }

  lemma StoryGrows(cfg: Config, sys: System, n: nat, id: ID)
    requires n < |sys.order| && FinishStory(cfg, sys, n, id) && Served(cfg, sys, n)
    requires sys.procs[sys.order[n]].req.id == id
    requires var p := sys.procs[sys.order[n]];
             TellsFailure(cfg, p.env, Before(cfg, sys, n), Outcome(After(cfg, sys, n), p.pc.response))
    requires Before(cfg, sys, n).creator == Some(V1Final) ==> After(cfg, sys, n).creator == Some(V1Final)
    ensures FinishStory(cfg, sys, n + 1, id)
  {
    hide Replay, At, IsFinalPost, FinishesWell;
    var s, t := Before(cfg, sys, n), After(cfg, sys, n);
    if s.finishes == 1 && t.finishes == 1 && s.creator != Some(V1Final) {
      var k: nat :| k < n && Finisher(cfg, sys, k, id, s.completes);
      assert Finisher(cfg, sys, k, id, t.completes);
    } else if s.finishes == 0 && t.finishes == 1 && s.creator != Some(V1Final) {
      assert Finisher(cfg, sys, n, id, t.completes);
    }
  }

  /**
   In every reachable state, if FinishUpload was called for an upload that nobody has, and that is
   not a final one, one of its finished requests called it; the complete event was sent exactly if
   that call and the callback behind it succeeded, and otherwise that request has answered an error.
   Without such a call there is no event.  (CompleteEvents.FinalCompletes has the final ones.)
   */
  lemma EventsNeedFinish(cfg: Config, sys: System, id: ID)
    requires Reachable(cfg, sys) && id !in sys.owner && At(sys.slots, id).creator != Some(V1Final)
    ensures var s := At(sys.slots, id);
            || (s.finishes == 0 && s.completes == 0)
            || (s.finishes == 1 && exists k: nat :: Finisher(cfg, sys, k, id, s.completes))
  {
    hide Reachable, SerialInv, PastInv, Kinds, Finisher, At, Replay, SlotOk, ProcOk;
    ReachableSerial(cfg, sys);
    ReachablePast(cfg, sys);
    ReachableKinds(cfg, sys);
    ReachableInv(cfg, sys);
    AllFinishes(cfg, sys, |sys.order|, id);
    assert sys.order[..|sys.order|] == sys.order;
    SettledAt(cfg, sys, id);
    assert SlotOk(cfg, At(sys.slots, id));
    FinishesOnce(cfg, At(sys.slots, id));
  }

  lemma FinishesOnce(cfg: Config, s: Slot)
    requires SlotOk(cfg, s)
    ensures s.finishes <= 1
  {}
}
