/**
 From requests in a row to interleaved ones: an upload that nobody has is what serving the
 requests of its history one after the other leaves, whatever went on beside them.
 */
module Interleaved {
  import opened Prelude
  import opened BodyReaders
  import opened Lifecycle
  import opened Steps
  import opened Safety
  import opened Serial
  import opened Confluence

  /** The finished requests for an ID, in the order in which they got it. */
  function History(procs: seq<Proc>, order: seq<nat>, id: ID): seq<Exchange> {
    if order == [] then []
    else
      var r := order[|order| - 1];
      History(procs, order[..|order| - 1], id)
      + if r < |procs| && procs[r].pc.Done? && procs[r].req.id == id
          then [Exchange(procs[r].req, procs[r].env, procs[r].plan)] else []
  }

  /** None of them creates a final upload. */
  ghost predicate AllPlain(cfg: Config, xs: seq<Exchange>) {
    forall x :: x in xs ==> !IsFinalPost(cfg, x.req)
  }

  lemma {:induction false} ReplayIsServe(cfg: Config, procs: seq<Proc>, order: seq<nat>, id: ID)
    requires AllPlain(cfg, History(procs, order, id))
    ensures At(Replay(cfg, procs, order), id) == Serve(cfg, UNUSED, History(procs, order, id))
  {
    hide Handle, IsFinalPost;
    if order != [] {
      var n := |order| - 1;
      var front := History(procs, order[..n], id);
      assert forall x :: x in front ==> x in History(procs, order, id);
      ReplayIsServe(cfg, procs, order[..n], id);
      var r := order[n];
      assert front + [] == front;
      if r < |procs| && procs[r].pc.Done? {
        AtAfter(Replay(cfg, procs, order[..n]), procs[r].req.id,
                Effect(cfg, procs[r], At(Replay(cfg, procs, order[..n]), procs[r].req.id)), id);
        if procs[r].req.id == id {
          var x := Exchange(procs[r].req, procs[r].env, procs[r].plan);
          assert x in History(procs, order, id);
          assert (front + [x])[..|front|] == front;
        }
      }
    }
  }

  /**
   In every reachable state an upload that nobody has is what its history leaves, served one request
   after the other.
   */
  lemma InARow(cfg: Config, sys: System, id: ID)
    requires Reachable(cfg, sys) && id !in sys.owner && AllPlain(cfg, History(sys.procs, sys.order, id))
    ensures At(sys.slots, id) == Serve(cfg, UNUSED, History(sys.procs, sys.order, id))
  {
    hide Replay, Serve, At, AllPlain, Reachable;
    Serializable(cfg, sys);
    ReplayIsServe(cfg, sys.procs, sys.order, id);
  }

  // ------------------------------------------------------------------ requests that change nothing

  /** The exchanges that change the upload when served in a row; the others are as if they had not been made. */
  function Effective(cfg: Config, s: Slot, xs: seq<Exchange>): seq<Exchange>
    requires AllPlain(cfg, xs)
  {
    if xs == [] then []
    else
      var n := |xs| - 1;
      Effective(cfg, s, xs[..n]) + if Serve(cfg, s, xs) == Serve(cfg, s, xs[..n]) then [] else [xs[n]]
  }

  lemma {:induction false} EffectiveServes(cfg: Config, s: Slot, xs: seq<Exchange>)
    requires AllPlain(cfg, xs)
    ensures AllPlain(cfg, Effective(cfg, s, xs))
    ensures Serve(cfg, s, Effective(cfg, s, xs)) == Serve(cfg, s, xs)
  {
    hide Handle, IsFinalPost;
    if xs != [] {
      var n := |xs| - 1;
      EffectiveServes(cfg, s, xs[..n]);
      var front := Effective(cfg, s, xs[..n]);
      assert (front + [xs[n]])[..|front|] == front && front + [] == front;
    }
  }

  /**
   Requests that change nothing: every HEAD and GET, a DELETE if and only if it does not answer
   success, and every PATCH that does not get to write and declares no length.
   */
  lemma LeavesAlone(cfg: Config, x: Exchange, s: Slot)
    requires !IsFinalPost(cfg, x.req)
    ensures var o := Handle(cfg, x.req, x.env, x.plan, s);
            && (x.req.Head? || x.req.Get? ==> o.slot == s)
            && (x.req.Delete? ==> (o.slot == s <==> o.response != Deleted))
            && (x.req.Patch? && !x.req.declare.Value? && !Prepare(cfg, x.req, x.env, s).Writes? ==> o.slot == s)
  {
    hide CreationOf, TooLong, WriteRun, HasError;
  }

  /**
   Chunking confluence for interleaved runs: whatever else goes on, an upload whose requests were
   those of a full delivery of b, apart from any that changed nothing, ends with b, finished once.
   */
  lemma DeliveredInterleaved(cfg: Config, sys: System, id: ID, way: Way, b: seq<byte>)
    requires Reachable(cfg, sys) && id !in sys.owner && AllPlain(cfg, History(sys.procs, sys.order, id))
    requires FitsServer(cfg, b) && Proper(cfg, way, b)
    requires AllPlain(cfg, Exchanges(way))
    requires Effective(cfg, UNUSED, History(sys.procs, sys.order, id)) == Effective(cfg, UNUSED, Exchanges(way))
    ensures var s := At(sys.slots, id);
            && s.upload.Some? && s.upload.value.data == b
            && s.upload.value.info.size == s.upload.value.info.offset == |b|
            && !s.upload.value.info.sizeIsDeferred
            && s.finishes == 1 && s.completes == (if cfg.notifyCompleteUploads then 1 else 0)
  {
    hide Serve, At, Reachable, Proper, FitsServer, Exchanges, Effective, AllPlain;
    Confluent(cfg, way, b);
    InARow(cfg, sys, id);
    EffectiveServes(cfg, UNUSED, History(sys.procs, sys.order, id));
    EffectiveServes(cfg, UNUSED, Exchanges(way));
  }
}
