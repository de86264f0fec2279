/**
 Resumability.  If every request body for an ID is the file F from the offset the request
 declares, possibly cut short by a failure, then in every reachable state the store holds a
 prefix of F: whatever fails, stops, is retried or interleaves.
 */
module Resume {
  import opened Prelude
  import opened BodyReaders
  import opened Lifecycle
  import opened Steps
  import opened Invariants
  import opened Safety
  import opened Serial
  import opened Consequences

  /** A request's body, up to where its stream ends or fails, is F from the offset on. */
  ghost predicate SendsSuffix(cfg: Config, req: Request, file: seq<byte>) {
    && (req.Patch? && req.body.Some? && req.offset.Value? && req.offset.n >= 0 ==>
          req.offset.n <= |file| && Offered(req.body.value) <= file[req.offset.n..])
    && (req.Post? && req.body.Some? ==> Offered(req.body.value) <= file)
    && !IsFinalPost(cfg, req)
  }

  ghost predicate AllSend(cfg: Config, sys: System, id: ID, file: seq<byte>) {
    forall r :: 0 <= r < |sys.procs| && sys.procs[r].req.id == id ==> SendsSuffix(cfg, sys.procs[r].req, file)
  }

  ghost predicate HoldsPrefix(s: Slot, file: seq<byte>) {
    s.upload.Some? ==> s.upload.value.data <= file
  }

  /** The store, and every request when it got the ID, has a prefix of the file. */
  ghost predicate PrefixInv(sys: System, id: ID, file: seq<byte>) {
    && HoldsPrefix(At(sys.slots, id), file)
    && forall r :: r in sys.order && r < |sys.procs| && sys.procs[r].req.id == id ==>
          HoldsPrefix(sys.procs[r].base, file)
  }

  /** Outside a body transfer and a concatenation no step changes stored bytes. */
  lemma MicroKeepsData(cfg: Config, p: Proc, s: Slot)
    requires Owns(p.pc) && !p.pc.Writing? && !p.pc.Joining? && !p.pc.Leaving?
    requires Sound(cfg, p, s) && SlotOk(cfg, s)
    ensures var t := Micro(cfg, p.req, p.env, p.pc, s).slot;
            t.upload.Some? ==> s.upload.Some? && t.upload.value.data == s.upload.value.data
  {
    hide WriteInv, BodyCap, CreationOf, UploadOk, HeadResponse;
    if p.pc.Ready? {
      assert SlotOk(cfg, s);
      ReadyKeepsData(cfg, p, s);
    }
  }

  lemma ReadyKeepsData(cfg: Config, p: Proc, s: Slot)
    requires p.pc.Ready? && Sound(cfg, p, s) && SlotOk(cfg, s)
    ensures var t := Micro(cfg, p.req, p.env, p.pc, s).slot;
            t.upload.Some? ==> s.upload.Some? && t.upload.value.data == s.upload.value.data
  {
    hide BodyCap, CreationOf, TooLong;
    var info, data := p.pc.info, s.upload.value.data;
    assert |data| == info.offset;
    assert WriteAt(data, info.offset, []) == data;
  }

  /** Bytes of the file written at their place give a prefix of it again. */
  lemma PrefixGrows(file: seq<byte>, data: seq<byte>, offset: nat, more: seq<byte>)
    requires offset <= |data| && data <= file && more <= file[offset..]
    ensures WriteAt(data, offset, more) <= file
  {
    assert Cut(data, offset) == data[..offset] == file[..offset];
    assert Zeros(offset - |data|) == [];
    assert file == file[..offset] + file[offset..];
  }

  /** A transfer writes the file's own bytes at their place. */
  lemma TransferKeepsPrefix(cfg: Config, p: Proc, s: Slot, e: WriteEvent, file: seq<byte>)
    requires p.pc.Writing? && Sound(cfg, p, s) && HoldsPrefix(s, file)
    requires p.pc.info.offset <= |file| && Offered(p.req.body.value) <= file[p.pc.info.offset..]
    ensures HoldsPrefix(Stored(s, p.pc.info, WriteStep(p.pc.w, e)), file)
  {
    hide BodyCap, TooLong, Offered, IsFinalPost, WriteStep, WriteAt, WriteInv;
    var info, v := p.pc.info, WriteStep(p.pc.w, e);
    var source, cap := p.req.body.value, BodyCap(cfg, info, p.req.length);
    WriteStepInv(p.pc.w, e, source, cap);
    GotIsOffered(v, source, cap);
    CutIsPrefix(v);
    PrefixGrows(file, s.upload.value.data, info.offset, Cut(v.got, v.kept));
  }

  lemma CutIsPrefix(w: Write)
    ensures Cut(w.got, w.kept) <= w.got
  {}

  /** A body is written where its request says. */
  lemma WritesWhereDeclared(cfg: Config, p: Proc, s: Slot, file: seq<byte>)
    requires p.pc.Writing? && SendsSuffix(cfg, p.req, file) && Sound(cfg, p, s) && Tracks(cfg, p, s)
    requires SlotOk(cfg, p.base)
    ensures p.pc.info.offset <= |file| && Offered(p.req.body.value) <= file[p.pc.info.offset..]
  {
    hide CreationOf, SlotOk, Offered, Prepare, WriteInv, BodyCap, TooLong;
    if p.req.Patch? {
      WritesIntoUpload(cfg, p.req, p.env, p.base);
    } else {
      PostWritesAtZero(cfg, p.req, p.env, p.base);
      assert file[0..] == file;
    }
  }

  lemma PostWritesAtZero(cfg: Config, req: Request, env: Env, s: Slot)
    requires req.Post? && !IsFinalPost(cfg, req)
    ensures var b := Prepare(cfg, req, env, s); b.Writes? ==> b.info.offset == 0
  {
    hide CreationOf, TooLong;
    if CreationOf(cfg, req).Plain? { PlainCreation(cfg, req); }
  }

  lemma StepPrefix(cfg: Config, sys: System, r: nat, file: seq<byte>)
    requires Inv(cfg, sys) && r < |sys.procs| && HoldsPrefix(At(sys.slots, sys.procs[r].req.id), file)
    requires !IsFinalPost(cfg, sys.procs[r].req)
    ensures var m := NextStep(cfg, sys, r); m.Move? ==> m.r == r && HoldsPrefix(m.slot, file)
  {
    hide Micro, AfterEntry, SlotOk, Exclusive, RegistryAgrees, CreationOf, Sound;
    var p := sys.procs[r];
    var s := At(sys.slots, p.req.id);
    assert ProcOk(cfg, p, s) && SlotOk(cfg, s);
    if p.pc.Joining? {
      OnlyFinalJoins(cfg, p, s);
    } else if Owns(p.pc) && !p.pc.Writing? && !p.pc.Leaving? {
      MicroKeepsData(cfg, p, s);
    }
  }

  lemma OnlyFinalJoins(cfg: Config, p: Proc, s: Slot)
    requires p.pc.Joining? && Sound(cfg, p, s)
    ensures IsFinalPost(cfg, p.req)
  {}

  lemma EventPrefix(cfg: Config, sys: System, ev: Event, id: ID, file: seq<byte>)
    requires SerialInv(cfg, sys) && PastInv(cfg, sys) && AllSend(cfg, sys, id, file) && PrefixInv(sys, id, file)
    ensures var m := MoveOf(cfg, sys, ev);
            m.Move? && m.r < |sys.procs| && sys.procs[m.r].req.id == id ==> HoldsPrefix(m.slot, file)
  {
    hide NextStep, Stored, WriteStep, SlotOk, Exclusive, RegistryAgrees, SendsSuffix, HoldsPrefix, Found, Settled,
         Tracks, Sound, CreationOf,
         SlotsBeyond, BasesBeyond;
    var m := MoveOf(cfg, sys, ev);
    if m.Move? && m.r < |sys.procs| && sys.procs[m.r].req.id == id {
      var p := sys.procs[m.r];
      var s := At(sys.slots, id);
      assert ProcOk(cfg, p, s) && OnTrack(cfg, p, s, m.r in sys.order) && SlotOk(cfg, s);
      assert SendsSuffix(cfg, p.req, file);
      NotFinal(cfg, p.req, file);
      if ev.Step? {
        StepsItself(cfg, sys, ev.r);
        StepPrefix(cfg, sys, ev.r, file);
      } else if p.pc.Writing? && !ev.Return? {
        assert m.r in sys.order;
        WritesWhereDeclared(cfg, p, s, file);
        TransferKeepsPrefix(cfg, p, s, if ev.Body? then ev.e else Stop, file);
      }
    }
  }

  lemma NotFinal(cfg: Config, req: Request, file: seq<byte>)
    requires SendsSuffix(cfg, req, file)
    ensures !IsFinalPost(cfg, req)
  {}

  /** A move keeps what the moving request knows of the slot it found, or records the slot as it is. */
  lemma ApplyPrefix(sys: System, m: Move, id: ID, file: seq<byte>)
    requires Ordered(sys) && PrefixInv(sys, id, file) && m.Move? && Fits(sys, m)
    requires sys.procs[m.r].req.id == id ==> HoldsPrefix(m.slot, file)
    requires Owns(sys.procs[m.r].pc) && m.proc.pc.Done? ==> m.proc.base == m.slot || m.proc.base == sys.procs[m.r].base
    ensures PrefixInv(Apply(sys, m.r, m.proc, m.slot), id, file)
  {
    hide HoldsPrefix, Owns, Registered, At;
    DoneOwnsNothing(m.proc.pc);
    var now := Apply(sys, m.r, m.proc, m.slot);
    if !Owns(sys.procs[m.r].pc) { NotYetOrdered(sys, m); }
    AtAfter(sys.slots, m.proc.req.id, m.slot, id);
    forall r | r in now.order && r < |now.procs| && now.procs[r].req.id == id
      ensures HoldsPrefix(now.procs[r].base, file)
    {
      if r != m.r {
        assert r in sys.order && now.procs[r] == sys.procs[r];
      }
    }
  }

  lemma NextPrefix(cfg: Config, sys: System, ev: Event, id: ID, file: seq<byte>)
    requires SerialInv(cfg, sys) && PastInv(cfg, sys) && AllSend(cfg, sys, id, file) && PrefixInv(sys, id, file)
    ensures AllSend(cfg, Next(cfg, sys, ev), id, file) && PrefixInv(Next(cfg, sys, ev), id, file)
  {
    hide MoveOf, PastInv, SendsSuffix, PrefixInv, Owns, Registered, Inv, Ordered, Found, Settled, OnTrack, Apply;
    var m := MoveOf(cfg, sys, ev);
    MovesFit(cfg, sys, ev);
    EventPrefix(cfg, sys, ev, id, file);
    NextKeepsProcs(cfg, sys, ev);
    LeavingBase(cfg, sys, ev);
    if m.Move? {
      ApplyPrefix(sys, m, id, file);
    }
  }

  lemma {:induction false} RunPrefix(cfg: Config, start: System, evs: seq<Event>, id: ID, file: seq<byte>)
    requires Initial(start) && AllSend(cfg, start, id, file)
    ensures AllSend(cfg, Run(cfg, start, evs), id, file) && PrefixInv(Run(cfg, start, evs), id, file)
  {
    hide Next, SerialInv, PastInv, SendsSuffix;
    if evs != [] {
      var front := evs[..|evs| - 1];
      RunPrefix(cfg, start, front, id, file);
      RunSerial(cfg, start, front);
      RunPast(cfg, start, front);
      NextPrefix(cfg, Run(cfg, start, front), evs[|evs| - 1], id, file);
    }
  }

  /** A run does not change what its requests send. */
  lemma {:induction false} RunKeepsRequests(cfg: Config, start: System, evs: seq<Event>)
    ensures |Run(cfg, start, evs).procs| == |start.procs|
    ensures forall r :: 0 <= r < |start.procs| ==> Run(cfg, start, evs).procs[r].req == start.procs[r].req
  {
    hide Next;
    if evs != [] {
      RunKeepsRequests(cfg, start, evs[..|evs| - 1]);
      NextKeepsProcs(cfg, Run(cfg, start, evs[..|evs| - 1]), evs[|evs| - 1]);
    }
  }

  lemma ReachablePrefix(cfg: Config, sys: System, id: ID, file: seq<byte>)
    requires Reachable(cfg, sys) && AllSend(cfg, sys, id, file)
    ensures PrefixInv(sys, id, file)
  {
    hide Run, PrefixInv, SendsSuffix;
    var start: System, evs: seq<Event> :| Initial(start) && sys == Run(cfg, start, evs);
    RunKeepsRequests(cfg, start, evs);
    RunPrefix(cfg, start, evs, id, file);
  }

  /**
   The promise of resumable uploads.  In every reachable state the stored bytes are the file
   up to the offset, and all of it once the offset is the file's length; and what HEAD and GET
   have answered at any point agrees with the file.
   */
  lemma Resumable(cfg: Config, sys: System, id: ID, file: seq<byte>)
    requires Reachable(cfg, sys) && AllSend(cfg, sys, id, file)
    ensures var s := At(sys.slots, id);
            s.upload.Some? ==>
              && s.upload.value.info.offset <= |file|
              && s.upload.value.data == file[..s.upload.value.info.offset]
              && (Complete(s.upload.value.info) && s.upload.value.info.size == |file| ==> s.upload.value.data == file)
    ensures forall r :: 0 <= r < |sys.procs| && sys.procs[r].req.id == id && sys.procs[r].pc.Done? ==>
              match sys.procs[r].pc.response
              case HeadV1(offset, _, _, _) => HeadIsHonest(sys.procs[r], offset, file)
              case HeadDraft(offset, _, _) => HeadIsHonest(sys.procs[r], offset, file)
              case Content(data) => GetIsHonest(sys.procs[r], data, file)
              case _ => true
  {
    hide SerialInv, PastInv, SlotOk, Reachable, AllSend;
    ReachablePrefix(cfg, sys, id, file);
    ReachableSerial(cfg, sys);
    ReachablePast(cfg, sys);
    ReachableInv(cfg, sys);
    assert SlotOk(cfg, At(sys.slots, id));
    SlotCounts(cfg, At(sys.slots, id));
    forall r | 0 <= r < |sys.procs| && sys.procs[r].req.id == id && sys.procs[r].pc.Done?
      ensures match sys.procs[r].pc.response
              case HeadV1(offset, _, _, _) => HeadIsHonest(sys.procs[r], offset, file)
              case HeadDraft(offset, _, _) => HeadIsHonest(sys.procs[r], offset, file)
              case Content(data) => GetIsHonest(sys.procs[r], data, file)
              case _ => true
    {
      AnswersAgree(cfg, sys, r, id, file);
    }
  }

  /** The offset a HEAD answered is how much of the file the store had when the HEAD got the lock. */
  ghost predicate HeadIsHonest(p: Proc, offset: nat, file: seq<byte>) {
    offset <= |file| && p.base.upload.Some? && p.base.upload.value.data == file[..offset]
  }

  /** What a GET answered is what the store had when the GET got the lock, and a part of the file. */
  ghost predicate GetIsHonest(p: Proc, data: seq<byte>, file: seq<byte>) {
    data <= file && p.base.upload.Some? && p.base.upload.value.data == data
  }

  lemma AnswersAgree(cfg: Config, sys: System, r: nat, id: ID, file: seq<byte>)
    requires SerialInv(cfg, sys) && PastInv(cfg, sys) && AllSend(cfg, sys, id, file) && PrefixInv(sys, id, file)
    requires r < |sys.procs| && sys.procs[r].req.id == id && sys.procs[r].pc.Done?
    ensures match sys.procs[r].pc.response
            case HeadV1(offset, _, _, _) => HeadIsHonest(sys.procs[r], offset, file)
            case HeadDraft(offset, _, _) => HeadIsHonest(sys.procs[r], offset, file)
            case Content(data) => GetIsHonest(sys.procs[r], data, file)
            case _ => true
  {
    hide Inv, Ordered, Found, Settled, SlotsBeyond, BasesBeyond, SendsSuffix, Handle, Tracks, SlotOk;
    var p := sys.procs[r];
    assert OnTrack(cfg, p, At(sys.slots, id), r in sys.order);
    assert SendsSuffix(cfg, p.req, file);
    NotFinal(cfg, p.req, file);
    if r in sys.order {
      var k :| 0 <= k < |sys.order| && sys.order[k] == r;
      assert SlotOk(cfg, p.base);
      HandleReports(cfg, p.req, p.env, p.plan, p.base);
    }
  }

  /** HEAD answers the offset of the slot, GET its data. */
  lemma HandleReports(cfg: Config, req: Request, env: Env, plan: seq<WriteEvent>, s: Slot)
    requires !IsFinalPost(cfg, req) && SlotOk(cfg, s)
    ensures match Handle(cfg, req, env, plan, s).response
            case HeadV1(offset, _, _, _) => s.upload.Some? && offset == |s.upload.value.data|
            case HeadDraft(offset, _, _) => s.upload.Some? && offset == |s.upload.value.data|
            case Content(data) => s.upload.Some? && data == s.upload.value.data
            case _ => true
  {
    hide CreationOf, TooLong, WriteRun, Stored;
  }
}
