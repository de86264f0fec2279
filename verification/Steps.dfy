/**
 The handlers as concurrent processes.

 Every request is cut at its store, locker and callback calls; a run interleaves the pieces
 of any number of requests in any order.  The locker is exclusive per ID.  A POST owns the ID
 that NewUpload gave it until it returns: the ID is fresh, and no other request knows it yet.
 Concatenation reads other uploads without their locks.
 */
module Steps {
  import opened Prelude
  import opened BodyReaders
  import opened Finals
  import opened Lifecycle

  // ------------------------------------------------------------------ one request

  /** Who called finishUploadIfComplete: writeChunk, with its pending error, or the end of a POST. */
  datatype Caller = FromWriteChunk(info: FileInfo, err: Option<Error>) | AtEnd(response: Response)

  /** The next thing a request does. */
  datatype Pc =
    // not yet in possession of an ID
    | Entry | Waiting | Sizing(total: int) | Creating(info: FileInfo)
    // in possession, before the body is read
    | Holding | Looked | Reading | Deleting | Declaring(info: FileInfo, n: int) | Ready(info: FileInfo) | NewlyCreated
    // inside WriteChunk, and just returned from it
    | Writing(info: FileInfo, w: Write) | Wrote(info: FileInfo, w: Write)
    // the rest of writeChunk
    | Stopping(info: FileInfo, err: Option<Error>, newOffset: nat)
    | Finishing(info: FileInfo, caller: Caller) | Emitting(info: FileInfo, caller: Caller)
    | Unregistering(info: FileInfo, err: Option<Error>, newOffset: nat)
    // the end of a draft POST
    | Asking(newOffset: nat) | DeclaringEnd(info: FileInfo, newOffset: nat)
    // a final upload
    | Joining(total: int) | Announcing(total: int)
    | Leaving(response: Response) | Done(response: Response)

  /**
   A request's process.  plan records the events of its body transfer, base the slot it found
   when it got its ID.  A final POST also remembers the sizes it read and how many parts are
   joined, and at its end base is the slot it leaves.
   */
  datatype Proc = Proc(req: Request, env: Env, pc: Pc, plan: seq<WriteEvent>, sizes: seq<int>, joined: nat, base: Slot)

  predicate Owns(pc: Pc) {
    !pc.Entry? && !pc.Waiting? && !pc.Sizing? && !pc.Creating? && !pc.Done?
  }

  /** Between RegisterStopCallback and UnregisterStopCallback. */
  predicate Registered(pc: Pc) {
    || pc.Writing? || pc.Wrote? || pc.Stopping? || pc.Unregistering?
    || (pc.Finishing? && pc.caller.FromWriteChunk?) || (pc.Emitting? && pc.caller.FromWriteChunk?)
  }

  datatype Local = Local(pc: Pc, slot: Slot)

  function AfterPrepare(cfg: Config, req: Request, next: Prepared): Local {
    match next
    case Answered(o) => Local(Leaving(o.response), o.slot)
    case Writes(s, info) => Local(Writing(info, Begun(cfg, req, info)), Stored(s, info, Begun(cfg, req, info)))
  }

  function AfterFinish(info: FileInfo, caller: Caller, error: Option<Error>, s: Slot): Local {
    match caller
    case FromWriteChunk(chunkInfo, err) =>
      Local(Unregistering(chunkInfo, if err.Some? then err else error, info.offset), s)
    case AtEnd(response) => Local(Leaving(if error.Some? then Err(error.value) else response), s)
  }

  /** One step of a request that has its ID, on that ID's slot alone. */
  function Micro(cfg: Config, req: Request, env: Env, pc: Pc, s: Slot): Local {
    match pc
    case Holding =>
      if req.Post? then Local(pc, s)
      else if env.lookup.Some? then Local(Leaving(Err(env.lookup.value)), s)
      else if s.upload.None? then Local(Leaving(Err(ErrNotFound)), s)
      else if req.Delete? && !cfg.deleteReadsInfo then Local(Deleting, s)
      else Local(Looked, s)
    case Looked =>
      if req.Post? then Local(pc, s)
      else if env.info.Some? then Local(Leaving(Err(env.info.value)), s)
      else if s.upload.None? then Local(Leaving(Err(ErrNotFound)), s)
      else AfterGetInfo(cfg, req, s.upload.value.info, s)
    case Reading => AfterPrepare(cfg, req, FromGetReader(env, s))
    case Deleting => AfterPrepare(cfg, req, FromTerminate(env, s))
    case Declaring(info, n) =>
      if env.declare.Some? then Local(Leaving(Err(env.declare.value)), s)
      else Local(Ready(Declared(info, n)), DeclareLength(s, n))
    case Ready(info) =>
      if !req.Post? && !req.Patch? then Local(pc, s)
      else AfterPrepare(cfg, req, EnterWrite(s, info, req.length, req.body))
    case NewlyCreated =>
      if !req.Post? then Local(pc, s)
      else if env.info.Some? then Local(Leaving(Err(env.info.value)), s)
      else if s.upload.None? then Local(Leaving(Err(ErrNotFound)), s)
      else AfterCreation(req, env, s.upload.value.info, s)
    case Wrote(info, w) =>
      var next := info.offset + w.kept;
      if TerminatesOn(cfg, w) then Local(Stopping(info, WriteError(env, w), next), s)
      else Local(Finishing(info.(offset := next), FromWriteChunk(info, WriteError(env, w))), s)
    case Stopping(info, err, next) =>
      Local(Finishing(info.(offset := next), FromWriteChunk(info, err)),
            if env.terminate.None? then Terminated(s) else s)
    case Finishing(info, caller) =>
      if !Complete(info) then AfterFinish(info, caller, None, s)
      else
        var called := s.(finishes := s.finishes + 1);
        if env.finish.Some? then AfterFinish(info, caller, env.finish, called)
        else Local(Emitting(info, caller), called)
    case Emitting(info, caller) =>
      var f := EmitFinishEvents(cfg, env.finishCallback, s);
      AfterFinish(info, caller, f.error, f.slot)
    case Unregistering(info, err, next) =>
      if err.Some? then Local(Leaving(Err(err.value)), s)
      else if !req.Post? then Local(Leaving(Patched(next)), s)
      else if req.form.FormDraft? && req.form.complete && info.sizeIsDeferred then Local(Asking(next), s)
      else Local(Leaving(Created(req.id, Some(next))), s)
    case Asking(next) =>
      if env.infoAgain.Some? then Local(Leaving(Err(env.infoAgain.value)), s)
      else if s.upload.None? then Local(Leaving(Err(ErrNotFound)), s)
      else Local(DeclaringEnd(s.upload.value.info, next), s)
    case DeclaringEnd(info, next) =>
      if env.declare.Some? then Local(Leaving(Err(env.declare.value)), s)
      else Local(Finishing(Declared(info, info.offset), AtEnd(Created(req.id, Some(next)))),
                 DeclareLength(s, info.offset))
    case Announcing(total) =>
      var f := EmitFinishEvents(cfg, env.concatCallback, s);
      if f.error.Some? then Local(Leaving(Err(f.error.value)), f.slot)
      else if total == 0 then Local(Finishing(FinalInfo(req, cfg, total), AtEnd(Created(req.id, None))), f.slot)
      else Local(Leaving(Created(req.id, None)), f.slot)
    case _ => Local(pc, s)
  }

  function AfterGetInfo(cfg: Config, req: Request, info: FileInfo, s: Slot): Local
    requires !req.Post?
  {
    match req
    case Head(_, draft) => Local(Leaving(HeadResponse(info, draft)), s)
    case Get(_) => if info.offset == 0 then Local(Leaving(NoContent), s) else Local(Reading, s)
    case Delete(_) => Local(Deleting, s)
    case Patch(_, _, _, declare, _, _) =>
      var answer := PatchDecision(cfg, req, info);
      if answer.Some? then Local(Leaving(answer.value), s)
      else if declare.Value? then Local(Declaring(info, declare.n), s)
      else Local(Ready(info), s)
  }

  function AfterCreation(req: Request, env: Env, info: FileInfo, s: Slot): Local
    requires req.Post?
  {
    if info.isFinal then Local(Joining(info.size), s)
    else if HasChunk(req) then
      if env.lock.Some? then Local(Leaving(Err(env.lock.value)), s) else Local(Ready(info), s)
    else if !info.sizeIsDeferred && info.size == 0 then Local(Finishing(info, AtEnd(Created(req.id, None))), s)
    else Local(Leaving(Created(req.id, None)), s)
  }

  /** The identifiers a final upload is made of; none for any other request. */
  function Parts(cfg: Config, req: Request): seq<ID> {
    if IsFinalPost(cfg, req) then CreationOf(cfg, req).parts else []
  }

  function FinalInfo(req: Request, cfg: Config, total: int): FileInfo {
    FileInfo(total, false, if total < 0 then 0 else total, false, true, Parts(cfg, req))
  }

  // ------------------------------------------------------------------ the whole server

  /**
   slots is the store, owner says who holds which lock, stops is the stop-callback registry,
   and order lists the requests as they got hold of their IDs.
   */
  datatype System = System(slots: map<ID, Slot>, procs: seq<Proc>, owner: map<ID, nat>, stops: map<ID, nat>,
                           order: seq<nat>)

  function At(slots: map<ID, Slot>, id: ID): Slot {
    if id in slots then slots[id] else UNUSED
  }

  /** What can happen next in a run. */
  datatype Event =
    | Step(r: nat)                    // the next call of request r
    | Body(r: nat, e: WriteEvent)     // an event of its body transfer
    | Return(r: nat)                  // the store returns from its WriteChunk
    | Trigger(id: ID)                 // a hook asks to stop the upload

  /** An event moves one process, with its slot, or nothing. */
  datatype Move = Stay | Move(r: nat, proc: Proc, slot: Slot)

  function NextStep(cfg: Config, sys: System, r: nat): Move
    requires r < |sys.procs|
  {
    var p := sys.procs[r];
    var s := At(sys.slots, p.req.id);
    match p.pc
    case Entry => Move(r, p.(pc := AfterEntry(cfg, p.req)), s)
    case Waiting =>
      if p.env.lock.Some? then Move(r, p.(pc := Done(Err(p.env.lock.value))), s)
      else if p.req.id in sys.owner then Stay
      else Move(r, p.(pc := Holding, base := s), s)
    case Sizing(total) => SizeNext(cfg, sys, r, total)
    case Creating(info) =>
      if !p.req.Post? then Stay
      else if CreateRefusal(p.env).Some? then Move(r, p.(pc := Done(Err(CreateRefusal(p.env).value))), s)
      else if p.req.id in sys.owner || s.creator.Some? then Stay
      else Move(r, p.(pc := NewlyCreated, base := s), NewUpload(s, info, Creator(p.req, info)))
    case Joining(total) => JoinNext(cfg, sys, r, total)
    case Leaving(response) =>
      Move(r, p.(pc := Done(response), base := if IsFinalPost(cfg, p.req) then s else p.base), s)
    case Done(_) => Stay
    case Writing(_, _) => Stay
    case _ =>
      var l := Micro(cfg, p.req, p.env, p.pc, s);
      Move(r, p.(pc := l.pc), l.slot)
  }

  function AfterEntry(cfg: Config, req: Request): Pc {
    if Refusal(cfg, req).Some? then Done(Err(Refusal(cfg, req).value))
    else if IsFinalPost(cfg, req) then Sizing(0)
    else if req.Post? then Creating(CreationOf(cfg, req).info)
    else Waiting
  }

  /** sizeOfUploads, one partial upload at a time, and the MaxSize check behind it. */
  function SizeNext(cfg: Config, sys: System, r: nat, total: int): Move
    requires r < |sys.procs|
  {
    var p := sys.procs[r];
    var s := At(sys.slots, p.req.id);
    var parts := Parts(cfg, p.req);
    if |p.sizes| >= |parts| then
      if TooBig(cfg, total) then Move(r, p.(pc := Done(Err(ErrMaxSizeExceeded))), s)
      else Move(r, p.(pc := Creating(FinalInfo(p.req, cfg, total).(offset := 0))), s)
    else
      var part := At(sys.slots, parts[|p.sizes|]).upload;
      if p.env.sizing.Some? && p.env.sizingAt == |p.sizes| then Move(r, p.(pc := Done(Err(p.env.sizing.value))), s)
      else if part.None? then Move(r, p.(pc := Done(Err(ErrNotFound))), s)
      else if !Complete(part.value.info) then Move(r, p.(pc := Done(Err(ErrUploadNotFinished))), s)
      else
        var size := part.value.info.size;
        Move(r, p.(pc := Sizing(Wrap(total + size)), sizes := p.sizes + [size]), s)
  }

  /** ConcatUploads, one partial upload at a time. */
  function JoinNext(cfg: Config, sys: System, r: nat, total: int): Move
    requires r < |sys.procs|
  {
    var p := sys.procs[r];
    var s := At(sys.slots, p.req.id);
    var parts := Parts(cfg, p.req);
    if p.env.concat.Some? && p.joined >= p.env.concatAt then Move(r, p.(pc := Leaving(Err(p.env.concat.value))), s)
    else if p.joined >= |parts| then Move(r, p.(pc := Announcing(total)), s)
    else
      var part := At(sys.slots, parts[p.joined]).upload;
      if part.None? || s.upload.None? then Move(r, p.(pc := Leaving(Err(ErrNotFound))), s)
      else Move(r, p.(joined := p.joined + 1), s.(upload := Some(Appended(s.upload.value, part.value.data))))
  }

  /** A write event that reaches request r while it is in WriteChunk, or just out of it. */
  function Transfer(sys: System, r: nat, e: WriteEvent): Move
    requires r < |sys.procs| && (sys.procs[r].pc.Writing? || sys.procs[r].pc.Wrote?)
  {
    var p := sys.procs[r];
    var s := At(sys.slots, p.req.id);
    var w := WriteStep(p.pc.w, e);
    if p.pc.Writing? then Move(r, p.(pc := Writing(p.pc.info, w), plan := p.plan + [e]), Stored(s, p.pc.info, w))
    else Move(r, p.(pc := Wrote(p.pc.info, w), plan := p.plan + [e]), s)
  }

  function MoveOf(cfg: Config, sys: System, ev: Event): Move {
    match ev
    case Step(r) => if r < |sys.procs| then NextStep(cfg, sys, r) else Stay
    case Body(r, e) =>
      if r < |sys.procs| && sys.procs[r].pc.Writing? && !e.Stop? then Transfer(sys, r, e) else Stay
    case Return(r) =>
      if r < |sys.procs| && sys.procs[r].pc.Writing? && sys.procs[r].pc.w.pc.Idle? then
        var p := sys.procs[r];
        Move(r, p.(pc := Wrote(p.pc.info, p.pc.w)), At(sys.slots, p.req.id))
      else Stay
    case Trigger(id) =>
      if && id in sys.stops && sys.stops[id] < |sys.procs|
         && (sys.procs[sys.stops[id]].pc.Writing? || sys.procs[sys.stops[id]].pc.Wrote?)
      then Transfer(sys, sys.stops[id], Stop)
      else Stay
  }

  /** Locks are taken and released, and callbacks registered and removed, as a process passes those calls. */
  function Apply(sys: System, r: nat, p: Proc, s: Slot): System
    requires r < |sys.procs|
  {
    var was := sys.procs[r].pc;
    var id := sys.procs[r].req.id;
    System(
      sys.slots[id := s],
      sys.procs[r := p],
      if Owns(p.pc) && !Owns(was) then sys.owner[id := r]
      else if Owns(was) && !Owns(p.pc) then sys.owner - {id} else sys.owner,
      if Registered(p.pc) && !Registered(was) then sys.stops[id := r]
      else if Registered(was) && !Registered(p.pc) then sys.stops - {id} else sys.stops,
      if Owns(p.pc) && !Owns(was) then sys.order + [r] else sys.order)
  }

  function Next(cfg: Config, sys: System, ev: Event): System {
    var m := MoveOf(cfg, sys, ev);
    if m.Move? && m.r < |sys.procs| then Apply(sys, m.r, m.proc, m.slot) else sys
  }

  function Run(cfg: Config, sys: System, evs: seq<Event>): System {
    if evs == [] then sys else Next(cfg, Run(cfg, sys, evs[..|evs| - 1]), evs[|evs| - 1])
  }

  /** An empty store, and any number of requests that have not started. */
  predicate Initial(sys: System) {
    && sys.slots == map[] && sys.owner == map[] && sys.stops == map[] && sys.order == []
    && forall r :: 0 <= r < |sys.procs| ==>
         var p := sys.procs[r];
         p.pc == Entry && p.plan == [] && p.sizes == [] && p.joined == 0 && p.base == UNUSED
  }

  lemma AtAfter(slots: map<ID, Slot>, id: ID, s: Slot, other: ID)
    ensures At(slots[id := s], other) == if other == id then s else At(slots, other)
  {}

  // ------------------------------------------------------------------ every event moves one process

  /** What every move does at most. */
  predicate Fits(sys: System, m: Move) {
    m.Move? ==>
      && m.r < |sys.procs|
      && var p := sys.procs[m.r];
      && !p.pc.Done?
      && m.proc.req == p.req && m.proc.env == p.env
      && (!Owns(p.pc) && Owns(m.proc.pc) ==>
            && p.req.id !in sys.owner && m.proc.base == At(sys.slots, p.req.id) && !Registered(m.proc.pc)
            && (p.pc.Waiting? || At(sys.slots, p.req.id).creator.None?))
      && (!Owns(p.pc) && !Owns(m.proc.pc) ==> m.slot == At(sys.slots, p.req.id))
      && (Owns(p.pc) && !m.proc.pc.Done? ==> Owns(m.proc.pc) && m.proc.base == p.base)
      && (m.proc.pc.Done? && Owns(p.pc) ==>
            p.pc == Leaving(m.proc.pc.response) && m.slot == At(sys.slots, p.req.id) && m.proc.plan == p.plan)
  }

  lemma MicroKeepsHold(cfg: Config, req: Request, env: Env, pc: Pc, s: Slot)
    requires Owns(pc)
    ensures Owns(Micro(cfg, req, env, pc, s).pc)
  {}

  lemma StepsItself(cfg: Config, sys: System, r: nat)
    requires r < |sys.procs|
    ensures var m := NextStep(cfg, sys, r); m.Move? ==> m.r == r
  {
    hide Micro, AfterEntry, FromCreate, CreationOf;
  }

  lemma StepFits(cfg: Config, sys: System, r: nat)
    requires r < |sys.procs|
    ensures Fits(sys, NextStep(cfg, sys, r))
  {
    hide Micro, FromCreate, CreationOf, Refusal, Parts, At, Complete, NewUpload, Appended, TooBig;
    var p := sys.procs[r];
    if Owns(p.pc) {
      MicroKeepsHold(cfg, p.req, p.env, p.pc, At(sys.slots, p.req.id));
    }
  }

  lemma MovesFit(cfg: Config, sys: System, ev: Event)
    ensures Fits(sys, MoveOf(cfg, sys, ev))
  {
    hide NextStep, Stored, WriteStep, At;
    if ev.Step? && ev.r < |sys.procs| {
      StepFits(cfg, sys, ev.r);
    }
  }
}
