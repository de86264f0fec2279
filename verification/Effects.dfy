/**
 What every request does to the upload it names, failed ones included: when it is there
 afterwards, which bytes and length it has, and how many FinishUpload calls and complete events
 were made.
 */
module Effects {
  import opened Prelude
  import opened BodyReaders
  import opened Lifecycle
  import opened Finals
  import opened Invariants
  import opened Confluence
  import opened Answers

  /** The transfer of a request that writes with this info. */
  function TransferOf(cfg: Config, req: Request, info: FileInfo, plan: seq<WriteEvent>): Write {
    WriteRun(Begun(cfg, req, info), plan)
  }

  /** The bytes that were persisted. */
  function Persisted(w: Write): seq<byte> {
    Cut(w.got, w.kept)
  }

  /** The write that ends with this info made the upload complete. */
  predicate Fills(info: FileInfo, kept: nat) {
    !info.sizeIsDeferred && info.offset + kept == info.size
  }

  /** FinishUpload and the callback behind it succeed. */
  predicate FinishesWell(env: Env) {
    env.finish.None? && env.finishCallback.None?
  }

  /** The slot has had one more FinishUpload call or not, and one more complete event if nothing failed in it. */
  predicate Counts(cfg: Config, env: Env, called: bool, s: Slot, t: Slot) {
    && t.finishes == s.finishes + (if called then 1 else 0)
    && t.completes == s.completes + (if called && FinishesWell(env) && cfg.notifyCompleteUploads then 1 else 0)
  }

  lemma KeptPersisted(cfg: Config, req: Request, info: FileInfo, plan: seq<WriteEvent>)
    requires (req.Patch? || req.Post?) && req.body.Some?
    ensures var w := TransferOf(cfg, req, info, plan);
            && |Persisted(w)| == w.kept && Persisted(w) <= Offered(req.body.value)
            && (HasError(w.reader) == Some(ErrUploadStopped) <==> Stop in plan)
  {
    hide WriteRun, HasError, BodyCap;
    var w := TransferOf(cfg, req, info, plan);
    WriteRunInv(req.body.value, BodyCap(cfg, info, req.length), plan);
    GotIsOffered(w, req.body.value, BodyCap(cfg, info, req.length));
    StoppedIff(NewReader(req.body.value, BodyCap(cfg, info, req.length)), plan);
  }

  /** From WriteChunk to the end of writeChunk, for a PATCH or a POST that does not declare its length then. */
  lemma WriteEffect(cfg: Config, req: Request, env: Env, plan: seq<WriteEvent>, info: FileInfo, s: Slot)
    requires (req.Patch? || req.Post?) && req.body.Some? && s.upload.Some? && s.upload.value.info == info
    requires info.offset == |s.upload.value.data|
    requires req.Post? && req.form.FormDraft? && req.form.complete ==> !info.sizeIsDeferred
    ensures var w := TransferOf(cfg, req, info, plan);
            var t := FromReturn(cfg, req, env, info, w, Stored(s, info, w)).slot;
            && t.creator == s.creator && Counts(cfg, env, Fills(info, w.kept), s, t)
            && t.upload
               == if Removes(cfg, env, plan) then None
                  else Some(Upload(info.(offset := info.offset + w.kept), s.upload.value.data + Persisted(w)))
  {
    hide WriteRun, HasError, Begun;
    var w := TransferOf(cfg, req, info, plan);
    KeptPersisted(cfg, req, info, plan);
    var data := s.upload.value.data;
    assert Cut(data, |data|) == data && Zeros(0) == [] && data + [] == data;
  }

  /** A PATCH gets to declare the length it states. */
  predicate Declares(cfg: Config, req: Request, env: Env, s: Slot)
    requires req.Patch?
  {
    var info := InfoOf(s);
    && req.contentTypeOk && Finds(req, env, s) && env.info.None? && !info.isFinal
    && req.offset.Value? && req.offset.n == info.offset
    && cfg.usesLengthDeferrer && info.sizeIsDeferred && req.declare.Value?
    && info.offset <= req.declare.n && (cfg.maxSize > 0 ==> req.declare.n <= cfg.maxSize)
    && env.declare.None?
  }

  /**
   What a PATCH leaves: the length it gets to declare, even if its body is then refused; the bytes
   that were persisted behind those before, whatever it answers; no upload if and only if its write
   was stopped and the server could terminate; one FinishUpload call if and only if its write
   reached a known size.
   */
  lemma PatchEffect(cfg: Config, req: Request, env: Env, plan: seq<WriteEvent>, s: Slot)
    requires req.Patch? && s.upload.Some? && s.upload.value.info.offset == |s.upload.value.data|
    ensures var u := s.upload.value;
            var info := if Declares(cfg, req, env, s) then PatchInfo(req, s) else u.info;
            var writes := Prepare(cfg, req, env, s).Writes?;
            var w := TransferOf(cfg, req, info, plan);
            var kept := if writes then w.kept else 0;
            var t := Handle(cfg, req, env, plan, s).slot;
            && t.creator == s.creator && Counts(cfg, env, writes && Fills(info, kept), s, t)
            && t.upload
               == if writes && Removes(cfg, env, plan) then None
                  else Some(Upload(info.(offset := info.offset + kept),
                                   u.data + if writes then Persisted(w) else []))
  {
    hide CreationOf, WriteRun, HasError, Begun, FromReturn, TransferOf, TooLong, Stored;
    PatchWritesIff(cfg, req, env, s);
    PatchPrepared(cfg, req, env, s);
    var b := Prepare(cfg, req, env, s);
    assert s.upload.value.data + [] == s.upload.value.data;
    if b.Writes? {
      WriteEffect(cfg, req, env, plan, b.info, b.slot);
      TransferIs(cfg, req, b.info, plan);
    }
  }

  lemma TransferIs(cfg: Config, req: Request, info: FileInfo, plan: seq<WriteEvent>)
    ensures TransferOf(cfg, req, info, plan) == WriteRun(Begun(cfg, req, info), plan)
  {
    hide WriteRun, Begun;
  }

  /** What it has done before the body is read. */
  lemma PatchPrepared(cfg: Config, req: Request, env: Env, s: Slot)
    requires req.Patch? && s.upload.Some?
    ensures var b := Prepare(cfg, req, env, s);
            var info := if Declares(cfg, req, env, s) then PatchInfo(req, s) else s.upload.value.info;
            var t := s.(upload := Some(s.upload.value.(info := info)));
            if b.Writes? then b == Writes(t, info) && req.body.Some? else b.outcome.slot == t
  {
    hide CreationOf, TooLong;
  }

  /**
   An upload that is there is gone after a request if and only if it is a DELETE that answers
   success, or a PATCH that writes, is stopped, and leaves the server able to terminate: no failing
   body or store removes it.
   */
  lemma GoneIff(cfg: Config, req: Request, env: Env, plan: seq<WriteEvent>, s: Slot)
    requires !req.Post? && s.upload.Some? && Counted(s)
    ensures var o := Handle(cfg, req, env, plan, s);
            o.slot.upload.None? <==>
              (req.Delete? && o.response == Deleted)
              || (req.Patch? && Prepare(cfg, req, env, s).Writes? && Removes(cfg, env, plan))
  {
    hide Handle, Prepare, Removes, TransferOf, PatchInfo, Declares, CreationOf;
    if req.Patch? {
      PatchEffect(cfg, req, env, plan, s);
    } else {
      ReadOrDelete(cfg, req, env, plan, s);
    }
  }

  lemma ReadOrDelete(cfg: Config, req: Request, env: Env, plan: seq<WriteEvent>, s: Slot)
    requires (req.Head? || req.Get? || req.Delete?) && s.upload.Some?
    ensures var o := Handle(cfg, req, env, plan, s);
            o.slot.upload.None? <==> req.Delete? && o.response == Deleted
  {
    hide CreationOf;
  }

  // ------------------------------------------------------------------ POST

  /** An upload is made: the callback agrees, the ID it asks for is valid, and the store agrees. */
  predicate Makes(env: Env) {
    var id := env.newID;
    && env.createCallback.None? && env.create.None?
    && (id != "" ==> id[0] != '/' && id[|id| - 1] != '/')
  }

  /** Its first chunk is read: the upload is read back, locked, and has room for a body that is there. */
  predicate Receives(req: Request, env: Env, info: FileInfo)
    requires req.Post?
  {
    env.info.None? && env.lock.None? && req.body.Some? && !TooLong(info, req.length)
  }

  /**
   What a plain v1 POST leaves: nothing unless it makes an upload; then one of the length that it
   states, with the persisted bytes of its first chunk, even if it answers an error.
   */
  lemma V1PostEffect(cfg: Config, req: Request, env: Env, plan: seq<WriteEvent>)
    requires req.Post? && req.form.FormV1? && !IsFinalPost(cfg, req)
    ensures var info := V1Info(cfg, req);
            var w := TransferOf(cfg, req, info, plan);
            var writes := req.form.chunk && Receives(req, env, info);
            var kept := if writes then w.kept else 0;
            var called := if req.form.chunk then writes && Fills(info, kept) else env.info.None? && Fills(info, 0);
            var t := Handle(cfg, req, env, plan, UNUSED).slot;
            if !(CreationOf(cfg, req).Plain? && Makes(env)) then t == UNUSED
            else
              && t.creator == Some(V1) && Counts(cfg, env, called, UNUSED, t)
              && t.upload
                 == if writes && Removes(cfg, env, plan) then None
                    else Some(Upload(info.(offset := kept), if writes then Persisted(w) else []))
  {
    hide CreationOf, WriteRun, HasError, Begun, FromReturn, TransferOf, TooLong, Stored, V1Headers, V1Info;
    var info := V1Info(cfg, req);
    V1HeadersDecide(cfg, req, NoContent);
    StartsEmpty(cfg, req);
    if Refusal(cfg, req).None? && Makes(env) && req.form.chunk && Receives(req, env, info) {
      var s := NewUpload(UNUSED, info, V1);
      WriteEffect(cfg, req, env, plan, info, s);
      TransferIs(cfg, req, info, plan);
      assert [] + Persisted(TransferOf(cfg, req, info, plan)) == Persisted(TransferOf(cfg, req, info, plan));
    }
  }

  /**
   What a draft POST leaves; one that marks an upload of unknown length complete, and whose body is
   stored without an error, declares what is there as the length.
   */
  lemma DraftPostEffect(cfg: Config, req: Request, env: Env, plan: seq<WriteEvent>)
    requires req.Post? && req.form.FormDraft? && !IsFinalPost(cfg, req)
    ensures var info := DraftInfo(req);
            var w := TransferOf(cfg, req, info, plan);
            var writes := Receives(req, env, info);
            var kept := if writes then w.kept else 0;
            var ends := && writes && req.form.complete && info.sizeIsDeferred && env.write.None?
                        && HasError(w.reader).None? && env.infoAgain.None? && env.declare.None?;
            var left := if ends then info.(size := kept, sizeIsDeferred := false) else info;
            var t := Handle(cfg, req, env, plan, UNUSED).slot;
            if !(CreationOf(cfg, req).Plain? && Makes(env)) then t == UNUSED
            else
              && t.creator == Some(Draft) && Counts(cfg, env, writes && Fills(left, kept), UNUSED, t)
              && t.upload
                 == if writes && Removes(cfg, env, plan) then None
                    else Some(Upload(left.(offset := kept), if writes then Persisted(w) else []))
  {
    hide CreationOf, WriteRun, HasError, Begun, TooLong, DraftHeaders, DraftInfo, WriteAt, TransferOf;
    var info := DraftInfo(req);
    DraftHeadersDecide(cfg, req, NoContent);
    DraftStartsEmpty(req);
    TransferIs(cfg, req, info, plan);
    if Refusal(cfg, req).None? && Makes(env) && Receives(req, env, info) {
      KeptPersisted(cfg, req, info, plan);
      FirstWrite(Persisted(TransferOf(cfg, req, info, plan)));
    }
  }

  lemma FirstWrite(b: seq<byte>)
    ensures WriteAt([], 0, b) == b
  {
    assert Cut<byte>([], 0) == [] && Zeros(0) == [] && [] + [] + b == b;
  }

  lemma DraftStartsEmpty(req: Request)
    requires req.Post? && req.form.FormDraft?
    ensures DraftInfo(req).offset == 0 && !DraftInfo(req).isFinal
  {}

  // ------------------------------------------------------------------ what an answer says of the upload

  /** A successful answer names the offset of the upload it leaves, which is what the next HEAD reports. */
  predicate TellsOffset(response: Response, id: ID, t: Slot) {
    match response
    case Patched(n) => t.upload.Some? && n == |t.upload.value.data| == t.upload.value.info.offset
    case Created(created, uploaded) =>
      && t.upload.Some? && created == id && t.upload.value.info.offset == |t.upload.value.data|
      && |t.upload.value.data| == (if uploaded.Some? then uploaded.value else 0)
    case _ => true
  }

  /** A FinishUpload call that failed, or an objection to the response behind it, is answered with an error. */
  predicate TellsFailure(cfg: Config, env: Env, s: Slot, o: Outcome) {
    && (o.slot.finishes > s.finishes && !FinishesWell(env) ==> o.response.Err? && o.slot.completes == s.completes)
    && (o.slot.completes > s.completes <==>
          o.slot.finishes > s.finishes && FinishesWell(env) && cfg.notifyCompleteUploads)
    && s.finishes <= o.slot.finishes <= s.finishes + 1 && s.completes <= o.slot.completes <= s.completes + 1
  }

  /** Every request but a final POST, whatever fails in it. */
  lemma AnswersAreHonest(cfg: Config, req: Request, env: Env, plan: seq<WriteEvent>, s: Slot)
    requires !IsFinalPost(cfg, req) && Counted(s) && (req.Post? ==> s == UNUSED)
    ensures var o := Handle(cfg, req, env, plan, s);
            && TellsOffset(o.response, req.id, o.slot) && TellsFailure(cfg, env, s, o)
            && (o.response.Patched? && Complete(InfoOf(s)) ==> o.slot == s)
  {
    hide Handle, CreationOf, Prepare, TransferOf, Begun, WriteRun, HasError, DraftInfo, V1Info;
    match req {
      case Head(_, _) => ReadsTell(cfg, req, env, plan, s);
      case Get(_) => ReadsTell(cfg, req, env, plan, s);
      case Delete(_) => ReadsTell(cfg, req, env, plan, s);
      case Patch(_, _, _, _, _, _) =>
        if s.upload.Some? {
          PatchTells(cfg, req, env, plan, s);
        } else {
          NothingToPatch(cfg, req, env, plan, s);
        }
      case Post(_, form, _, _) =>
        if form.FormV1? { V1PostTells(cfg, req, env, plan); } else { DraftPostTells(cfg, req, env, plan); }
    }
  }

  lemma ReadsTell(cfg: Config, req: Request, env: Env, plan: seq<WriteEvent>, s: Slot)
    requires req.Head? || req.Get? || req.Delete?
    ensures var o := Handle(cfg, req, env, plan, s);
            && !o.response.Patched? && !o.response.Created?
            && o.slot.finishes == s.finishes && o.slot.completes == s.completes
  {
    hide CreationOf;
  }

  lemma NothingToPatch(cfg: Config, req: Request, env: Env, plan: seq<WriteEvent>, s: Slot)
    requires req.Patch? && s.upload.None?
    ensures Handle(cfg, req, env, plan, s).slot == s && Handle(cfg, req, env, plan, s).response.Err?
  {
    hide CreationOf;
  }

  lemma PatchTells(cfg: Config, req: Request, env: Env, plan: seq<WriteEvent>, s: Slot)
    requires req.Patch? && s.upload.Some? && Counted(s)
    ensures var o := Handle(cfg, req, env, plan, s);
            && TellsOffset(o.response, req.id, o.slot) && TellsFailure(cfg, env, s, o) && !o.response.Created?
            && (o.response.Patched? && Complete(InfoOf(s)) ==> o.slot == s)
  {
    hide Handle, CreationOf, Prepare, TransferOf, Begun, WriteRun, HasError;
    PatchAnswers(cfg, req, env, plan, s);
    PatchEffect(cfg, req, env, plan, s);
    PatchWritesIff(cfg, req, env, s);
    TransferIs(cfg, req, PatchInfo(req, s), plan);
    assert s.upload.value.data + [] == s.upload.value.data;
    if Prepare(cfg, req, env, s).Writes? {
      KeptPersisted(cfg, req, PatchInfo(req, s), plan);
    }
  }

  lemma V1PostTells(cfg: Config, req: Request, env: Env, plan: seq<WriteEvent>)
    requires req.Post? && req.form.FormV1? && !IsFinalPost(cfg, req)
    ensures var o := Handle(cfg, req, env, plan, UNUSED);
            && TellsOffset(o.response, req.id, o.slot) && TellsFailure(cfg, env, UNUSED, o) && !o.response.Patched?
  {
    hide Handle, CreationOf, TransferOf, Begun, WriteRun, HasError, V1Info, V1Headers;
    V1PostAnswers(cfg, req, env, plan);
    V1PostEffect(cfg, req, env, plan);
    V1HeadersDecide(cfg, req, V1Rest(cfg, req, env, plan));
    TransferIs(cfg, req, V1Info(cfg, req), plan);
    StartsEmpty(cfg, req);
    if req.body.Some? {
      KeptPersisted(cfg, req, V1Info(cfg, req), plan);
    }
  }

  lemma DraftPostTells(cfg: Config, req: Request, env: Env, plan: seq<WriteEvent>)
    requires req.Post? && req.form.FormDraft? && !IsFinalPost(cfg, req)
    ensures var o := Handle(cfg, req, env, plan, UNUSED);
            && TellsOffset(o.response, req.id, o.slot) && TellsFailure(cfg, env, UNUSED, o) && !o.response.Patched?
  {
    hide Handle, CreationOf, TransferOf, Begun, WriteRun, HasError, DraftInfo, DraftHeaders;
    DraftPostAnswers(cfg, req, env, plan);
    DraftPostEffect(cfg, req, env, plan);
    DraftHeadersDecide(cfg, req, DraftRest(cfg, req, env, plan));
    TransferIs(cfg, req, DraftInfo(req), plan);
    DraftStartsEmpty(req);
    if req.body.Some? {
      KeptPersisted(cfg, req, DraftInfo(req), plan);
    }
  }

  // ------------------------------------------------------------------ final POSTs

  /** How many parts a final POST joins, once its upload is made. */
  function Joins(env: Env, n: nat): nat {
    if env.info.Some? then 0 else if env.concat.Some? && env.concatAt < n then env.concatAt else n
  }

  /** What a final POST answers. */
  lemma FinalPostAnswers(cfg: Config, req: Request, env: Env, files: map<ID, Upload>, s: Slot)
    requires IsFinalPost(cfg, req)
    ensures var parts := CreationOf(cfg, req).parts;
            FinalOutcome(cfg, req, env, files, s).response ==
              match PartSizes(env, files, parts)
              case NoTotal(e) => Err(e)
              case Total(sizes) =>
                var total := WrapSum(sizes);
                Guard(cfg.maxSize > 0 ==> total <= cfg.maxSize, ErrMaxSizeExceeded,
                Creating(env,
                CallIf(env.concatAt <= |parts|, env.concat,
                Call(env.concatCallback,
                CallIf(total == 0, env.finish,
                CallIf(total == 0, env.finishCallback,
                Created(req.id, None)))))))
  {
    hide CreationOf, PartSizes, WrapSum, JoinedFiles, Grown;
  }

  /**
   What a final POST leaves, whatever it answers: nothing unless it makes an upload; then the 64-bit
   total as the size, its parts' names, the bytes of the parts that were joined, and the events.
   */
  lemma FinalPostEffect(cfg: Config, req: Request, env: Env, files: map<ID, Upload>, s: Slot)
    requires IsFinalPost(cfg, req)
    ensures var parts := CreationOf(cfg, req).parts;
            var sizes := PartSizes(env, files, parts);
            var t := FinalOutcome(cfg, req, env, files, s).slot;
            if !(sizes.Total? && !TooBig(cfg, WrapSum(sizes.sizes)) && Makes(env)) then t == s
            else
              var total := WrapSum(sizes.sizes);
              var joined := JoinedFiles(files, parts[..Joins(env, |parts|)]);
              var announced := && env.info.None? && (env.concat.Some? ==> |parts| < env.concatAt)
                               && env.concatCallback.None?;
              var events := (if announced then 1 else 0)
                          + (if announced && total == 0 && FinishesWell(env) then 1 else 0);
              && t.creator == Some(V1Final)
              && t.upload == Some(Upload(FileInfo(total, false, |joined|, false, true, parts), joined))
              && t.finishes == s.finishes + (if announced && total == 0 then 1 else 0)
              && t.completes == s.completes + (if cfg.notifyCompleteUploads then events else 0)
  {
    hide CreationOf, PartSizes, WrapSum, TooBig;
    var parts := CreationOf(cfg, req).parts;
    var joined := JoinedFiles(files, parts[..Joins(env, |parts|)]);
    assert parts[..0] == [] && JoinedFiles(files, parts[..0]) == [];
    assert [] + joined == joined;
  }

  /** The error of a final POST that cannot size its parts is that of the first one that is not as it should be. */
  lemma {:induction false} PartSizesError(env: Env, files: map<ID, Upload>, ids: seq<ID>) returns (j: nat)
    requires PartSizes(env, files, ids).NoTotal?
    ensures j < |ids| && AllFinished(files, ids[..j]) && (env.sizing.Some? ==> j <= env.sizingAt)
    ensures PartSizes(env, files, ids).error ==
              if env.sizing.Some? && env.sizingAt == j then env.sizing.value
              else if ids[j] !in files then ErrNotFound
              else ErrUploadNotFinished
    ensures (env.sizing.Some? && env.sizingAt == j) || ids[j] !in files || !Complete(files[ids[j]].info)
  {
    hide Complete;
    var n := |ids| - 1;
    PartSizesIff(env, files, ids[..n]);
    if PartSizes(env, files, ids[..n]).NoTotal? {
      j := PartSizesError(env, files, ids[..n]);
      assert ids[..n][..j] == ids[..j];
    } else {
      j := n;
    }
  }
}
