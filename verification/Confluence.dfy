/**
 What a sequence of requests, one after the other, leaves of an upload: what a failed write
 keeps, which requests get through, and that every way of delivering a body ends alike.
 */
module Confluence {
  import opened Prelude
  import opened BodyReaders
  import opened Lifecycle
  import opened Steps
  import opened Invariants
  import UploadConcat

  /** One request on one upload, with the answers of its environment and its body transfer. */
  datatype Exchange = Exchange(req: Request, env: Env, plan: seq<WriteEvent>)

  /** The slot after requests handled one at a time. */
  function Serve(cfg: Config, s: Slot, xs: seq<Exchange>): Slot
    requires forall x :: x in xs ==> !IsFinalPost(cfg, x.req)
  {
    if xs == [] then s
    else
      var x := xs[|xs| - 1];
      Handle(cfg, x.req, x.env, x.plan, Serve(cfg, s, xs[..|xs| - 1])).slot
  }

  // ------------------------------------------------------------------ what a write keeps

  /** A write is stopped by a server that then removes the upload. */
  predicate Removes(cfg: Config, env: Env, plan: seq<WriteEvent>) {
    Stop in plan && cfg.usesTerminater && env.terminate.None?
  }

  /**
   Whatever a write answers, unless it was stopped and removes the upload, the stored bytes are those before
   it and the bytes the store persisted of its body, in order; and a HEAD right after it reports
   the new offset.
   */
  lemma WriteKeepsItsBytes(cfg: Config, req: Request, env: Env, plan: seq<WriteEvent>, s: Slot, head: Request,
                           headEnv: Env)
    requires !IsFinalPost(cfg, req) && Counted(s) && Prepare(cfg, req, env, s).Writes? && req.Patch?
    requires head == Head(req.id, false) && headEnv.lock.None? && headEnv.lookup.None? && headEnv.info.None?
    requires req.id != ""
    ensures var info := Prepare(cfg, req, env, s).info;
            var w := WriteRun(Begun(cfg, req, info), plan);
            var t := Handle(cfg, req, env, plan, s).slot;
            if Removes(cfg, env, plan) then t.upload.None?
            else
              && s.upload.Some? && t.upload.Some? && w.kept <= |w.got|
              && t.upload.value.data == s.upload.value.data + w.got[..w.kept]
              && w.got <= Offered(req.body.value)
              && Handle(cfg, head, headEnv, [], t).response.HeadV1?
              && Handle(cfg, head, headEnv, [], t).response.offset == |s.upload.value.data| + w.kept
  {
    hide HasError, Prepare, Begun, WriteRun, TooLong, BodyCap, CreationOf, WriteInv, FinishUploadIfComplete,
         WriteError, FromChunk, UploadOk;
    var b := Prepare(cfg, req, env, s);
    var w := WriteRun(Begun(cfg, req, b.info), plan);
    PatchWrites(cfg, req, env, s);
    WriteRunInv(req.body.value, BodyCap(cfg, b.info, req.length), plan);
    BegunReader(cfg, req, b.info);
    StoppedIff(NewReader(req.body.value, BodyCap(cfg, b.info, req.length)), plan);
    GotIsOffered(w, req.body.value, BodyCap(cfg, b.info, req.length));
    Appends(s.upload.value.data, w);
    FinishKeepsUpload(cfg, req, env, b.info, w, Stored(b.slot, b.info, w));
    var t := Handle(cfg, req, env, plan, s).slot;
    if t.upload.Some? {
      HeadReports(cfg, head, headEnv, t);
    }
  }

  lemma BegunReader(cfg: Config, req: Request, info: FileInfo)
    requires (req.Patch? || req.Post?) && req.body.Some?
    ensures Begun(cfg, req, info) == StartWrite(NewReader(req.body.value, BodyCap(cfg, info, req.length)))
  {}

  lemma Appends(data: seq<byte>, w: Write)
    requires w.kept <= |w.got|
    ensures WriteAt(data, |data|, Cut(w.got, w.kept)) == data + w.got[..w.kept]
  {
    assert Cut(data, |data|) == data && Zeros(0) == [] && data + [] == data;
  }

  /** Nothing after a write touches the stored bytes, except termination. */
  lemma FinishKeepsUpload(cfg: Config, req: Request, env: Env, info: FileInfo, w: Write, s: Slot)
    requires req.Patch?
    ensures FromReturn(cfg, req, env, info, w, s).slot.upload
         == if TerminatesOn(cfg, w) && env.terminate.None? then None else s.upload
  {
    hide HasError;
  }

  lemma HeadReports(cfg: Config, head: Request, env: Env, s: Slot)
    requires head.Head? && !head.draft && head.id != "" && env.lock.None? && env.lookup.None? && env.info.None?
    requires s.upload.Some?
    ensures Handle(cfg, head, env, [], s).response == HeadResponse(s.upload.value.info, false)
  {}

  lemma PatchWrites(cfg: Config, req: Request, env: Env, s: Slot)
    requires req.Patch? && Counted(s) && Prepare(cfg, req, env, s).Writes?
    ensures var b := Prepare(cfg, req, env, s);
            && s.upload.Some? && b.slot.upload.Some? && req.body.Some?
            && b.slot.upload.value.data == s.upload.value.data && b.info == b.slot.upload.value.info
            && b.info.offset == |s.upload.value.data| == s.upload.value.info.offset && !b.info.isFinal
            && req.offset == Value(b.info.offset)
  {
    hide TooLong, CreationOf;
  }

  /**
   Exactly when a PATCH gets to write: the request is well formed, the locker and the store
   answer, the upload exists and is neither final nor complete, the offset matches, a declared
   length is allowed, and the body fits.
   */
  lemma PatchWritesIff(cfg: Config, req: Request, env: Env, s: Slot)
    requires req.Patch?
    ensures Prepare(cfg, req, env, s).Writes? <==>
            && req.contentTypeOk && req.id != "" && req.offset.Value? && req.body.Some?
            && env.lock.None? && env.lookup.None? && env.info.None? && s.upload.Some?
            && var info := s.upload.value.info;
            && !info.isFinal && req.offset.n == info.offset && !Complete(info)
            && (!req.declare.Absent? ==>
                  && cfg.usesLengthDeferrer && info.sizeIsDeferred && env.declare.None?
                  && req.declare.Value? && req.declare.n >= info.offset && (cfg.maxSize > 0 ==>
                        req.declare.n <= cfg.maxSize))
            && !TooLong(if req.declare.Value? then Declared(info, req.declare.n) else info, req.length)
  {
    hide TooLong, CreationOf;
  }

  /**
   HEAD tells the client which PATCH will be written: the one at the offset it reported, on an
   upload that it did not report as final or complete, with a body that fits the length it
   reported; and the draft's completeness flag says that length and offset agree.
   */
  lemma HeadPredictsPatch(cfg: Config, id: ID, draft: bool, headEnv: Env, patch: Request, env: Env, s: Slot)
    requires id != "" && headEnv.lock.None? && headEnv.lookup.None? && headEnv.info.None? && s.upload.Some?
    requires patch.Patch? && patch.id == id && patch.contentTypeOk
    requires patch.offset.Value? && patch.declare.Absent? && patch.body.Some?
    requires env.lock.None? && env.lookup.None? && env.info.None?
    ensures Handle(cfg, Head(id, draft), headEnv, [], s).slot == s
    ensures match Handle(cfg, Head(id, draft), headEnv, [], s).response
            case HeadV1(offset, length, _, final) =>
              !draft && (Prepare(cfg, patch, env, s).Writes? <==>
                && patch.offset.n == offset && final.None? && length != Some(offset)
                && (length.Some? ==> Wrap(offset + patch.length) <= length.value))
            case HeadDraft(offset, length, complete) =>
              draft && (complete <==> length == Some(offset)) && (Prepare(cfg, patch, env, s).Writes? ==>
                && patch.offset.n == offset && !complete && (length.Some? ==>
                      Wrap(offset + patch.length) <= length.value))
            case _ => false
  {
    hide CreationOf;
    PatchWritesIff(cfg, patch, env, s);
  }

  /** The request has its upload in hand: nothing is refused, and the upload is there. */
  predicate Finds(req: Request, env: Env, s: Slot) {
    req.id != "" && env.lock.None? && env.lookup.None? && s.upload.Some?
  }

  /** Exactly when a DELETE removes an upload; otherwise it answers an error and changes nothing. */
  lemma DeleteRemovesIff(cfg: Config, req: Request, env: Env, s: Slot)
    requires req.Delete?
    ensures var o := Handle(cfg, req, env, [], s);
            var removes := && cfg.usesTerminater && Finds(req, env, s) && (cfg.deleteReadsInfo ==> env.info.None?)
                           && env.terminateCallback.None? && env.terminate.None?;
            && (o.response == Deleted <==> removes) && (removes ==> o.slot == s.(upload := None))
            && (!removes ==> o.slot == s && o.response.Err?)
  {
    hide CreationOf;
  }

  /** Exactly when a GET serves bytes, which are those of the upload, and when it has none to serve. */
  lemma GetServesIff(cfg: Config, req: Request, env: Env, s: Slot)
    requires req.Get? && Counted(s)
    ensures var o := Handle(cfg, req, env, [], s);
            var found := Finds(req, env, s) && env.info.None?;
            && o.slot == s
            && (o.response == NoContent <==> found && s.upload.value.data == [])
            && (o.response.Content? <==> found && s.upload.value.data != [] && env.reader.None? && env.copy.None?)
            && (o.response.Content? ==> o.response.data == s.upload.value.data)
            && (o.response.NoContent? || o.response.Content? || o.response.Err?)
  {
    hide CreationOf;
  }

  /** What a v1 POST creates, and when: a final upload, or one whose length is stated or deferred. */
  lemma V1CreationIff(cfg: Config, req: Request)
    requires req.Post? && req.form.FormV1?
    ensures var header := if cfg.usesConcater then req.form.concat else "";
            var c := UploadConcat.ParseConcat(header, cfg.basePath);
            var allowed := (header == "" || !cfg.disableConcatenation) && c.error.None?;
            var stated := req.form.deferLength == "" && req.form.uploadLength.Value? && req.form.uploadLength.n >= 0;
            var deferred := req.form.deferLength == "1" && cfg.usesLengthDeferrer && req.form.uploadLength.Absent?;
            && (CreationOf(cfg, req).FinalOf? <==> allowed && c.isFinal && !req.form.chunk)
            && (CreationOf(cfg, req).FinalOf? ==> CreationOf(cfg, req).parts == c.ids)
            && (CreationOf(cfg, req).Plain? <==>
                  allowed && !c.isFinal && (deferred || (stated && (cfg.maxSize > 0 ==>
                    req.form.uploadLength.n <= cfg.maxSize))))
            && (CreationOf(cfg, req).Plain? ==>
                  var info := CreationOf(cfg, req).info;
                  && info.sizeIsDeferred == deferred && (stated ==> info.size == req.form.uploadLength.n)
                  && info.isPartial == c.isPartial)
  {
    hide UploadConcat.ParseConcat;
  }

  /** The length a draft POST states, by header or by its Content-Length. */
  function StatedLength(req: Request): Option<int>
    requires req.Post? && req.form.FormDraft?
  {
    if req.form.uploadLength.Value? then Some(req.form.uploadLength.n)
    else if req.form.complete && req.length >= 0 then Some(req.length)
    else None
  }

  /** What a draft POST creates, and when; nobody looks at MaxSize or at the sign of the length. */
  lemma DraftCreationIff(cfg: Config, req: Request)
    requires req.Post? && req.form.FormDraft?
    ensures var contradicts := req.form.uploadLength.Value? && req.form.complete && 0 <= req.length
                               && req.length != req.form.uploadLength.n;
            var stated := StatedLength(req);
            && !CreationOf(cfg, req).FinalOf?
            && (CreationOf(cfg, req).Plain? <==>
                  !req.form.uploadLength.Malformed? && !contradicts && (stated.Some? || cfg.usesLengthDeferrer))
            && (CreationOf(cfg, req).Plain? ==>
                  CreationOf(cfg, req).info
                    == FileInfo(if stated.Some? then stated.value else 0, stated.None?, 0, false, false, []))
  {}

  // ------------------------------------------------------------------ full delivery

  /** Nothing fails: neither the locker nor the store nor a callback. */
  predicate Well(env: Env) {
    && env.lock.None? && env.lookup.None? && env.info.None? && env.declare.None? && env.write.None?
    && env.finish.None? && env.finishCallback.None? && CreateRefusal(env).None? && env.infoAgain.None?
  }

  /** An environment in which nothing fails. */
  function NoFailure(): (env: Env)
    ensures Well(env)
  {
    Env(None, None, None, None, None, None, None, None, None, None, None, "", None, None, None, None, 0, None, 0, None)
  }

  /** A stream that ends without a failing read. */
  ghost predicate Clean(source: Stream) {
    source == [] || (!source[0].end.Failure? && (source[0].end.Eof? || Clean(source[1..])))
  }

  /** The store reads on to the end of file, undisturbed, and persists all it got. */
  ghost predicate Drains(plan: seq<WriteEvent>, source: Stream, limit: int) {
    && Stop !in plan
    && var w := WriteRun(StartWrite(NewReader(source, limit)), plan);
    && w.pc.Idle? && w.eof && w.kept == |w.got|
  }

  lemma {:induction false} CleanVerdict(source: Stream, limit: int)
    requires Clean(source)
    ensures Verdict(source, limit) == None
  {
    if source != [] && limit > 0 && source[0].end.More? {
      CleanVerdict(source[1..], limit - |source[0].bytes|);
    }
  }

  lemma Drained(plan: seq<WriteEvent>, source: Stream, limit: int)
    requires Drains(plan, source, limit) && Clean(source) && |Offered(source)| <= limit
    ensures var w := WriteRun(StartWrite(NewReader(source, limit)), plan);
            w.got == Offered(source) && w.kept == |w.got| && HasError(w.reader).None?
  {
    hide WriteRun, Offered, Verdict;
    Delivery(source, limit, plan);
    CleanVerdict(source, limit);
  }

  /** What an upload of B's length is known as when it has n bytes. */
  function InfoAt(b: seq<byte>, n: nat, known: bool): FileInfo {
    FileInfo(|b|, !known, n, false, false, [])
  }

  /** The request sends the bytes c in full, by Content-Length or without, to an upload with n bytes of b. */
  ghost predicate Carries(cfg: Config, x: Exchange, b: seq<byte>, n: nat, known: bool, c: seq<byte>) {
    && Well(x.env) && (x.req.Patch? || x.req.Post?) && x.req.body.Some?
    && Offered(x.req.body.value) == c && Clean(x.req.body.value)
    && (x.req.length == |c| || x.req.length < 0)
    && Drains(x.plan, x.req.body.value, BodyCap(cfg, InfoAt(b, n, known), x.req.length))
  }

  /** The upload has the first n bytes of b; it is finished if and only if it has them all and its length is known. */
  ghost predicate Holding(cfg: Config, s: Slot, b: seq<byte>, n: nat, known: bool) {
    && n <= |b| && s.upload.Some? && s.upload.value.data == b[..n]
    && var info := s.upload.value.info;
    && info.offset == n && !info.isFinal && info.sizeIsDeferred == !known && (known ==> info.size == |b|)
    && s.finishes == (if known && n == |b| then 1 else 0)
    && s.completes == (if known && n == |b| && cfg.notifyCompleteUploads then 1 else 0)
  }

  /** b's length is an int64 and within MaxSize. */
  predicate FitsServer(cfg: Config, b: seq<byte>) {
    |b| <= MAX_INT64 && (cfg.maxSize > 0 ==> |b| <= cfg.maxSize)
  }

  /** An upload that has n bytes of b, and has not been finished. */
  ghost predicate Partly(cfg: Config, s: Slot, b: seq<byte>, n: nat, known: bool) {
    && n <= |b| && s.upload.Some? && s.upload.value.data == b[..n]
    && var info := s.upload.value.info;
    && info.offset == n && !info.isFinal && info.sizeIsDeferred == !known && (known ==> info.size == |b|)
    && s.finishes == 0 && s.completes == 0
  }

  /** The write of a full chunk. */
  lemma ChunkStored(cfg: Config, x: Exchange, s: Slot, b: seq<byte>, n: nat, known: bool, c: seq<byte>)
    requires Partly(cfg, s, b, n, known) && FitsServer(cfg, b) && n + |c| <= |b| && b[n..n + |c|] == c
    requires Carries(cfg, x, b, n, known, c)
    ensures var info := s.upload.value.info;
            var w := WriteRun(Begun(cfg, x.req, info), x.plan);
            && EnterWrite(s, info, x.req.length, x.req.body) == Writes(s, info)
            && HasError(w.reader).None? && w.kept == |c|
            && Partly(cfg, Stored(s, info, w), b, n + |c|, known)
            && Stored(s, info, w).upload.value.info == info.(offset := n + |c|)
  {
    hide Drains, HasError, WriteRun, Clean, Offered;
    var info := s.upload.value.info;
    var limit := BodyCap(cfg, info, x.req.length);
    assert limit == BodyCap(cfg, InfoAt(b, n, known), x.req.length) && |c| <= limit;
    Drained(x.plan, x.req.body.value, limit);
    Appending(b, n, c);
  }

  lemma Appending(b: seq<byte>, n: nat, c: seq<byte>)
    requires n + |c| <= |b| && b[n..n + |c|] == c
    ensures WriteAt(b[..n], n, Cut(c, |c|)) == b[..n + |c|]
  {
    assert Cut(b[..n], n) == b[..n] && Zeros(0) == [] && b[..n] + [] == b[..n] && Cut(c, |c|) == c;
  }

  /** After a full chunk the upload is finished when that made it complete. */
  lemma ChunkReturned(cfg: Config, x: Exchange, info: FileInfo, w: Write, s: Slot, b: seq<byte>, n: nat, known: bool)
    requires Well(x.env) && HasError(w.reader).None? && Partly(cfg, s, b, n, known)
    requires s.upload.value.info == info.(offset := n) && n == info.offset + w.kept
    requires x.req.Post? && x.req.form.FormDraft? && x.req.form.complete ==> known
    ensures Holding(cfg, FromReturn(cfg, x.req, x.env, info, w, s).slot, b, n, known)
  {
    hide HasError;
  }

  predicate Says(h: Header, n: int) {
    h.Value? && h.n == n
  }

  /** A PATCH that carries c to an upload that has n bytes of b, and declares its length or not. */
  ghost predicate Sends(cfg: Config, x: Exchange, b: seq<byte>, n: nat, known: bool, declares: bool, c: seq<byte>) {
    && x.req.Patch? && x.req.contentTypeOk && x.req.id != "" && Says(x.req.offset, n)
    && (if declares then Says(x.req.declare, |b|) else x.req.declare.Absent?)
    && (declares ==> !known && cfg.usesLengthDeferrer)
    && Carries(cfg, x, b, n, known || declares, c)
  }

  lemma PatchDelivers(cfg: Config, x: Exchange, s: Slot, b: seq<byte>, n: nat, known: bool, declares: bool,
                      c: seq<byte>)
    requires FitsServer(cfg, b) && Holding(cfg, s, b, n, known) && n + |c| <= |b| && b[n..n + |c|] == c
    requires Sends(cfg, x, b, n, known, declares, c)
    ensures Holding(cfg, Handle(cfg, x.req, x.env, x.plan, s).slot, b, n + |c|, known || declares)
  {
    hide Carries, Begun, HasError, WriteRun, Stored, FromReturn, TooLong, EnterWrite;
    WellPatch(cfg, x, b, n, known || declares, c);
    if known && n == |b| {
    } else {
      var info := s.upload.value.info;
      var s1 := if declares then DeclareLength(s, |b|) else s;
      ChunkStored(cfg, x, s1, b, n, known || declares, c);
      var w := WriteRun(Begun(cfg, x.req, s1.upload.value.info), x.plan);
      ChunkReturned(cfg, x, s1.upload.value.info, w, Stored(s1, s1.upload.value.info, w), b,
                          n + |c|, known || declares);
    }
  }

  lemma WellPatch(cfg: Config, x: Exchange, b: seq<byte>, n: nat, known: bool, c: seq<byte>)
    requires Carries(cfg, x, b, n, known, c)
    ensures Well(x.env)
  {}

  function Flat(chunks: seq<seq<byte>>): seq<byte> {
    if chunks == [] then [] else Flat(chunks[..|chunks| - 1]) + chunks[|chunks| - 1]
  }

  /** PATCHes that send the chunks one after the other; number declaredAt declares the length if it is not known. */
  ghost predicate SendsAll(cfg: Config, xs: seq<Exchange>, chunks: seq<seq<byte>>, b: seq<byte>, from: nat,
                           known: bool, declaredAt: nat) {
    && |xs| == |chunks|
    && forall i :: 0 <= i < |xs| ==>
         Sends(cfg, xs[i], b, from + |Flat(chunks[..i])|, known || declaredAt < i, !known && declaredAt == i, chunks[i])
  }

  lemma SendsAllParts(cfg: Config, xs: seq<Exchange>, chunks: seq<seq<byte>>, b: seq<byte>, from: nat, known: bool,
                      declaredAt: nat)
    requires SendsAll(cfg, xs, chunks, b, from, known, declaredAt)
    ensures forall x :: x in xs ==> !IsFinalPost(cfg, x.req)
    ensures xs != [] ==>
              var n := |xs| - 1;
              && SendsAll(cfg, xs[..n], chunks[..n], b, from, known, declaredAt)
              && Sends(cfg, xs[n], b, from + |Flat(chunks[..n])|, known || declaredAt < n,
                       !known && declaredAt == n, chunks[n])
  {
    hide Sends, IsFinalPost, Flat;
    forall x | x in xs
      ensures !IsFinalPost(cfg, x.req)
    {
      var i :| 0 <= i < |xs| && xs[i] == x;
      PatchIsNotFinal(cfg, x, b, from + |Flat(chunks[..i])|, known || declaredAt < i,
                      !known && declaredAt == i, chunks[i]);
    }
    if xs != [] {
      var n := |xs| - 1;
      forall i | 0 <= i < n
        ensures chunks[..n][..i] == chunks[..i]
      {}
    }
  }

  lemma FlatLast(chunks: seq<seq<byte>>)
    requires chunks != []
    ensures Flat(chunks) == Flat(chunks[..|chunks| - 1]) + chunks[|chunks| - 1]
  {}

  lemma SliceOfTwo(b: seq<byte>, from: nat, f: seq<byte>, c: seq<byte>)
    requires from <= |b| && f + c <= b[from..]
    ensures f <= b[from..] && from + |f| + |c| <= |b| && b[from + |f|..from + |f| + |c|] == c
  {
    assert b[from..][..|f| + |c|] == f + c;
    assert b[from..][..|f|] == (f + c)[..|f|] == f;
    assert b[from..][|f|..|f| + |c|] == (f + c)[|f|..] == c;
  }

  lemma {:induction false} PatchesDeliver(cfg: Config, s: Slot, xs: seq<Exchange>, chunks: seq<seq<byte>>, b: seq<byte>,
                                          from: nat, known: bool, declaredAt: nat)
    requires FitsServer(cfg, b) && Holding(cfg, s, b, from, known)
    requires SendsAll(cfg, xs, chunks, b, from, known, declaredAt)
    requires from <= |b| && Flat(chunks) <= b[from..]
    ensures forall x :: x in xs ==> !IsFinalPost(cfg, x.req)
    ensures Holding(cfg, Serve(cfg, s, xs), b, from + |Flat(chunks)|, known || declaredAt < |xs|)
  {
    hide Holding, Sends, Handle, IsFinalPost, SendsAll, Flat;
    SendsAllParts(cfg, xs, chunks, b, from, known, declaredAt);
    SameNumber(cfg, xs, chunks, b, from, known, declaredAt);
    if xs != [] {
      var n := |xs| - 1;
      FlatLast(chunks);
      SliceOfTwo(b, from, Flat(chunks[..n]), chunks[n]);
      PatchesDeliver(cfg, s, xs[..n], chunks[..n], b, from, known, declaredAt);
      var at := from + |Flat(chunks[..n])|;
      PatchDelivers(cfg, xs[n], Serve(cfg, s, xs[..n]), b, at,
                    known || declaredAt < n, !known && declaredAt == n, chunks[n]);
    }
  }

  lemma SameNumber(cfg: Config, xs: seq<Exchange>, chunks: seq<seq<byte>>, b: seq<byte>, from: nat, known: bool,
                   declaredAt: nat)
    requires SendsAll(cfg, xs, chunks, b, from, known, declaredAt)
    ensures |xs| == |chunks| && (chunks == [] ==> Flat(chunks) == [])
  {
    hide Sends;
  }

  lemma PatchIsNotFinal(cfg: Config, x: Exchange, b: seq<byte>, n: nat, known: bool, declares: bool, c: seq<byte>)
    requires Sends(cfg, x, b, n, known, declares, c)
    ensures !IsFinalPost(cfg, x.req)
  {}

  // ------------------------------------------------------------------ the ways to deliver a body

  /**
   A v1 POST, with a first chunk or without, that states the length or defers it, and PATCHes
   of which number declaredAt then declares it; or one draft POST marked complete.
   */
  datatype Way =
    | InChunks(post: Exchange, first: Option<seq<byte>>, known: bool,
               patches: seq<Exchange>, chunks: seq<seq<byte>>, declaredAt: nat)
    | AtOnce(post: Exchange)

  function Exchanges(way: Way): seq<Exchange> {
    if way.AtOnce? then [way.post] else [way.post] + way.patches
  }

  /** A POST that the server accepts and that creates a plain upload with a new ID. */
  predicate Accepted(cfg: Config, x: Exchange) {
    x.req.Post? && Well(x.env) && Refusal(cfg, x.req).None? && !IsFinalPost(cfg, x.req)
  }

  /** This way sends all of b, in order and without failures. */
  ghost predicate Proper(cfg: Config, way: Way, b: seq<byte>) {
    && Accepted(cfg, way.post)
    && match way
    case InChunks(post, first, known, patches, chunks, declaredAt) =>
      var start := if first.Some? then first.value else [];
      && post.req.form.FormV1? && post.req.form.chunk == first.Some?
      && (if known then Says(post.req.form.uploadLength, |b|)
          else post.req.form.deferLength == "1" && declaredAt < |patches|)
      && (first.Some? ==> Carries(cfg, post, b, 0, known, start))
      && start + Flat(chunks) == b && SendsAll(cfg, patches, chunks, b, |start|, known, declaredAt)
    case AtOnce(post) =>
      && post.req.form.FormDraft? && post.req.form.complete
      && (post.req.form.uploadLength.Absent? || Says(post.req.form.uploadLength, |b|))
      && Carries(cfg, post, b, 0, post.req.length >= 0 || post.req.form.uploadLength.Value?, b)
  }

  /** What a v1 POST creates. */
  lemma V1Creation(cfg: Config, x: Exchange)
    requires Accepted(cfg, x) && x.req.form.FormV1?
    ensures CreationOf(cfg, x.req).Plain?
    ensures var info := CreationOf(cfg, x.req).info;
            && info.offset == 0 && !info.isFinal && (info.sizeIsDeferred <==> x.req.form.deferLength == "1")
            && (!info.sizeIsDeferred ==> Says(x.req.form.uploadLength, info.size))
            && (x.req.form.uploadLength.Value? ==> !info.sizeIsDeferred)
  {
    hide CreationOf, UploadConcat.ParseConcat;
    PlainAccepted(cfg, x);
    V1CreationIff(cfg, x.req);
  }

  lemma PlainAccepted(cfg: Config, x: Exchange)
    requires Accepted(cfg, x)
    ensures CreationOf(cfg, x.req).Plain?
    ensures CreationOf(cfg, x.req).info.offset == 0 && !CreationOf(cfg, x.req).info.isFinal
  {
    hide UploadConcat.ParseConcat;
  }

  /** What a draft POST that is marked complete creates. */
  lemma DraftCreation(cfg: Config, x: Exchange, b: seq<byte>)
    requires Accepted(cfg, x) && x.req.form.FormDraft? && x.req.form.complete
    requires x.req.form.uploadLength.Absent? || Says(x.req.form.uploadLength, |b|)
    requires x.req.length == |b| || x.req.length < 0
    ensures CreationOf(cfg, x.req).Plain?
    ensures var info := CreationOf(cfg, x.req).info;
            && info.offset == 0 && !info.isFinal
            && (info.sizeIsDeferred <==> !(x.req.length >= 0 || x.req.form.uploadLength.Value?))
            && (!info.sizeIsDeferred ==> info.size == |b|)
  {
    hide CreationOf;
    PlainAccepted(cfg, x);
    DraftCreationIff(cfg, x.req);
  }

  /** The POST of a v1 delivery. */
  lemma PostDelivers(cfg: Config, x: Exchange, b: seq<byte>, known: bool, c: seq<byte>)
    requires FitsServer(cfg, b) && Accepted(cfg, x) && x.req.form.FormV1?
    requires if known then Says(x.req.form.uploadLength, |b|) else x.req.form.deferLength == "1"
    requires if x.req.form.chunk then Carries(cfg, x, b, 0, known, c) && c <= b else c == []
    ensures Holding(cfg, Handle(cfg, x.req, x.env, x.plan, UNUSED).slot, b, |c|, known)
  {
    hide Carries, CreationOf, Begun, HasError, WriteRun, Stored, FromReturn, TooLong, EnterWrite;
    V1Creation(cfg, x);
    var info := CreationOf(cfg, x.req).info;
    var s := NewUpload(UNUSED, info, V1);
    assert b[..0] == [];
    if x.req.form.chunk {
      assert b[0..|c|] == c;
      ChunkStored(cfg, x, s, b, 0, known, c);
      var w := WriteRun(Begun(cfg, x.req, info), x.plan);
      ChunkReturned(cfg, x, info, w, Stored(s, info, w), b, |c|, known);
    }
  }

  /** The single POST of a draft delivery. */
  lemma DraftDelivers(cfg: Config, x: Exchange, b: seq<byte>)
    requires FitsServer(cfg, b) && Proper(cfg, AtOnce(x), b)
    ensures !IsFinalPost(cfg, x.req)
    ensures Holding(cfg, Handle(cfg, x.req, x.env, x.plan, UNUSED).slot, b, |b|, true)
  {
    hide CreationOf, Begun, HasError, WriteRun, Stored, TooLong, EnterWrite, Drains, Clean, Offered;
    DraftCreation(cfg, x, b);
    var known := x.req.length >= 0 || x.req.form.uploadLength.Value?;
    var info := CreationOf(cfg, x.req).info;
    var s := NewUpload(UNUSED, info, Draft);
    assert b[..0] == [] && b[0..|b|] == b;
    ChunkStored(cfg, x, s, b, 0, known, b);
    var w := WriteRun(Begun(cfg, x.req, info), x.plan);
    if known {
      ChunkReturned(cfg, x, info, w, Stored(s, info, w), b, |b|, known);
    } else {
      DraftEnds(cfg, x, info, w, Stored(s, info, w), b);
    }
  }

  /** The length of a deferred draft upload is declared at its end. */
  lemma DraftEnds(cfg: Config, x: Exchange, info: FileInfo, w: Write, s: Slot, b: seq<byte>)
    requires Well(x.env) && x.req.Post? && x.req.form.FormDraft? && x.req.form.complete && HasError(w.reader).None?
    requires Partly(cfg, s, b, |b|, false) && info.sizeIsDeferred && |b| == info.offset + w.kept
    ensures Holding(cfg, FromReturn(cfg, x.req, x.env, info, w, s).slot, b, |b|, true)
  {
    hide HasError;
  }

  /**
   Chunking confluence.  For a body within MaxSize, every way of delivering it in full ends with
   its bytes, its size and its offset, not deferred, and one FinishUpload call; so any two ways
   end with the same.
   */
  lemma Confluent(cfg: Config, way: Way, b: seq<byte>)
    requires FitsServer(cfg, b) && Proper(cfg, way, b)
    ensures forall x :: x in Exchanges(way) ==> !IsFinalPost(cfg, x.req)
    ensures var s := Serve(cfg, UNUSED, Exchanges(way));
            && s.upload.Some? && s.upload.value.data == b
            && s.upload.value.info.size == s.upload.value.info.offset == |b|
            && !s.upload.value.info.sizeIsDeferred && !s.upload.value.info.isFinal
            && s.finishes == 1 && s.completes == (if cfg.notifyCompleteUploads then 1 else 0)
  {
    hide Proper, Handle, IsFinalPost, FitsServer, Holding, Serve;
    match way {
      case AtOnce(post) =>
        DraftDelivers(cfg, post, b);
        ServeOne(cfg, UNUSED, post);
      case InChunks(_, _, _, _, _, _) => ChunksDeliver(cfg, way, b);
    }
    HoldsAll(cfg, Serve(cfg, UNUSED, Exchanges(way)), b);
  }

  lemma HoldsAll(cfg: Config, s: Slot, b: seq<byte>)
    requires Holding(cfg, s, b, |b|, true)
    ensures s.upload.Some? && s.upload.value.data == b
    ensures s.upload.value.info.size == s.upload.value.info.offset == |b|
    ensures !s.upload.value.info.sizeIsDeferred && !s.upload.value.info.isFinal
    ensures s.finishes == 1 && s.completes == (if cfg.notifyCompleteUploads then 1 else 0)
  {
    assert b[..|b|] == b;
  }

  lemma ChunksDeliver(cfg: Config, way: Way, b: seq<byte>)
    requires FitsServer(cfg, b) && Proper(cfg, way, b) && way.InChunks?
    ensures forall x :: x in Exchanges(way) ==> !IsFinalPost(cfg, x.req)
    ensures Holding(cfg, Serve(cfg, UNUSED, Exchanges(way)), b, |b|, true)
  {
    hide Carries, Handle, IsFinalPost, SendsAll, Flat, FitsServer, Holding, Serve, Refusal, Well;
    var start := if way.first.Some? then way.first.value else [];
    PostDelivers(cfg, way.post, b, way.known, start);
    assert b[|start|..] == Flat(way.chunks);
    SameNumber(cfg, way.patches, way.chunks, b, |start|, way.known, way.declaredAt);
    var s := Handle(cfg, way.post.req, way.post.env, way.post.plan, UNUSED).slot;
    PatchesDeliver(cfg, s, way.patches, way.chunks, b, |start|, way.known, way.declaredAt);
    ServeCons(cfg, UNUSED, way.post, way.patches);
  }

  lemma ServeOne(cfg: Config, s: Slot, x: Exchange)
    requires !IsFinalPost(cfg, x.req)
    ensures Serve(cfg, s, [x]) == Handle(cfg, x.req, x.env, x.plan, s).slot
  {
    hide Handle, IsFinalPost;
    assert [x][..0] == [];
    assert Serve(cfg, s, [x][..0]) == s;
  }

  lemma {:induction false} ServeCons(cfg: Config, s: Slot, x: Exchange, xs: seq<Exchange>)
    requires !IsFinalPost(cfg, x.req) && forall y :: y in xs ==> !IsFinalPost(cfg, y.req)
    ensures forall y :: y in [x] + xs ==> !IsFinalPost(cfg, y.req)
    ensures Serve(cfg, s, [x] + xs) == Serve(cfg, Handle(cfg, x.req, x.env, x.plan, s).slot, xs)
  {
    hide Handle, IsFinalPost;
    ServeOne(cfg, s, x);
    if xs == [] {
      assert [x] + xs == [x];
    } else {
      var n := |xs| - 1;
      ServeCons(cfg, s, x, xs[..n]);
      assert ([x] + xs)[..n + 1] == [x] + xs[..n];
    }
  }
}
