/**
 Concatenation from start to end: the total that sizeOfUploads computes, and what a POST that
 creates a final upload does when nothing comes in between (unrouted.go).
 */
module Finals {
  import opened Prelude
  import opened BodyReaders
  import opened Lifecycle
  import UploadConcat

  // ------------------------------------------------------------------ sums

  function Sum(sizes: seq<int>): int {
    if sizes == [] then 0 else Sum(sizes[..|sizes| - 1]) + sizes[|sizes| - 1]
  }

  /** The int64 that sizeOfUploads ends up with. */
  function WrapSum(sizes: seq<int>): int64 {
    if sizes == [] then 0 else Wrap(WrapSum(sizes[..|sizes| - 1]) + sizes[|sizes| - 1])
  }

  ghost predicate AllNat(sizes: seq<int>) {
    forall j :: 0 <= j < |sizes| ==> 0 <= sizes[j]
  }

  lemma {:induction false} SumPrefix(sizes: seq<int>, j: nat)
    requires AllNat(sizes) && j <= |sizes|
    ensures 0 <= Sum(sizes[..j]) <= Sum(sizes)
    ensures j < |sizes| ==> Sum(sizes[..j + 1]) == Sum(sizes[..j]) + sizes[j] <= Sum(sizes)
  {
    if j == |sizes| {
      assert sizes[..j] == sizes;
      if sizes != [] {
        SumPrefix(sizes[..j - 1], 0);
        SumPrefix(sizes[..j - 1], j - 1);
        assert sizes[..j - 1][..j - 1] == sizes[..j - 1];
      }
    } else {
      var front := sizes[..|sizes| - 1];
      SumPrefix(front, j);
      assert front[..j] == sizes[..j];
      assert sizes[..j + 1][..j] == sizes[..j];
      if j + 1 < |sizes| { assert front[..j + 1] == sizes[..j + 1]; } else { assert sizes[..j + 1] == sizes; }
    }
  }

  lemma SumSnoc(sizes: seq<int>, n: int)
    ensures Sum(sizes + [n]) == Sum(sizes) + n
    ensures WrapSum(sizes + [n]) == Wrap(WrapSum(sizes) + n)
  {
    assert (sizes + [n])[..|sizes|] == sizes;
  }

  /** The total that sizeOfUploads computes is the sum of the sizes exactly when that sum is an int64. */
  lemma {:induction false} TotalIsExact(sizes: seq<int>)
    requires AllNat(sizes)
    ensures WrapSum(sizes) == Sum(sizes) <==> Sum(sizes) <= MAX_INT64
  {
    if sizes != [] {
      TotalIsExact(sizes[..|sizes| - 1]);
      SumPrefix(sizes, 0);
      SumPrefix(sizes, |sizes| - 1);
    }
  }

  // ------------------------------------------------------------------ joining

  /** An upload with more bytes at its end. */
  function Appended(u: Upload, b: seq<byte>): Upload {
    Upload(u.info.(offset := |u.data + b|), u.data + b)
  }

  /** An upload after more bytes have been appended, by n appends. */
  function Grown(u: Upload, more: seq<byte>, n: nat): Upload {
    if n == 0 then u else Upload(u.info.(offset := |u.data + more|), u.data + more)
  }

  /** The bytes of the named files, one after the other. */
  function JoinedFiles(files: map<ID, Upload>, parts: seq<ID>): seq<byte> {
    if parts == [] then []
    else
      var last := parts[|parts| - 1];
      JoinedFiles(files, parts[..|parts| - 1]) + if last in files then files[last].data else []
  }

  lemma GrowsByOne(files: map<ID, Upload>, u: Upload, parts: seq<ID>, n: nat)
    requires n < |parts| && parts[n] in files
    ensures Appended(Grown(u, JoinedFiles(files, parts[..n]), n), files[parts[n]].data)
         == Grown(u, JoinedFiles(files, parts[..n + 1]), n + 1)
  {
    assert parts[..n + 1][..n] == parts[..n];
    var joined, b := JoinedFiles(files, parts[..n]), files[parts[n]].data;
    assert u.data + joined + b == u.data + (joined + b);
    if n == 0 {
      assert parts[..n] == [] && joined + b == b;
    }
  }

  /** The parts' bytes are not affected by a new upload. */
  lemma {:induction false} SameBytes(files: map<ID, Upload>, id: ID, u: Upload, parts: seq<ID>)
    requires id !in files && AllFinished(files, parts)
    ensures id !in parts && forall part :: part in parts ==> part in files
    ensures forall k :: 0 <= k <= |parts| ==> JoinedFiles(files[id := u], parts[..k]) == JoinedFiles(files, parts[..k])
  {
    hide Complete;
    if parts != [] {
      var n := |parts| - 1;
      SameBytes(files, id, u, parts[..n]);
      forall k | 0 <= k <= |parts|
        ensures JoinedFiles(files[id := u], parts[..k]) == JoinedFiles(files, parts[..k])
      {
        if k == |parts| {
          assert parts[..k] == parts && parts[..n][..n] == parts[..n];
        } else {
          assert parts[..n][..k] == parts[..k];
        }
      }
    }
  }

  // ------------------------------------------------------------------ final uploads, start to end

  datatype Total = Total(sizes: seq<int>) | NoTotal(error: Error)

  /** The sizes of the named uploads in order, or the error at the first that is missing or not finished. */
  function PartSizes(env: Env, files: map<ID, Upload>, ids: seq<ID>): Total {
    if ids == [] then Total([])
    else
      match PartSizes(env, files, ids[..|ids| - 1])
      case NoTotal(e) => NoTotal(e)
      case Total(sizes) =>
        var id := ids[|ids| - 1];
        if env.sizing.Some? && env.sizingAt == |ids| - 1 then NoTotal(env.sizing.value)
        else if id !in files then NoTotal(ErrNotFound)
        else if !Complete(files[id].info) then NoTotal(ErrUploadNotFinished)
        else Total(sizes + [files[id].info.size])
  }

  lemma PartSizesNone(env: Env, files: map<ID, Upload>)
    ensures PartSizes(env, files, []) == Total([]) && WrapSum([]) == 0
  {}

  /** The total after one more part. */
  lemma PartSizesSnoc(env: Env, files: map<ID, Upload>, ids: seq<ID>, id: ID)
    requires PartSizes(env, files, ids).Total?
    ensures PartSizes(env, files, ids + [id])
         == if env.sizing.Some? && env.sizingAt == |ids| then NoTotal(env.sizing.value)
            else if id !in files then NoTotal(ErrNotFound)
            else if files[id].info.sizeIsDeferred || files[id].info.offset != files[id].info.size
                 then NoTotal(ErrUploadNotFinished)
            else Total(PartSizes(env, files, ids).sizes + [files[id].info.size])
  {
    assert (ids + [id])[..|ids|] == ids;
  }

  ghost predicate AllFinished(files: map<ID, Upload>, ids: seq<ID>) {
    forall j :: 0 <= j < |ids| ==> ids[j] in files && Complete(files[ids[j]].info)
  }

  /** There is a total exactly when every named upload exists and is finished. */
  lemma {:induction false} PartSizesIff(env: Env, files: map<ID, Upload>, ids: seq<ID>)
    ensures PartSizes(env, files, ids).Total? <==>
            (env.sizing.Some? ==> |ids| <= env.sizingAt) && AllFinished(files, ids)
    ensures PartSizes(env, files, ids).Total? ==> |PartSizes(env, files, ids).sizes| == |ids|
  {
    hide Complete;
    if ids != [] {
      var n := |ids| - 1;
      PartSizesIff(env, files, ids[..n]);
      forall j | 0 <= j < n
        ensures ids[..n][j] == ids[j]
      {}
    }
  }

  /** It lists the sizes in the order of the names. */
  lemma {:induction false} PartSizesAt(env: Env, files: map<ID, Upload>, ids: seq<ID>, j: nat)
    requires PartSizes(env, files, ids).Total? && j < |ids|
    ensures ids[j] in files && |PartSizes(env, files, ids).sizes| == |ids|
    ensures PartSizes(env, files, ids).sizes[j] == files[ids[j]].info.size
  {
    hide Complete;
    var n := |ids| - 1;
    if n > 0 {
      PartSizesAt(env, files, ids[..n], if j < n then j else 0);
    }
  }

  /** What the first k parts can do to the outcome; an error stays. */
  lemma {:induction false} PartSizesPrefix(env: Env, files: map<ID, Upload>, ids: seq<ID>, k: nat)
    requires k <= |ids| && PartSizes(env, files, ids[..k]).NoTotal?
    ensures PartSizes(env, files, ids) == PartSizes(env, files, ids[..k])
  {
    if k == |ids| {
      assert ids[..k] == ids;
    } else {
      assert ids[..|ids| - 1][..k] == ids[..k];
      PartSizesPrefix(env, files, ids[..|ids| - 1], k);
    }
  }

  /** A POST that creates a final upload, start to end. */
  function FinalOutcome(cfg: Config, req: Request, env: Env, files: map<ID, Upload>, s: Slot): Outcome
    requires IsFinalPost(cfg, req)
  {
    match PartSizes(env, files, CreationOf(cfg, req).parts)
    case NoTotal(e) => Outcome(s, Err(e))
    case Total(sizes) =>
      if TooBig(cfg, WrapSum(sizes)) then Outcome(s, Err(ErrMaxSizeExceeded))
      else if CreateRefusal(env).Some? then Outcome(s, Err(CreateRefusal(env).value))
      else
        var info := FileInfo(WrapSum(sizes), false, 0, false, true, CreationOf(cfg, req).parts);
        FromFinal(cfg, req, env, files, info, NewUpload(s, info, V1Final))
  }

  function FromFinal(cfg: Config, req: Request, env: Env, files: map<ID, Upload>, info: FileInfo, s: Slot): Outcome
    requires req.Post? && s.upload.Some?
  {
    var parts := info.partialUploads;
    var joined := if env.concat.Some? && env.concatAt < |parts| then env.concatAt else |parts|;
    var s1 := s.(upload := Some(Grown(s.upload.value, JoinedFiles(files, parts[..joined]), joined)));
    if env.info.Some? then Outcome(s, Err(env.info.value))
    else if env.concat.Some? && env.concatAt <= |parts| then Outcome(s1, Err(env.concat.value))
    else
      var f := Lifecycle.EmitFinishEvents(cfg, env.concatCallback, s1);
      if f.error.Some? then Outcome(f.slot, Err(f.error.value))
      else if info.size == 0 then FromTailFinish(cfg, env, info, f.slot, Created(req.id, None))
      else Outcome(f.slot, Created(req.id, None))
  }

  /** A final POST that answers success leaves the parts' bytes, joined in header order, and the sum of their sizes. */
  lemma FinalOutcomeJoins(cfg: Config, req: Request, env: Env, files: map<ID, Upload>, s: Slot)
    requires IsFinalPost(cfg, req)
    ensures var parts := CreationOf(cfg, req).parts;
            var t := FinalOutcome(cfg, req, env, files, s).slot;
            FinalOutcome(cfg, req, env, files, s).response.Created? ==>
              && PartSizes(env, files, parts).Total?
              && t.upload.Some? && t.upload.value.data == JoinedFiles(files, parts)
              && t.upload.value.info.partialUploads == parts
              && t.upload.value.info.size == WrapSum(PartSizes(env, files, parts).sizes)
              && t.finishes == s.finishes + (if t.upload.value.info.size == 0 then 1 else 0)
  {
    hide CreationOf, PartSizes, TooBig, WrapSum;
    var parts := CreationOf(cfg, req).parts;
    assert parts[..|parts|] == parts;
    if parts == [] {
      assert JoinedFiles(files, parts) == [];
    } else {
      assert [] + JoinedFiles(files, parts) == JoinedFiles(files, parts);
    }
  }

  // ------------------------------------------------------------------ complete events

  /** How many complete events a final upload of this size has when its POST succeeds. */
  function EventsOf(cfg: Config, size: int): nat {
    if !cfg.notifyCompleteUploads then 0 else if size == 0 then 2 else 1
  }

  /** A final POST that answers success sends two events if and only if events are on and the size is zero. */
  lemma FinalEvents(cfg: Config, req: Request, env: Env, files: map<ID, Upload>, s: Slot)
    requires IsFinalPost(cfg, req)
    ensures var o := FinalOutcome(cfg, req, env, files, s);
            o.response.Created? ==>
              && o.slot.upload.Some?
              && o.slot.completes == s.completes + EventsOf(cfg, o.slot.upload.value.info.size)
              && (o.slot.completes == s.completes + 2 <==>
                    cfg.notifyCompleteUploads && o.slot.upload.value.info.size == 0)
  {
    hide CreationOf, PartSizes, TooBig, WrapSum, JoinedFiles;
  }

  /** One empty finished part: the POST that makes a final upload of it succeeds and sends two complete events. */
  lemma EmptyFinalCompletesTwice(cfg: Config, env: Env)
    requires cfg.usesConcater && !cfg.disableConcatenation && cfg.basePath == "http://h/f/"
    requires cfg.notifyCompleteUploads && AllWell(env) && env.finish.None? && env.finishCallback.None?
    ensures var loc := UploadConcat.Location(true, cfg.basePath, false, "");
            var req := Post("c", FormV1(UploadConcat.Printed(loc, ["a"]), Absent, "", false), 0, None);
            var a := Upload(FileInfo(0, false, 0, true, false, []), []);
            && IsFinalPost(cfg, req)
            && var o := FinalOutcome(cfg, req, env, map["a" := a], UNUSED);
            && o.response == Created("c", None) && o.slot.upload.Some?
            && o.slot.upload.value.info.size == 0 && o.slot.finishes == 1 && o.slot.completes == 2
  {
    hide UploadConcat.ParseConcat, UploadConcat.Printed, IsFinalPost, CreationOf, FinalOutcome;
    var loc := UploadConcat.Location(true, cfg.basePath, false, "");
    UploadConcat.RoundTrip(loc, ["a"]);
    var req := Post("c", FormV1(UploadConcat.Printed(loc, ["a"]), Absent, "", false), 0, None);
    FinalForm(cfg, req, ["a"]);
    var files := map["a" := Upload(FileInfo(0, false, 0, true, false, []), [])];
    OneSize(env, files, "a");
    FinalAnswers(cfg, req, env, files, UNUSED);
    FinalEvents(cfg, req, env, files, UNUSED);
    FinalOutcomeJoins(cfg, req, env, files, UNUSED);
  }

  lemma OneSize(env: Env, files: map<ID, Upload>, id: ID)
    requires id in files && Complete(files[id].info) && env.sizing.None? && files[id].info.size == 0
    ensures PartSizes(env, files, [id]) == Total([0]) && WrapSum([0]) == 0
  {
    assert [id][..0] == [] && [] + [0] == [0];
    SumSnoc([], 0);
  }

  // ------------------------------------------------------------------ when size and offset agree

  /** Every upload's offset counts its bytes. */
  ghost predicate Counting(files: map<ID, Upload>) {
    forall id :: id in files ==> files[id].info.offset == |files[id].data|
  }

  lemma {:induction false} JoinedLength(env: Env, files: map<ID, Upload>, ids: seq<ID>)
    requires PartSizes(env, files, ids).Total? && Counting(files)
    ensures AllNat(PartSizes(env, files, ids).sizes)
    ensures |JoinedFiles(files, ids)| == Sum(PartSizes(env, files, ids).sizes)
  {
    if ids != [] {
      var n := |ids| - 1;
      JoinedLength(env, files, ids[..n]);
      SumSnoc(PartSizes(env, files, ids[..n]).sizes, files[ids[n]].info.size);
    }
  }

  /** A POST that creates a final upload names at least one part. */
  lemma SomeParts(cfg: Config, req: Request)
    requires IsFinalPost(cfg, req)
    ensures CreationOf(cfg, req).parts != []
  {
    hide UploadConcat.ExtractAll;
  }

  /**
   A final POST that answers success leaves an upload whose offset is the sum of the parts'
   sizes, and whose size is its offset if and only if that sum is an int64.
   */
  lemma SizeIsOffsetIff(cfg: Config, req: Request, env: Env, files: map<ID, Upload>, s: Slot)
    requires IsFinalPost(cfg, req) && Counting(files)
    ensures var o := FinalOutcome(cfg, req, env, files, s);
            var sizes := PartSizes(env, files, CreationOf(cfg, req).parts);
            o.response.Created? ==>
              && sizes.Total? && o.slot.upload.Some? && o.slot.upload.value.info.offset == Sum(sizes.sizes)
              && (o.slot.upload.value.info.size == o.slot.upload.value.info.offset <==> Sum(sizes.sizes) <= MAX_INT64)
  {
    hide CreationOf, PartSizes, TooBig, WrapSum, Sum, JoinedFiles;
    var parts := CreationOf(cfg, req).parts;
    SomeParts(cfg, req);
    FinalOutcomeJoins(cfg, req, env, files, s);
    FinalOffset(cfg, req, env, files, s);
    if FinalOutcome(cfg, req, env, files, s).response.Created? {
      JoinedLength(env, files, parts);
      TotalIsExact(PartSizes(env, files, parts).sizes);
    }
  }

  lemma FinalOffset(cfg: Config, req: Request, env: Env, files: map<ID, Upload>, s: Slot)
    requires IsFinalPost(cfg, req) && CreationOf(cfg, req).parts != []
    ensures var o := FinalOutcome(cfg, req, env, files, s);
            o.response.Created? ==> o.slot.upload.Some? && o.slot.upload.value.info.offset == |o.slot.upload.value.data|
  {
    hide CreationOf, PartSizes, TooBig, WrapSum, JoinedFiles;
  }

  /** Nothing fails for a final POST. */
  predicate AllWell(env: Env) {
    CreateRefusal(env).None? && env.sizing.None? && env.info.None? && env.concat.None? && env.concatCallback.None?
  }

  /**
   Two finished parts whose sizes add up to one more than an int64 can hold: the POST that joins
   them is answered with success under any MaxSize, and leaves a negative size.
   */
  lemma OverflowSlipsThrough(cfg: Config, env: Env)
    requires cfg.usesConcater && !cfg.disableConcatenation && cfg.basePath == "http://h/f/" && AllWell(env)
    ensures var loc := UploadConcat.Location(true, cfg.basePath, false, "");
            var req := Post("c", FormV1(UploadConcat.Printed(loc, ["a", "b"]), Absent, "", false), 0, None);
            var a := Upload(FileInfo(MAX_INT64, false, MAX_INT64, true, false, []), Zeros(MAX_INT64));
            var b := Upload(FileInfo(1, false, 1, true, false, []), [0]);
            && IsFinalPost(cfg, req)
            && var o := FinalOutcome(cfg, req, env, map["a" := a, "b" := b], UNUSED);
            && o.response == Created("c", None) && o.slot.upload.Some?
            && o.slot.upload.value.info.size == MIN_INT64 && o.slot.upload.value.info.offset == MAX_INT64 + 1
  {
    hide UploadConcat.ParseConcat, UploadConcat.Printed, Zeros, IsFinalPost, CreationOf, FinalOutcome;
    var loc := UploadConcat.Location(true, cfg.basePath, false, "");
    UploadConcat.RoundTrip(loc, ["a", "b"]);
    var req := Post("c", FormV1(UploadConcat.Printed(loc, ["a", "b"]), Absent, "", false), 0, None);
    FinalForm(cfg, req, ["a", "b"]);
    var a := Upload(FileInfo(MAX_INT64, false, MAX_INT64, true, false, []), Zeros(MAX_INT64));
    var b := Upload(FileInfo(1, false, 1, true, false, []), [0]);
    var files := map["a" := a, "b" := b];
    TwoSizes(env, files);
    FinalAnswers(cfg, req, env, files, UNUSED);
    SizeIsOffsetIff(cfg, req, env, files, UNUSED);
    FinalOutcomeJoins(cfg, req, env, files, UNUSED);
  }

  /** What its header is parsed into decides that a POST creates a final upload. */
  lemma FinalForm(cfg: Config, req: Request, ids: seq<ID>)
    requires cfg.usesConcater && !cfg.disableConcatenation && req.Post? && req.form.FormV1? && !req.form.chunk
    requires UploadConcat.ParseConcat(req.form.concat, cfg.basePath) == UploadConcat.Concat(false, true, ids, None)
    ensures IsFinalPost(cfg, req) && CreationOf(cfg, req) == FinalOf(ids)
  {
    hide UploadConcat.ParseConcat;
  }

  /** With finished parts and no failure a final POST succeeds, unless its 64-bit total exceeds MaxSize. */
  lemma FinalAnswers(cfg: Config, req: Request, env: Env, files: map<ID, Upload>, s: Slot)
    requires IsFinalPost(cfg, req) && PartSizes(env, files, CreationOf(cfg, req).parts).Total? && AllWell(env)
    requires WrapSum(PartSizes(env, files, CreationOf(cfg, req).parts).sizes) == 0 ==>
                  env.finish.None? && env.finishCallback.None?
    ensures FinalOutcome(cfg, req, env, files, s).response
         == if TooBig(cfg, WrapSum(PartSizes(env, files, CreationOf(cfg, req).parts).sizes))
            then Err(ErrMaxSizeExceeded)
            else Created(req.id, None)
  {
    hide CreationOf, PartSizes, TooBig, WrapSum, JoinedFiles;
  }

  lemma TwoSizes(env: Env, files: map<ID, Upload>)
    requires "a" in files && "b" in files && Complete(files["a"].info) && Complete(files["b"].info) && env.sizing.None?
    requires files["a"].info.size == MAX_INT64 && files["b"].info.size == 1
    ensures PartSizes(env, files, ["a", "b"]) == Total([MAX_INT64, 1])
    ensures Sum([MAX_INT64, 1]) == MAX_INT64 + 1 && WrapSum([MAX_INT64, 1]) == MIN_INT64
  {
    assert ["a", "b"][..1] == ["a"] && ["a"][..0] == [];
    assert PartSizes(env, files, ["a"]) == Total([MAX_INT64]);
    SumSnoc([MAX_INT64], 1);
    SumSnoc([], MAX_INT64);
    assert [MAX_INT64] + [1] == [MAX_INT64, 1] && [] + [MAX_INT64] == [MAX_INT64];
  }
}
