/**
 The collaborators of the handlers: an in-memory store (the one of handler_test.go, made to fail
 on demand), a locker that is exclusive per ID, and the stop-callback registry (hooks.go).
 */
module Stores {
  import opened Prelude
  import opened BodyReaders
  import opened Lifecycle
  import opened Finals

  /** How often an ID occurs in a log of calls. */
  function Times(log: seq<ID>, id: ID): nat {
    if log == [] then 0 else Times(log[..|log| - 1], id) + if log[|log| - 1] == id then 1 else 0
  }

  lemma TimesSnoc(log: seq<ID>, id: ID)
    ensures forall other: ID :: Times(log + [id], other) == Times(log, other) + if other == id then 1 else 0
  {
    assert (log + [id])[..|log|] == log;
  }

  /** A lock per ID.  answer is what the locker reports if it fails; a lock that is held is waited for in vain. */
  class Locker {
    var held: set<ID>

    constructor ()
      ensures held == {}
    {
      held := {};
    }

    method Lock(id: ID, answer: Option<Error>) returns (err: Option<Error>)
      modifies this
      ensures err.None? <==> answer.None? && id !in old(held)
      ensures held == if err.None? then old(held) + {id} else old(held)
      ensures err.Some? ==> err == (if answer.Some? then answer else Some(ErrLockTimeout))
    {
      err := if answer.Some? then answer else if id in held then Some(ErrLockTimeout) else None;
      if err.None? {
        held := held + {id};
      }
    }

    method Unlock(id: ID)
      requires id in held
      modifies this
      ensures held == old(held) - {id}
    {
      held := held - {id};
    }
  }

  /** The stop callbacks: each one closes the body reader it was registered for. */
  class StopRegistry {
    var callbacks: map<ID, BodyReader>

    constructor ()
      ensures callbacks == map[]
    {
      callbacks := map[];
    }

    method RegisterStopCallback(id: ID, reader: BodyReader)
      modifies this
      ensures callbacks == old(callbacks)[id := reader]
    {
      callbacks := callbacks[id := reader];
    }

    method UnregisterStopCallback(id: ID)
      modifies this
      ensures callbacks == old(callbacks) - {id}
    {
      callbacks := callbacks - {id};
    }

    method TriggerStopUpload(id: ID)
      modifies if id in callbacks then {callbacks[id]} else {}
      ensures id in callbacks ==> callbacks[id].Value() == AfterClose(old(callbacks[id].Value()), ErrUploadStopped)
    {
      if id in callbacks {
        callbacks[id].CloseWithError(ErrUploadStopped);
      }
    }
  }

  /** made remembers which kind of POST created an upload, finished logs the FinishUpload calls. */
  class MemStore {
    var files: map<ID, Upload>
    ghost var made: map<ID, Origin>
    var finished: seq<ID>

    constructor ()
      ensures files == map[] && made == map[] && finished == []
    {
      files, made, finished := map[], map[], [];
    }

    method NewUpload(id: ID, info: FileInfo, ghost origin: Origin, answer: Option<Error>) returns (err: Option<Error>)
      modifies this
      ensures err == answer && finished == old(finished)
      ensures err.Some? ==> files == old(files) && made == old(made)
      ensures err.None? ==> files == old(files)[id := Upload(info, [])] && made == old(made)[id := origin]
    {
      err := answer;
      if err.None? {
        files, made := files[id := Upload(info, [])], made[id := origin];
      }
    }

    method GetUpload(id: ID, answer: Option<Error>) returns (err: Option<Error>)
      ensures err.None? <==> answer.None? && id in files
      ensures err.Some? ==> err == (if answer.Some? then answer else Some(ErrNotFound))
    {
      err := if answer.Some? then answer else if id in files then None else Some(ErrNotFound);
    }

    method GetInfo(id: ID, answer: Option<Error>) returns (r: Result<FileInfo, Error>)
      ensures r.Ok? <==> answer.None? && id in files
      ensures if r.Ok? then r.value == files[id].info
              else r.error == (if answer.Some? then answer.value else ErrNotFound)
    {
      r := if answer.Some? then Fail(answer.value) else if id in files then Ok(files[id].info) else Fail(ErrNotFound);
    }

    method GetReader(id: ID, answer: Option<Error>) returns (r: Result<seq<byte>, Error>)
      ensures r.Fail? <==> answer.Some?
      ensures if r.Fail? then Some(r.error) == answer else id in files ==> r.value == files[id].data
      ensures r.Ok? && id !in files ==> r.value == []
    {
      r := if answer.Some? then Fail(answer.value) else Ok(if id in files then files[id].data else []);
    }

    method DeclareLength(id: ID, n: int, answer: Option<Error>) returns (err: Option<Error>)
      modifies this
      ensures err == answer && made == old(made) && finished == old(finished)
      ensures files
           == if err.None? && id in old(files)
              then old(files)[id := old(files)[id].(info := Declared(old(files)[id].info, n))]
              else old(files)
    {
      err := answer;
      if err.None? && id in files {
        files := files[id := files[id].(info := Declared(files[id].info, n))];
      }
    }

    method FinishUpload(id: ID, answer: Option<Error>) returns (err: Option<Error>)
      modifies this
      ensures err == answer && files == old(files) && made == old(made) && finished == old(finished) + [id]
    {
      finished := finished + [id];
      err := answer;
    }

    method Terminate(id: ID, answer: Option<Error>) returns (err: Option<Error>)
      modifies this
      ensures err == answer && made == old(made) && finished == old(finished)
      ensures files == if err.None? then old(files) - {id} else old(files)
    {
      err := answer;
      if err.None? {
        files := files - {id};
      }
    }

    /** The upload once a chunk at info.offset has been persisted as far as w says. */
    static function WithChunk(u: Upload, info: FileInfo, w: Write): Upload {
      Upload(u.info.(offset := info.offset + w.kept), WriteAt(u.data, info.offset, Cut(w.got, w.kept)))
    }

    /**
     WriteChunk at info.offset, from transfer t of the body.  plan says how the store sizes its
     reads and when it persists what it got, and when another goroutine triggers a stop.  It may
     return an error as well as the number of bytes it persisted.
     */
    method WriteChunk(id: ID, info: FileInfo, t: BodyTransfer, plan: seq<WriteEvent>, stops: StopRegistry,
                      answer: Option<Error>)
      returns (n: nat, err: Option<Error>)
      requires id in stops.callbacks && stops.callbacks[id] == t.reader
      modifies this, t, t.reader
      ensures made == old(made) && finished == old(finished)
      ensures t.Value() == WriteRun(old(t.Value()), plan) && n == t.Value().kept && err == answer
      ensures files
           == if id in old(files) then old(files)[id := WithChunk(old(files)[id], info, t.Value())] else old(files)
    {
      hide WriteStep, WriteAt, WithChunk, Cut;
      ghost var w := t.Value();
      ghost var before := files;
      Keep(id, info, t);
      for i := 0 to |plan|
        invariant made == old(made) && finished == old(finished)
        invariant t.Value() == WriteRun(w, plan[..i])
        invariant files == if id in before then before[id := WithChunk(before[id], info, t.Value())] else before
      {
        WriteRunSnoc(w, plan[..i], plan[i]);
        assert plan[..i] + [plan[i]] == plan[..i + 1];
        ghost var last := t.Value();
        if plan[i].Stop? {
          stops.TriggerStopUpload(id);
          StopStep(last);
        } else {
          t.Play(plan[i]);
        }
        Keep(id, info, t);
        ChunkTwice(if id in before then before[id] else Upload(info, []), info, last, t.Value());
      }
      assert plan[..|plan|] == plan;
      return t.kept, answer;
    }

    /** What the store has persisted of the chunk so far is what it now reports and holds. */
    method Keep(id: ID, info: FileInfo, t: BodyTransfer)
      modifies this
      ensures made == old(made) && finished == old(finished)
      ensures files
           == if id in old(files) then old(files)[id := WithChunk(old(files)[id], info, t.Value())] else old(files)
    {
      hide WriteAt;
      if id in files {
        var u := files[id];
        files := files[id := Upload(u.info.(offset := info.offset + t.kept),
                                    WriteAt(u.data, info.offset, Cut(t.got, t.kept)))];
      }
    }

    static lemma StopStep(w: Write)
      ensures WriteStep(w, Stop) == w.(reader := AfterClose(w.reader, ErrUploadStopped))
    {}

    static lemma ChunkTwice(u: Upload, info: FileInfo, v: Write, w: Write)
      ensures WithChunk(WithChunk(u, info, v), info, w) == WithChunk(u, info, w)
    {
      StoredTwice(Slot(Some(u), None, 0, 0), info, v, w);
    }

    /** ConcatUploads: the parts' bytes, in order; it may fail after some of them. */
    method ConcatUploads(id: ID, parts: seq<ID>, answer: Option<Error>, at: nat) returns (err: Option<Error>)
      requires id in files && id !in parts && forall part :: part in parts ==> part in files
      modifies this
      ensures made == old(made) && finished == old(finished)
      ensures var joined := if answer.Some? && at < |parts| then at else |parts|;
              && err == (if answer.Some? && at <= |parts| then answer else None)
              && files == old(files)[id := Grown(old(files)[id], JoinedFiles(old(files), parts[..joined]), joined)]
    {
      ghost var before := files;
      var joined := 0;
      assert JoinedFiles(before, parts[..0]) == [] && files == before[id := before[id]];
      while joined < |parts| && !(answer.Some? && at <= joined)
        invariant joined <= |parts| && made == old(made) && finished == old(finished)
        invariant answer.Some? ==> joined <= at
        invariant files == before[id := Grown(before[id], JoinedFiles(before, parts[..joined]), joined)]
      {
        assert parts[joined] in parts;
        var b := files[parts[joined]].data;
        var u := files[id];
        GrowsByOne(before, before[id], parts, joined);
        files := files[id := Upload(u.info.(offset := |u.data + b|), u.data + b)];
        joined := joined + 1;
      }
      err := if answer.Some? && at <= joined then answer else None;
    }
  }
}
