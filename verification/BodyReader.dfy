/**
 The capped, stoppable request body reader (body_reader.go).

 A store reads the body of one request through it.  A failing stream looks to the store
 like a clean end of file; the failure is kept aside and asked for afterwards.  Read is
 three steps (check, read and count, record), and any other goroutine may call
 closeWithError between two of them.
 */
module BodyReaders {
  import opened Prelude
  import Strings

  /** What reading a request stream can report besides bytes; More is Go's nil. */
  datatype IoError = ClosedPipe | UnexpectedEof | OtherError(message: string)
  datatype End = More | Eof | Failure(error: IoError)

  /** The body stream as the sequence of reads it has to offer. */
  datatype Item = Item(bytes: seq<byte>, end: End)
  type Stream = seq<Item>

  /** What bodyReader.err can hold. */
  datatype Cause = ErrUnexpectedEOF | ErrConnectionReset | Io(error: IoError) | ErrUploadStopped | CleanEof

  /** The fields of a bodyReader; limit and source are those of its LimitedReader. */
  datatype Reader = Reader(err: Option<Cause>, counter: int, limit: int, source: Stream)

  /** A stop and the end of file are never among the categories of failures. */
  function Categorise(e: IoError): (c: Cause)
    ensures !c.ErrUploadStopped? && !c.CleanEof?
  {
    match e
    case ClosedPipe => ErrUnexpectedEOF
    case UnexpectedEof => ErrUnexpectedEOF
    case OtherError(m) => if Strings.Contains(m, "connection reset by peer") then ErrConnectionReset else Io(e)
  }

  /** Which failure gets which category; any other is kept as it is. */
  lemma Categories(e: IoError)
    ensures var c := Categorise(e);
            && (c == ErrUnexpectedEOF <==> e == ClosedPipe || e == UnexpectedEof)
            && (c == ErrConnectionReset <==>
                  e.OtherError? && Strings.Contains(e.message, "connection reset by peer"))
            && (c != ErrUnexpectedEOF && c != ErrConnectionReset ==> c == Io(e))
  {}

  datatype Pulled = Pulled(bytes: seq<byte>, end: End, rest: Stream)

  /** One Read of the request stream with a buffer of k bytes. */
  function StreamRead(source: Stream, k: nat): (p: Pulled)
    ensures |p.bytes| <= k
  {
    if source == [] then Pulled([], Eof, [])
    else
      var item := source[0];
      if |item.bytes| <= k then Pulled(item.bytes, item.end, if item.end.Eof? then [] else source[1..])
      else Pulled(item.bytes[..k], More, [Item(item.bytes[k..], item.end)] + source[1..])
  }

  /** One Read of io.LimitReader(stream, limit). */
  function LimitedRead(limit: int, source: Stream, k: nat): (p: Pulled)
    ensures |p.bytes| <= Min(k, Max(limit, 0))
  {
    if limit <= 0 then Pulled([], Eof, source) else StreamRead(source, Min(k, limit))
  }

  function NewReader(source: Stream, maxSize: int): Reader {
    Reader(None, 0, maxSize, source)
  }

  /** Step 2 of Read: read from the stream and count. */
  function AfterPull(r: Reader, p: Pulled): Reader {
    r.(counter := r.counter + |p.bytes|, limit := r.limit - |p.bytes|, source := p.rest)
  }

  /** Step 3 of Read: keep the first failure; an end of file is not one. */
  function AfterRecord(r: Reader, end: End): Reader {
    if end.Failure? && r.err.None? then r.(err := Some(Categorise(end.error))) else r
  }

  function AfterClose(r: Reader, cause: Cause): Reader {
    r.(err := Some(cause))
  }

  /** hasError: a recorded end of file counts as none. */
  function HasError(r: Reader): Option<Cause> {
    if r.err == Some(CleanEof) then None else r.err
  }

  // ------------------------------------------------------------------ what a reader still has to give

  /** The prefix of a stream up to and including its first read that ends or fails it. */
  function Offered(source: Stream): seq<byte> {
    if source == [] then []
    else if source[0].end.More? then source[0].bytes + Offered(source[1..])
    else source[0].bytes
  }

  /** The first n bytes of s, or all of it; nothing for a negative n. */
  function Cut<T>(s: seq<T>, n: int): (c: seq<T>)
    ensures |c| <= Max(n, 0) && c <= s
  {
    if n <= 0 then [] else if n >= |s| then s else s[..n]
  }

  /** The bytes that reads of r will still deliver if nobody closes it. */
  function Allowed(r: Reader): seq<byte> {
    if r.err.Some? then [] else Cut(Offered(r.source), r.limit)
  }

  /** The failure that reading everything within the limit runs into, if any. */
  function Verdict(source: Stream, limit: int): Option<Cause> {
    if limit <= 0 || source == [] || |source[0].bytes| > limit || source[0].end.Eof? then None
    else if source[0].end.Failure? then Some(Categorise(source[0].end.error))
    else Verdict(source[1..], limit - |source[0].bytes|)
  }

  function FinalError(r: Reader): Option<Cause> {
    if r.err.Some? then r.err else Verdict(r.source, r.limit)
  }

  /** A read takes its bytes off the front of what the stream offers, and leaves the verdict as it was. */
  lemma StreamReadConserves(source: Stream, limit: int, k: nat)
    requires 0 < limit
    ensures var p := StreamRead(source, Min(k, limit));
            && Cut(Offered(source), limit) == p.bytes +
                 (if p.end.More? then Cut(Offered(p.rest), limit - |p.bytes|) else [])
            && Verdict(source, limit) == (if p.end.Failure? then Some(Categorise(p.end.error))
                                          else if p.end.Eof? then None else Verdict(p.rest, limit - |p.bytes|))
            && (p.end.Eof? ==> Offered(p.rest) == [] && Verdict(p.rest, limit - |p.bytes|) == None)
  {
    hide Categorise;
    var m := Min(k, limit);
    if source != [] && |source[0].bytes| > m {
      SplitRead(source, limit, m);
    } else if source != [] && source[0].end.More? {
      CutOfTwo(source[0].bytes, Offered(source[1..]), limit);
    }
  }

  lemma CutOfTwo<T>(a: seq<T>, b: seq<T>, n: int)
    requires |a| <= n
    ensures Cut(a + b, n) == a + Cut(b, n - |a|)
  {}

  /** A read that takes only part of an item. */
  lemma SplitRead(source: Stream, limit: int, m: nat)
    requires source != [] && m < |source[0].bytes| && m <= limit && 0 < limit
    ensures var p := StreamRead(source, m);
            && p.end.More? && Cut(Offered(source), limit) == p.bytes + Cut(Offered(p.rest), limit - |p.bytes|)
            && Verdict(source, limit) == Verdict(p.rest, limit - |p.bytes|)
  {
    hide Categorise, Cut;
    var item := source[0];
    var rest := StreamRead(source, m).rest;
    assert rest[1..] == source[1..] && rest[0] == Item(item.bytes[m..], item.end);
    assert item.bytes == item.bytes[..m] + item.bytes[m..];
    assert Offered(source) == item.bytes[..m] + Offered(rest);
    CutOfTwo(item.bytes[..m], Offered(rest), limit);
  }

  // ------------------------------------------------------------------ interleavings

  /** Where the goroutine that calls Read is. */
  datatype ReadPc = Idle | Checked(k: nat) | InFlight(bytes: seq<byte>, end: End)

  /**
   The store's side of one WriteChunk call: the reader, the position inside Read, the bytes
   handed over so far, how many of them the store has persisted, and whether Read has
   reported the end of file.
   */
  datatype Write = Write(reader: Reader, pc: ReadPc, got: seq<byte>, kept: nat, eof: bool)

  /** What can happen next while a store is inside WriteChunk; Stop comes from another goroutine. */
  datatype WriteEvent = Check(k: nat) | Pull | Record | Stop | Persist(n: nat)

  function StartWrite(r: Reader): Write {
    Write(r, Idle, [], 0, false)
  }

  function WriteStep(w: Write, e: WriteEvent): Write {
    match e
    case Check(k) =>
      if !w.pc.Idle? then w
      else if w.reader.err.Some? then w.(eof := true)
      else w.(pc := Checked(k))
    case Pull =>
      if !w.pc.Checked? then w
      else
        var p := LimitedRead(w.reader.limit, w.reader.source, w.pc.k);
        w.(reader := AfterPull(w.reader, p), pc := InFlight(p.bytes, p.end))
    case Record =>
      if !w.pc.InFlight? then w
      else w.(reader := AfterRecord(w.reader, w.pc.end), pc := Idle, got := w.got + w.pc.bytes, eof := w.pc.end.Eof?)
    case Stop =>
      w.(reader := AfterClose(w.reader, ErrUploadStopped))
    case Persist(n) =>
      if w.kept <= n <= |w.got| then w.(kept := n) else w
  }

  function WriteRun(w: Write, plan: seq<WriteEvent>): Write {
    if plan == [] then w else WriteStep(WriteRun(w, plan[..|plan| - 1]), plan[|plan| - 1])
  }

  lemma WriteRunSnoc(w: Write, plan: seq<WriteEvent>, e: WriteEvent)
    ensures WriteRun(w, plan + [e]) == WriteStep(WriteRun(w, plan), e)
  {
    assert (plan + [e])[..|plan|] == plan;
  }

  function Flying(w: Write): seq<byte> {
    if w.pc.InFlight? then w.pc.bytes else []
  }

  /** Everything the store has, is being handed, or could still be handed. */
  function Flow(w: Write): seq<byte> {
    w.got + Flying(w) + (if w.pc.InFlight? && w.pc.end.Failure? then []
        else Cut(Offered(w.reader.source), w.reader.limit))
  }

  function Fate(w: Write): Option<Cause> {
    if w.pc.InFlight? && w.pc.end.Failure? && w.reader.err.None? then Some(Categorise(w.pc.end.error))
    else FinalError(w.reader)
  }

  ghost predicate Exhausted(w: Write) {
    (w.pc.Idle? && w.eof) || (w.pc.InFlight? && w.pc.end.Eof?)
  }

  /** What every interleaving keeps about a write into a reader for source capped at limit. */
  ghost predicate WriteInv(w: Write, source: Stream, limit: int) {
    && w.got + Flying(w) <= Cut(Offered(source), limit)
    && w.reader.counter == |w.got + Flying(w)|
    && w.kept <= |w.got|
    && (w.reader.err.None? || w.pc.Checked? ==> Flow(w) == Cut(Offered(source), limit))
    && (w.reader.err.None? ==> Fate(w) == Verdict(source, limit))
    && (Exhausted(w) && w.reader.err.None? ==> Cut(Offered(w.reader.source), w.reader.limit) == [] && Fate(w) == None)
  }

  lemma NothingAtLimit(source: Stream, limit: int)
    requires limit <= 0
    ensures Verdict(source, limit) == None && Cut(Offered(source), limit) == []
  {}

  lemma Regroup<T>(a: seq<T>, b: seq<T>, c: seq<T>)
    ensures a + b <= a + (b + c) == a + b + c
  {}

  /** A read takes from what is still offered, whether or not a stop has been recorded meanwhile. */
  lemma PullInv(w: Write, source: Stream, limit: int)
    requires w.pc.Checked? && WriteInv(w, source, limit)
    ensures WriteInv(WriteStep(w, Pull), source, limit)
  {
    hide Offered, Verdict, StreamRead, Cut, Categorise;
    var rest := Cut(Offered(w.reader.source), w.reader.limit);
    assert w.got + [] == w.got;
    if 0 < w.reader.limit {
      StreamReadConserves(w.reader.source, w.reader.limit, w.pc.k);
      var p := StreamRead(w.reader.source, Min(w.pc.k, w.reader.limit));
      var tail := if p.end.More? then Cut(Offered(p.rest), w.reader.limit - |p.bytes|) else [];
      assert rest == p.bytes + tail;
      Regroup(w.got, p.bytes, tail);
      if p.end.Eof? {
        CutNothing(p.rest, w.reader.limit - |p.bytes|);
      }
    } else {
      NothingAtLimit(w.reader.source, w.reader.limit);
      assert rest == [] && w.got + rest == w.got;
    }
  }

  lemma CutNothing(source: Stream, limit: int)
    requires Offered(source) == []
    ensures Cut(Offered(source), limit) == []
  {}

  lemma WriteStepInv(w: Write, e: WriteEvent, source: Stream, limit: int)
    requires WriteInv(w, source, limit)
    ensures WriteInv(WriteStep(w, e), source, limit)
  {
    if e.Pull? && w.pc.Checked? {
      PullInv(w, source, limit);
    } else if e.Record? && w.pc.InFlight? {
      var v := WriteStep(w, e);
      assert v.got + Flying(v) == w.got + Flying(w);
    }
  }

  lemma {:induction false} WriteRunInv(source: Stream, limit: int, plan: seq<WriteEvent>)
    ensures WriteInv(WriteRun(StartWrite(NewReader(source, limit)), plan), source, limit)
  {
    if plan != [] {
      WriteRunInv(source, limit, plan[..|plan| - 1]);
      WriteStepInv(WriteRun(StartWrite(NewReader(source, limit)), plan[..|plan| - 1]), plan[|plan| - 1], source, limit);
    }
  }

  lemma GotIsOffered(w: Write, source: Stream, limit: int)
    requires WriteInv(w, source, limit)
    ensures w.got <= Offered(source) && w.kept <= |w.got|
  {
    assert w.got <= w.got + Flying(w);
  }

  /**
   The delivery theorem.  However the store sizes and spreads its reads, as long as nobody
   stops the reader it receives a prefix of what the stream offers up to its first failing
   read, cut at the cap; the counter counts exactly those bytes; once Read has reported the
   end of file the store has all of it, and hasError reports the failing read within the cap
   and nothing else: not the plain end of file, not the cap.
   */
  lemma {:induction false} Delivery(source: Stream, limit: int, plan: seq<WriteEvent>)
    requires Stop !in plan
    ensures var w := WriteRun(StartWrite(NewReader(source, limit)), plan);
            && w.got + Flying(w) <= Cut(Offered(source), limit)
            && w.reader.counter == |w.got + Flying(w)|
            && (w.pc.Idle? && (w.eof || w.reader.err.Some?) ==>
                  w.got == Cut(Offered(source), limit) && HasError(w.reader) == Verdict(source, limit))
            && (w.reader.err.Some? ==> w.pc.Idle?)
  {
    hide Offered, Verdict, Cut, StreamRead, Categorise;
    WriteRunInv(source, limit, plan);
    var w := WriteRun(StartWrite(NewReader(source, limit)), plan);
    if plan != [] {
      var front := plan[..|plan| - 1];
      Delivery(source, limit, front);
      WriteRunInv(source, limit, front);
      assert w.got + [] == w.got;
    }
  }

  /** Once a cause is recorded only a Read that is past its check can still deliver bytes. */
  lemma {:induction false} NothingAfterError(w: Write, plan: seq<WriteEvent>)
    requires w.reader.err.Some?
    ensures var v := WriteRun(w, plan);
            && v.reader.err.Some?
            && (v.pc.Checked? ==>
                  v.pc == w.pc && v.got == w.got && v.reader.source == w.reader.source
                  && v.reader.limit == w.reader.limit)
            && (|| v.got + Flying(v) == w.got + Flying(w)
                || (w.pc.Checked?
                    && v.got + Flying(v) == w.got + LimitedRead(w.reader.limit, w.reader.source, w.pc.k).bytes))
  {
    hide StreamRead, Categorise;
    if plan != [] {
      var front := plan[..|plan| - 1];
      NothingAfterError(w, front);
      var u := WriteRun(w, front);
      assert WriteStep(u, Record).got + Flying(WriteStep(u, Record)) == u.got + Flying(u);
    }
  }

  /** A stop is never replaced, whatever reads fail around it, so hasError reports it. */
  lemma {:induction false} StopSticks(w: Write, plan: seq<WriteEvent>)
    requires Stop in plan || w.reader.err == Some(ErrUploadStopped)
    ensures HasError(WriteRun(w, plan).reader) == Some(ErrUploadStopped)
  {
    if plan != [] && plan[|plan| - 1] != Stop {
      var front := plan[..|plan| - 1];
      assert plan == front + [plan[|plan| - 1]];
      StopSticks(w, front);
    }
  }

  /** hasError reports a stop if and only if there was one: no failure of the stream looks like it. */
  lemma {:induction false} StoppedIff(r: Reader, plan: seq<WriteEvent>)
    requires r.err.None?
    ensures HasError(WriteRun(StartWrite(r), plan).reader) == Some(ErrUploadStopped) <==> Stop in plan
  {
    if Stop in plan {
      StopSticks(StartWrite(r), plan);
    } else {
      NotStopped(r, plan);
    }
  }

  lemma {:induction false} NotStopped(r: Reader, plan: seq<WriteEvent>)
    requires r.err.None? && Stop !in plan
    ensures WriteRun(StartWrite(r), plan).reader.err != Some(ErrUploadStopped)
  {
    hide StreamRead;
    if plan != [] {
      NotStopped(r, plan[..|plan| - 1]);
    }
  }

  /**
   The stop theorem.  After closeWithError(stop) lands in any state of a write, at most the
   one Read that is past its check still delivers its bytes, and the cause stays the stop.
   */
  lemma StopTheorem(w: Write, plan: seq<WriteEvent>)
    ensures var v := WriteRun(WriteStep(w, Stop), plan);
            && HasError(v.reader) == Some(ErrUploadStopped)
            && (|| v.got + Flying(v) == w.got + Flying(w)
                || (w.pc.Checked?
                    && v.got + Flying(v) == w.got + LimitedRead(w.reader.limit, w.reader.source, w.pc.k).bytes))
  {
    NothingAfterError(WriteStep(w, Stop), plan);
    StopSticks(WriteStep(w, Stop), plan);
  }

  // ------------------------------------------------------------------ the object

  /** A bound on the reads a stream still has in it. */
  ghost function Weight(source: Stream): nat {
    if source == [] then 0 else |source[0].bytes| + 1 + Weight(source[1..])
  }

  lemma StreamReadShrinks(source: Stream, k: nat)
    requires source != [] && 0 < k
    ensures Weight(StreamRead(source, k).rest) < Weight(source)
  {
    var rest := StreamRead(source, k).rest;
    if |source[0].bytes| > k {
      assert rest[1..] == source[1..];
    }
  }

  datatype ReadResult = ReadResult(reader: Reader, bytes: seq<byte>, eof: bool)

  /** Read with a buffer of k bytes and no other goroutine between its steps. */
  function ReadOnce(r: Reader, k: nat): ReadResult {
    if r.err.Some? then ReadResult(r, [], true)
    else
      var p := LimitedRead(r.limit, r.source, k);
      ReadResult(AfterRecord(AfterPull(r, p), p.end), p.bytes, p.end.Eof?)
  }

  lemma ReadOnceIsThreeSteps(r: Reader, k: nat)
    ensures var w := WriteStep(WriteStep(WriteStep(StartWrite(r), Check(k)), Pull), Record);
            ReadOnce(r, k) == ReadResult(w.reader, w.got, w.eof)
  {}

  /** r will hand over exactly all, and then report fate. */
  ghost predicate Owes(r: Reader, all: seq<byte>, fate: Option<Cause>) {
    Allowed(r) == all && FinalError(r) == fate
  }

  lemma EmptyEnds(k: nat, limit: int)
    requires 0 < limit
    ensures StreamRead([], Min(k, limit)).end.Eof?
  {}

  /** A Read hands over the front of what is owed and changes neither the rest nor the outcome. */
  lemma ReadOnceConserves(r: Reader, k: nat, all: seq<byte>, fate: Option<Cause>)
    requires Owes(r, all, fate)
    ensures var a := ReadOnce(r, k);
            && a.bytes <= all
            && Owes(a.reader, all[|a.bytes|..], fate)
            && (a.eof ==> a.bytes == all && a.reader.err == fate)
            && a.reader.counter == r.counter + |a.bytes|
            && (0 < k && !a.eof ==> Weight(a.reader.source) < Weight(r.source))
  {
    hide Offered, Verdict, StreamRead, Cut, Categorise, Weight;
    var a := ReadOnce(r, k);
    if r.err.None? && 0 < r.limit {
      StreamReadConserves(r.source, r.limit, k);
      EmptyEnds(k, r.limit);
      if r.source != [] && 0 < k {
        StreamReadShrinks(r.source, Min(k, r.limit));
      }
      if a.eof {
        CutNothing(a.reader.source, a.reader.limit);
      }
      assert all == a.bytes + Allowed(a.reader);
    } else if r.err.None? {
      NothingAtLimit(r.source, r.limit);
    }
  }

  class BodyReader {
    var bytesCounter: int
    var err: Option<Cause>
    var limit: int
    var source: Stream

    function Value(): Reader
      reads this
    {
      Reader(err, bytesCounter, limit, source)
    }

    constructor (stream: Stream, maxSize: int)
      ensures Value() == NewReader(stream, maxSize)
    {
      bytesCounter, err, limit, source := 0, None, maxSize, stream;
    }

    /** Step 1 of Read. */
    method HasErrored() returns (hasErrored: bool)
      ensures hasErrored == Value().err.Some?
    {
      hasErrored := err != None;
    }

    /** Step 2 of Read. */
    method ReadAndCount(k: nat) returns (b: seq<byte>, end: End)
      modifies this
      ensures var p := LimitedRead(old(Value()).limit, old(Value()).source, k);
              b == p.bytes && end == p.end && Value() == AfterPull(old(Value()), p)
    {
      var p := LimitedRead(limit, source, k);
      b, end := p.bytes, p.end;
      limit, source := limit - |b|, p.rest;
      bytesCounter := bytesCounter + |b|;
    }

    /** Step 3 of Read. */
    method RecordFailure(end: End)
      modifies this
      ensures Value() == AfterRecord(old(Value()), end)
    {
      if end.Failure? {
        var cause := Categorise(end.error);
        if err.None? {
          err := Some(cause);
        }
      }
    }

    /** Read with a buffer of k bytes and no other goroutine in between. */
    method Read(k: nat) returns (b: seq<byte>, eof: bool)
      modifies this
      ensures ReadResult(Value(), b, eof) == ReadOnce(old(Value()), k)
    {
      var hasErrored := HasErrored();
      if hasErrored {
        return [], true;
      }
      var end;
      b, end := ReadAndCount(k);
      if end.Eof? {
        return b, true;
      }
      RecordFailure(end);
      return b, false;
    }

    method Error() returns (cause: Option<Cause>)
      ensures cause == HasError(Value())
    {
      cause := if err == Some(CleanEof) then None else err;
    }

    method BytesRead() returns (n: int)
      ensures n == Value().counter
    {
      n := bytesCounter;
    }

    method CloseWithError(cause: Cause)
      modifies this
      ensures Value() == AfterClose(old(Value()), cause)
    {
      err := Some(cause);
    }
  }

  /** One body transfer under way: a store that reads and persists, and whoever else calls the reader. */
  class BodyTransfer {
    const reader: BodyReader
    var pc: ReadPc
    var got: seq<byte>
    var kept: nat
    var eof: bool

    function Value(): Write
      reads this, reader
    {
      Write(reader.Value(), pc, got, kept, eof)
    }

    constructor (r: BodyReader)
      ensures reader == r && Value() == StartWrite(r.Value())
    {
      reader, pc, got, kept, eof := r, Idle, [], 0, false;
    }

    /** The next thing that happens to the transfer, on the reader's own methods. */
    method Play(e: WriteEvent)
      modifies this, reader
      ensures Value() == WriteStep(old(Value()), e)
    {
      match e
      case Check(k) =>
        if pc.Idle? {
          var hasErrored := reader.HasErrored();
          if hasErrored {
            eof := true;
          } else {
            pc := Checked(k);
          }
        }
      case Pull =>
        if pc.Checked? {
          var b, end := reader.ReadAndCount(pc.k);
          pc := InFlight(b, end);
        }
      case Record =>
        if pc.InFlight? {
          reader.RecordFailure(pc.end);
          got, eof := got + pc.bytes, pc.end.Eof?;
          pc := Idle;
        }
      case Stop =>
        reader.CloseWithError(ErrUploadStopped);
      case Persist(n) =>
        if kept <= n <= |got| {
          kept := n;
        }
    }
  }

  /** io.ReadAll, which hands a store the whole body, whatever buffer sizes it uses. */
  method ReadAll(r: BodyReader) returns (all: seq<byte>)
    modifies r
    ensures all == old(Allowed(r.Value()))
    ensures r.Value().err == old(FinalError(r.Value()))
    ensures r.Value().counter == old(r.Value().counter) + |all|
  {
    ghost var whole, fate, before := Allowed(r.Value()), FinalError(r.Value()), r.Value().counter;
    all := [];
    var eof := false;
    while !eof
      invariant all <= whole && Owes(r.Value(), whole[|all|..], fate)
      invariant eof ==> all == whole && r.Value().err == fate
      invariant r.Value().counter == before + |all|
      decreases !eof, Weight(r.Value().source)
    {
      var k: nat :| 0 < k;
      ReadOnceConserves(r.Value(), k, whole[|all|..], fate);
      var b;
      b, eof := r.Read(k);
      assert all + whole[|all|..] == whole;
      all := all + b;
    }
  }
}
