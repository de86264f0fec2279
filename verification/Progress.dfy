/**
 Progress messages (sendProgressMessages, unrouted.go).

 A goroutine of its own samples the body reader's counter on every tick, and once more when the
 request's context ends, while the store goes on reading.
 */
module Progress {
  import opened Prelude
  import opened BodyReaders

  /** What happens, in any order: a step of the body transfer, a tick, the end of the context. */
  datatype Happening = Transfer(e: WriteEvent) | Tick | Cancelled

  /** The transfer, the last value sent, the messages, and whether the goroutine has returned. */
  datatype Sender = Sender(w: Write, prev: int, sent: seq<int>, ended: bool)

  /** A sample is sent when it differs from the one sent before it. */
  function Sample(offset: nat, s: Sender): seq<int> {
    var current := offset + s.w.reader.counter;
    if current != s.prev then s.sent + [current] else s.sent
  }

  function Happen(offset: nat, s: Sender, h: Happening): Sender {
    match h
    case Transfer(e) => s.(w := WriteStep(s.w, e))
    case Tick => if s.ended then s else s.(prev := offset + s.w.reader.counter, sent := Sample(offset, s))
    case Cancelled => if s.ended then s else s.(sent := Sample(offset, s), ended := true)
  }

  function Started(w: Write): Sender {
    Sender(w, -1, [], false)
  }

  function Sending(offset: nat, w: Write, hs: seq<Happening>): Sender {
    if hs == [] then Started(w) else Happen(offset, Sending(offset, w, hs[..|hs| - 1]), hs[|hs| - 1])
  }

  ghost predicate Increasing(sent: seq<int>) {
    forall i, j :: 0 <= i < j < |sent| ==> sent[i] < sent[j]
  }

  /** A message is the sample of a tick, or of the end of the context. */
  ghost predicate SampledAt(offset: nat, w: Write, hs: seq<Happening>, i: nat, message: int) {
    i < |hs| && !hs[i].Transfer? && message == offset + Sending(offset, w, hs[..i]).w.reader.counter
  }

  /** Steps of a transfer never take the counter back. */
  lemma CounterGrows(w: Write, e: WriteEvent)
    ensures w.reader.counter <= WriteStep(w, e).reader.counter
  {}

  ghost predicate SenderInv(offset: nat, s: Sender, source: Stream, limit: int) {
    && WriteInv(s.w, source, limit) && Increasing(s.sent)
    && (if s.sent == [] then s.prev == -1 && !s.ended else s.sent[|s.sent| - 1] <= offset + s.w.reader.counter)
    && (!s.ended && s.sent != [] ==> s.prev == s.sent[|s.sent| - 1])
  }

  lemma HappenInv(offset: nat, s: Sender, h: Happening, source: Stream, limit: int)
    requires SenderInv(offset, s, source, limit)
    ensures SenderInv(offset, Happen(offset, s, h), source, limit)
  {
    hide WriteInv, WriteStep;
    CounterIsCount(s.w, source, limit);
    if h.Transfer? {
      WriteStepInv(s.w, h.e, source, limit);
      CounterGrows(s.w, h.e);
    }
  }

  lemma CounterIsCount(w: Write, source: Stream, limit: int)
    requires WriteInv(w, source, limit)
    ensures 0 <= w.reader.counter <= Max(limit, 0)
  {}

  lemma {:induction false} SendingInv(offset: nat, source: Stream, limit: int, hs: seq<Happening>)
    ensures SenderInv(offset, Sending(offset, StartWrite(NewReader(source, limit)), hs), source, limit)
  {
    hide SenderInv, Happen;
    var w := StartWrite(NewReader(source, limit));
    if hs == [] {
      StartInv(offset, source, limit);
    } else {
      SendingInv(offset, source, limit, hs[..|hs| - 1]);
      HappenInv(offset, Sending(offset, w, hs[..|hs| - 1]), hs[|hs| - 1], source, limit);
    }
  }

  lemma StartInv(offset: nat, source: Stream, limit: int)
    ensures SenderInv(offset, Started(StartWrite(NewReader(source, limit))), source, limit)
  {
    WriteRunInv(source, limit, []);
  }

  /** Every message was sampled at some moment, and nothing is sent after the end. */
  lemma {:induction false} MessagesAreSamples(offset: nat, w: Write, hs: seq<Happening>)
    ensures forall m :: m in Sending(offset, w, hs).sent ==> exists i :: 0 <= i < |hs| && SampledAt(offset, w, hs, i, m)
    ensures Sending(offset, w, hs).ended <==> Cancelled in hs
  {
    if hs != [] {
      var n := |hs| - 1;
      MessagesAreSamples(offset, w, hs[..n]);
      var before := Sending(offset, w, hs[..n]);
      assert hs == hs[..n] + [hs[n]];
      forall m | m in Sending(offset, w, hs).sent
        ensures exists i :: 0 <= i < |hs| && SampledAt(offset, w, hs, i, m)
      {
        if m in before.sent {
          var i :| 0 <= i < n && SampledAt(offset, w, hs[..n], i, m);
          assert hs[..n][..i] == hs[..i];
          assert SampledAt(offset, w, hs, i, m);
        } else {
          assert SampledAt(offset, w, hs, n, m);
        }
      }
    }
  }

  /**
   The progress messages of one write, however ticks, reads, stops and the end of the context
   interleave: strictly increasing, each the offset plus the counter at the moment of a tick or
   of the end, none beyond the offset plus the cap; and once the context has ended the last one
   is the value sampled then, and no more follow.
   */
  lemma ProgressMessages(offset: nat, source: Stream, limit: int, before: seq<Happening>, after: seq<Happening>)
    requires Cancelled !in before
    ensures var w := StartWrite(NewReader(source, limit));
            var sent := Sending(offset, w, before + [Cancelled] + after).sent;
            && Increasing(sent)
            && (forall k :: 0 <= k < |sent| ==>
                  && offset <= sent[k] <= offset + Max(limit, 0)
                  && exists i :: 0 <= i <= |before| && SampledAt(offset, w, before + [Cancelled], i, sent[k]))
            && sent != [] && sent[|sent| - 1] == offset + Sending(offset, w, before).w.reader.counter
            && sent == Sending(offset, w, before + [Cancelled]).sent
  {
    hide SenderInv, Happen;
    var w := StartWrite(NewReader(source, limit));
    var hs := before + [Cancelled];
    assert hs[..|before|] == before;
    SendingInv(offset, source, limit, before);
    SendingInv(offset, source, limit, hs);
    MessagesAreSamples(offset, w, before);
    MessagesAreSamples(offset, w, hs);
    NothingAfterEnd(offset, w, hs, after);
    LastSample(offset, Sending(offset, w, before), source, limit);
    var sent := Sending(offset, w, hs + after).sent;
    forall k | 0 <= k < |sent|
      ensures offset <= sent[k] <= offset + Max(limit, 0)
      ensures exists i :: 0 <= i <= |before| && SampledAt(offset, w, hs, i, sent[k])
    {
      assert sent[k] in Sending(offset, w, hs).sent;
      var i :| 0 <= i < |hs| && SampledAt(offset, w, hs, i, sent[k]);
      SendingInv(offset, source, limit, hs[..i]);
      SampleInRange(offset, Sending(offset, w, hs[..i]), source, limit);
    }
    InvIncreases(offset, Sending(offset, w, hs), source, limit);
  }

  /**
   A tick sends: once it has happened, before the context has ended, the last message is the value
   of its moment.  It is a new message if and only if the value differs from the last one sent.
   */
  lemma TickSends(offset: nat, source: Stream, limit: int, before: seq<Happening>)
    requires Cancelled !in before
    ensures var w := StartWrite(NewReader(source, limit));
            var was := Sending(offset, w, before).sent;
            var now := Sending(offset, w, before + [Tick]).sent;
            var value := offset + Sending(offset, w, before).w.reader.counter;
            now == if was != [] && was[|was| - 1] == value then was else was + [value]
  {
    hide SenderInv, Happen, Sending;
    var w := StartWrite(NewReader(source, limit));
    SendingInv(offset, source, limit, before);
    NotEnded(offset, w, before);
    LastSent(offset, Sending(offset, w, before), source, limit);
    OneMore(offset, w, before, Tick);
    TickIs(offset, Sending(offset, w, before));
  }

  lemma NotEnded(offset: nat, w: Write, hs: seq<Happening>)
    ensures Sending(offset, w, hs).ended <==> Cancelled in hs
  {
    MessagesAreSamples(offset, w, hs);
  }

  lemma OneMore(offset: nat, w: Write, before: seq<Happening>, h: Happening)
    ensures Sending(offset, w, before + [h]) == Happen(offset, Sending(offset, w, before), h)
  {
    hide Happen;
    assert (before + [h])[..|before|] == before;
  }

  lemma TickIs(offset: nat, s: Sender)
    requires !s.ended
    ensures var value := offset + s.w.reader.counter;
            Happen(offset, s, Tick).sent == if s.prev == value then s.sent else s.sent + [value]
  {}

  lemma LastSent(offset: nat, s: Sender, source: Stream, limit: int)
    requires SenderInv(offset, s, source, limit) && !s.ended
    ensures s.prev == (if s.sent == [] then -1 else s.sent[|s.sent| - 1]) && 0 <= s.w.reader.counter
  {}

  /** Nothing but a tick and the end of the context sends. */
  lemma TransferSendsNothing(offset: nat, w: Write, before: seq<Happening>, e: WriteEvent)
    ensures Sending(offset, w, before + [Transfer(e)]).sent == Sending(offset, w, before).sent
  {
    hide WriteStep;
    OneMore(offset, w, before, Transfer(e));
  }

  lemma InvIncreases(offset: nat, s: Sender, source: Stream, limit: int)
    requires SenderInv(offset, s, source, limit)
    ensures Increasing(s.sent)
  {}

  lemma SampleInRange(offset: nat, s: Sender, source: Stream, limit: int)
    requires SenderInv(offset, s, source, limit)
    ensures 0 <= s.w.reader.counter <= Max(limit, 0)
  {}

  lemma LastSample(offset: nat, s: Sender, source: Stream, limit: int)
    requires SenderInv(offset, s, source, limit) && !s.ended
    ensures var sent := Happen(offset, s, Cancelled).sent; sent != [] && sent[|sent| - 1] == offset + s.w.reader.counter
  {
    CounterIsCount(s.w, source, limit);
  }

  lemma {:induction false} NothingAfterEnd(offset: nat, w: Write, hs: seq<Happening>, after: seq<Happening>)
    requires Sending(offset, w, hs).ended
    ensures Sending(offset, w, hs + after).ended && Sending(offset, w, hs + after).sent == Sending(offset, w, hs).sent
  {
    if after == [] {
      assert hs + after == hs;
    } else {
      NothingAfterEnd(offset, w, hs, after[..|after| - 1]);
      assert (hs + after)[..|hs + after| - 1] == hs + after[..|after| - 1];
    }
  }

  /** The goroutine: t is the transfer that runs beside it, hs what happens while it runs. */
  method SendProgressMessages(t: BodyTransfer, offset: nat, hs: seq<Happening>)
    returns (messages: seq<int>, ended: bool)
    modifies t, t.reader
    ensures var s := Sending(offset, old(t.Value()), hs); t.Value() == s.w && messages == s.sent && ended == s.ended
  {
    ghost var w := t.Value();
    messages, ended := [], false;
    var prev := -1;
    for i := 0 to |hs|
      invariant Sending(offset, w, hs[..i]) == Sender(t.Value(), prev, messages, ended)
    {
      assert hs[..i + 1][..i] == hs[..i];
      match hs[i] {
        case Transfer(e) =>
          t.Play(e);
        case Tick =>
          if !ended {
            var counted := t.reader.BytesRead();
            var current := offset + counted;
            if current != prev {
              messages := messages + [current];
              prev := current;
            }
          }
        case Cancelled =>
          if !ended {
            var counted := t.reader.BytesRead();
            var current := offset + counted;
            if current != prev {
              messages := messages + [current];
            }
            ended := true;
          }
      }
    }
    assert hs[..|hs|] == hs;
  }
}
