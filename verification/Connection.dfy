/** The calls of Socket::write that a flush makes, and the ways it can end
    (DeepSeerLib/src/Net/Connection.cpp:149-185). */
module Sending {
  import opened Layouts

  /** What Socket::write reports: an error, or how many bytes the kernel took (0 for EAGAIN). */
  datatype SendResult = Sent(n: nat) | SendError

  /** One call of Socket::write: what was offered and what came back. */
  datatype Offer = Offer(data: seq<Byte>, answer: SendResult)

  /** The bytes the socket took over a sequence of calls. */
  function Taken(sends: seq<Offer>): seq<Byte> {
    if sends == [] then []
    else
      var o := sends[|sends| - 1];
      Taken(sends[..|sends| - 1]) + if o.answer.Sent? then o.data[..Min(o.answer.n, |o.data|)] else []
  }

  lemma TakenPush(sends: seq<Offer>, data: seq<Byte>, answer: SendResult)
    ensures Taken(sends + [Offer(data, answer)]) ==
            Taken(sends) + if answer.Sent? then data[..Min(answer.n, |data|)] else []
  {
    assert (sends + [Offer(data, answer)])[..|sends|] == sends;
  }

  /** The last call failed. */
  predicate Broke(sends: seq<Offer>) { sends != [] && sends[|sends| - 1].answer.SendError? }

  /** Every call from index `from` on took something. */
  predicate Progress(sends: seq<Offer>, from: nat) {
    forall i :: from <= i < |sends| ==> sends[i].answer.Sent? && sends[i].answer.n > 0
  }

  /** Every call from index `from` on took something, but for the last one, which offered `front` and
      was answered so. */
  predicate StoppedBy(sends: seq<Offer>, from: nat, front: seq<Byte>, answer: SendResult) {
    && |sends| > from && Progress(sends[..|sends| - 1], from)
    && sends[|sends| - 1] == Offer(front, answer)
  }

  lemma ProgressPush(sends: seq<Offer>, from: nat, o: Offer)
    requires from <= |sends| && Progress(sends, from)
    ensures StoppedBy(sends + [o], from, o.data, o.answer)
    ensures o.answer.Sent? && o.answer.n > 0 ==> Progress(sends + [o], from)
  {
    assert (sends + [o])[..|sends|] == sends;
  }

  /** How one flush ended. */
  datatype FlushOutcome = Flushed | Blocked | Failed | EmptyFrontSlice | NotOpen

  /** How a flush went on from the calls `before` and left the live slices: nothing to send, or the
      front slice was refused or failed, or it is empty although bytes wait behind it. */
  predicate EndedAs(outcome: FlushOutcome, before: seq<Offer>, sends: seq<Offer>, pieces: seq<seq<Byte>>) {
    && before <= sends
    && match outcome
       case Flushed => Progress(sends, |before|) && Flatten(pieces) == []
       case Blocked => pieces != [] && pieces[0] != [] && StoppedBy(sends, |before|, pieces[0], Sent(0))
       case Failed => pieces != [] && pieces[0] != [] && StoppedBy(sends, |before|, pieces[0], SendError)
       case EmptyFrontSlice => Progress(sends, |before|) && Stalls(pieces)
       case NotOpen => sends == before
  }

  /** The same for a flush that found the slices `found`: it stops on an empty slice only if there was
      a gap, and with a gap it never empties the buffer; with the gap in front it sends nothing. */
  predicate FlushEnds(outcome: FlushOutcome, found: seq<seq<Byte>>, before: seq<Offer>, sends: seq<Offer>, pieces: seq<seq<Byte>>) {
    && EndedAs(outcome, before, sends, pieces)
    && (outcome.EmptyFrontSlice? ==> GapIn(found))
    && (GapIn(found) ==> !outcome.Flushed?)
    && (Stalls(found) ==> outcome.EmptyFrontSlice? && sends == before)
    && (Flatten(pieces) != [] ==> Flatten(found) != [])
    && (Solid(found) ==> Solid(pieces))
  }

  /** The same before the end: a flush that found the slices `found` goes on with `pieces`. */
  predicate SoFar(found: seq<seq<Byte>>, before: seq<Offer>, sends: seq<Offer>, pieces: seq<seq<Byte>>) {
    && before <= sends && Progress(sends, |before|)
    && (GapIn(pieces) <==> GapIn(found))
    && (Stalls(found) ==> Stalls(pieces) && sends == before)
    && (Flatten(pieces) != [] ==> Flatten(found) != [])
    && (Solid(found) ==> Solid(pieces))
  }

  lemma GoesOn(found: seq<seq<Byte>>, before: seq<Offer>, sends: seq<Offer>, pieces: seq<seq<Byte>>, n: nat)
    requires SoFar(found, before, sends, pieces) && pieces != [] && 0 < n <= |pieces[0]|
    ensures SoFar(found, before, sends + [Offer(pieces[0], Sent(n))], Consume(pieces, n).chunks)
  {
    ProgressPush(sends, |before|, Offer(pieces[0], Sent(n)));
    GapConsume(pieces, n);
    if Solid(pieces) { ConsumeSolid(pieces, n); }
  }

  lemma StopsOnAnswer(found: seq<seq<Byte>>, before: seq<Offer>, sends: seq<Offer>, pieces: seq<seq<Byte>>, answer: SendResult)
    requires SoFar(found, before, sends, pieces) && pieces != [] && pieces[0] != [] && (answer == Sent(0) || answer.SendError?)
    ensures FlushEnds(if answer.SendError? then Failed else Blocked, found, before, sends + [Offer(pieces[0], answer)], pieces)
  {
    ProgressPush(sends, |before|, Offer(pieces[0], answer));
  }

  lemma StopsAnyway(found: seq<seq<Byte>>, before: seq<Offer>, sends: seq<Offer>, pieces: seq<seq<Byte>>)
    requires SoFar(found, before, sends, pieces)
    ensures Stalls(pieces) ==> FlushEnds(EmptyFrontSlice, found, before, sends, pieces)
    ensures Flatten(pieces) == [] ==> FlushEnds(Flushed, found, before, sends, pieces)
  {
    GapFacts(pieces);
  }

  lemma FailedWaits(found: seq<seq<Byte>>, before: seq<Offer>, sends: seq<Offer>, pieces: seq<seq<Byte>>)
    requires FlushEnds(Failed, found, before, sends, pieces)
    ensures Flatten(found) != [] && Flatten(pieces) != []
  {
  }

  lemma NothingToSend(sends: seq<Offer>, pieces: seq<seq<Byte>>)
    requires Flatten(pieces) == []
    ensures FlushEnds(Flushed, pieces, sends, sends, pieces)
  {
    GapFacts(pieces);
  }

  lemma SolidNeverStalls(outcome: FlushOutcome, found: seq<seq<Byte>>, before: seq<Offer>, sends: seq<Offer>, pieces: seq<seq<Byte>>)
    requires FlushEnds(outcome, found, before, sends, pieces) && Solid(found)
    ensures !outcome.EmptyFrontSlice?
  {
  }

  /** The first piece is empty although bytes wait behind it. */
  predicate Stalls(pieces: seq<seq<Byte>>) {
    pieces != [] && pieces[0] == [] && Flatten(pieces) != []
  }

  /** Bytes wait only because the socket refused the front slice, or behind an empty one. */
  predicate Waits(sends: seq<Offer>, pieces: seq<seq<Byte>>) {
    Flatten(pieces) == [] || Stalls(pieces) ||
    (sends != [] && pieces != [] && sends[|sends| - 1] == Offer(pieces[0], Sent(0)))
  }

  lemma EndedIsSettled(outcome: FlushOutcome, before: seq<Offer>, sends: seq<Offer>, pieces: seq<seq<Byte>>)
    requires EndedAs(outcome, before, sends, pieces) && !Broke(before)
    requires !outcome.NotOpen?
    ensures Broke(sends) <==> outcome.Failed?
    ensures !outcome.Failed? ==> Waits(sends, pieces)
  {
  }

  lemma EmptyFirst(pieces: seq<seq<Byte>>, rest: seq<seq<Byte>>)
    requires pieces == [[]] + rest && Flatten(rest) != []
    ensures Stalls(pieces) && Flatten(pieces) == Flatten(rest)
  {
    assert pieces[1..] == rest;
  }
}

/** The buffered TCP connection of DeepSeerLib/src/Net/Connection.cpp over a nondeterministic socket
    and an event loop: bytes are conserved in order and the registration follows the state. */
module Connections {
  import opened Layouts
  import opened Buffers
  import opened Wrappers
  import opened EventLoop
  import opened Sending

  /** What Socket::read reports. */
  datatype RecvResult = RecvError | WouldBlock | Eof | Received(bytes: seq<Byte>)

  /** A user callback that was invoked, and whether the connection was closed by then. */
  datatype Told = OnData(bytes: seq<Byte>) | OnClose(closed: bool) | OnError(closed: bool)

  /** Moving the first n buffered bytes over to the socket keeps their concatenation. */
  lemma Handover(sent: seq<Byte>, buffered: seq<Byte>, front: seq<Byte>, n: nat)
    requires front <= buffered && n <= |front|
    ensures (sent + front[..n]) + buffered[n..] == sent + buffered
  {
    assert front[..n] == buffered[..n];
    assert buffered == buffered[..n] + buffered[n..];
  }

  lemma StreamGrows(accepted: seq<Byte>, waiting: seq<Byte>, written: seq<Byte>, data: seq<Byte>)
    requires accepted + waiting == written
    ensures accepted + (waiting + data) == written + data
  {
  }

  /** What is written to an idle connection that sends nothing is what waits. */
  lemma NothingSent(accepted: seq<Byte>, written: seq<Byte>, data: seq<Byte>, waiting: seq<Byte>)
    requires accepted + [] == written && accepted + waiting == written + data
    ensures waiting == data
  {
    assert waiting == (accepted + waiting)[|accepted|..];
  }

  /** What a read tells the user: errors before the connection is closed, the end of the stream after. */
  function Tells(r: RecvResult): seq<Told> {
    match r
    case RecvError => [OnError(false)]
    case WouldBlock => []
    case Eof => [OnClose(true)]
    case Received(bytes) => [OnData(bytes)]
  }

  class Connection {
    const fd: Fd
    const loop: KqueueLoop
    const writeBuf: Buffer
    var closed: bool
    var reading: bool
    var delivered: seq<Byte>           // bytes handed to onData, in order
    ghost var told: seq<Told>          // every user callback invoked, in order
    ghost var sends: seq<Offer>        // every call of Socket::write, in order
    ghost var written: seq<Byte>       // everything passed to write while open, in order

    /** Conservation: what the socket took and what is still buffered is what was written. */
    ghost predicate Flow()
      reads this, writeBuf, writeBuf.Repr
    {
      && writeBuf.Valid() && this !in writeBuf.Repr && loop !in writeBuf.Repr
      && Taken(sends) + writeBuf.Contents() == written
    }

    /** Everything but the registration. */
    ghost predicate Structure()
      reads this, loop, writeBuf, writeBuf.Repr
    {
      loop.Valid() && Flow()
    }

    /** The registration is Readable iff reading, Writable iff bytes wait, and absent once closed. */
    ghost predicate Agrees()
      reads this, loop, writeBuf
    {
      var writable := writeBuf.Contents() != [];
      if closed || (!reading && !writable) then fd !in loop.fdEntries
      else fd in loop.fdEntries && loop.fdEntries[fd] == Interest(reading, writable)
    }

    ghost predicate Valid()
      reads this, loop, writeBuf, writeBuf.Repr
    {
      Structure() && Agrees()
    }

    /** Between calls: a failed send has closed the connection, and while it is open bytes wait only
        because the socket refused them or behind an empty slice. */
    ghost predicate Settled()
      reads this, writeBuf
    {
      !closed ==> !Broke(sends) && Waits(sends, writeBuf.Pieces())
    }

    constructor (fd: Fd, loop: KqueueLoop)
      requires loop.Valid() && fd !in loop.fdEntries
      ensures Valid() && fresh(writeBuf) && fresh(writeBuf.Repr) && this.fd == fd && this.loop == loop
      ensures !closed && !reading && written == [] && sends == [] && writeBuf.Dense() && writeBuf.Pieces() == []
    {
      this.fd, this.loop := fd, loop;
      writeBuf := new Buffer();
      closed, reading, delivered, told, sends, written := false, false, [], [], [], [];
    }

    /** Other descriptors of the loop are left alone. */
    twostate predicate OthersUntouched()
      reads this, loop
    {
      loop.fdEntries - {fd} == old(loop.fdEntries) - {fd}
    }

    method UpdateEvents()
      requires Structure() && (closed ==> Agrees())
      modifies loop
      ensures Valid() && OthersUntouched()
    {
      if closed { return; }
      var writable := writeBuf.totalLength != 0;
      if !reading && !writable {
        loop.Remove(fd);
        return;
      }
      var _ := loop.Watch(fd, Interest(reading, writable));
    }

    method Close()
      requires Valid()
      modifies loop, `closed
      ensures Valid() && closed && OthersUntouched()
    {
      if closed { return; }
      loop.Remove(fd);
      closed := true;
    }

    /** Hands the descriptor to another owner: no registration stays behind. */
    method ReleaseSocket()
      requires Valid()
      modifies loop, `closed
      ensures Valid() && closed && OthersUntouched()
    {
      loop.Remove(fd);
      closed := true;
    }

    method StartRead()
      requires Valid()
      modifies loop, `reading
      ensures Valid() && reading == (old(reading) || !closed) && OthersUntouched()
    {
      if closed { return; }
      reading := true;
      UpdateEvents();
    }

    method StopRead()
      requires Valid()
      modifies loop, `reading
      ensures Valid() && reading == (old(reading) && closed) && OthersUntouched()
    {
      if closed { return; }
      reading := false;
      UpdateEvents();
    }

    /** Control is handed to the error callback, which may close the connection or switch reading. */
    method HandOut()
      requires Valid()
      modifies loop, `closed, `reading
      ensures Valid() && OthersUntouched() && (old(closed) ==> closed)
    {
      if * { Close(); } else if * { StartRead(); } else if * { StopRead(); }
    }

    /** The error path of reading and writing: the error callback, then close. */
    method Fail()
      requires Valid()
      modifies loop, `closed, `reading, `told
      ensures Valid() && OthersUntouched() && closed && told == old(told) + [OnError(old(closed))]
    {
      told := told + [OnError(closed)];
      HandOut();
      Close();
    }

    /** send(2): takes any prefix of the data, possibly none, or fails. */
    method Send(data: seq<Byte>) returns (r: SendResult)
      modifies `sends
      ensures sends == old(sends) + [Offer(data, r)]
      ensures Taken(sends) == old(Taken(sends)) + if r.Sent? then data[..Min(r.n, |data|)] else []
      ensures r.Sent? ==> r.n <= |data|
    {
      r := SendError;
      if * {
        var n: nat :| n <= |data|;
        r := Sent(n);
      }
      TakenPush(sends, data, r);
      sends := sends + [Offer(data, r)];
    }

    /** Offers the front slice to the socket and drains what it took. */
    method FlushFront(data: seq<Byte>) returns (r: SendResult)
      requires Flow() && writeBuf.Pieces() != [] && data == writeBuf.Pieces()[0] && data != [] && data <= writeBuf.Contents()
      modifies `sends, writeBuf, writeBuf.Repr
      ensures Flow() && writeBuf.Repr == old(writeBuf.Repr) && sends == old(sends) + [Offer(data, r)]
      ensures r.Sent? && r.n > 0 ==> r.n <= |data| && writeBuf.Pieces() == Consume(old(writeBuf.Pieces()), r.n).chunks
      ensures r.Sent? && r.n > 0 ==> |writeBuf.Contents()| < old(|writeBuf.Contents()|)
      ensures r.SendError? || r.n == 0 ==> writeBuf.Pieces() == old(writeBuf.Pieces())
    {
      r := Send(data);
      if r.Sent? && r.n > 0 {
        Handover(old(Taken(sends)), writeBuf.Contents(), data, r.n);
        writeBuf.Drain(r.n);
      }
    }

    /** The same as a round of the loop of `handleWrite`: it ends the loop or goes on. */
    method OfferFront(data: seq<Byte>, ghost found: seq<seq<Byte>>, ghost before: seq<Offer>) returns (r: SendResult)
      requires Flow() && writeBuf.Pieces() != [] && data == writeBuf.Pieces()[0] && data != [] && data <= writeBuf.Contents()
      requires SoFar(found, before, sends, writeBuf.Pieces())
      modifies `sends, writeBuf, writeBuf.Repr
      ensures Flow() && writeBuf.Repr == old(writeBuf.Repr)
      ensures r.Sent? && r.n > 0 ==> |writeBuf.Contents()| < old(|writeBuf.Contents()|)
      ensures r.SendError? || r.n == 0 || SoFar(found, before, sends, writeBuf.Pieces())
      ensures (r.Sent? && r.n > 0) || FlushEnds(if r.SendError? then Failed else Blocked, found, before, sends, writeBuf.Pieces())
    {
      r := FlushFront(data);
      if r.SendError? || r.n == 0 {
        StopsOnAnswer(found, before, old(sends), old(writeBuf.Pieces()), r);
      } else {
        GoesOn(found, before, old(sends), old(writeBuf.Pieces()), r.n);
      }
    }

    /** An empty front slice ends the loop; draining nothing changes nothing. */
    method GiveUp(ghost found: seq<seq<Byte>>, ghost before: seq<Offer>)
      requires Flow() && SoFar(found, before, sends, writeBuf.Pieces()) && Stalls(writeBuf.Pieces())
      modifies writeBuf, writeBuf.Repr
      ensures Flow() && writeBuf.Repr == old(writeBuf.Repr)
      ensures FlushEnds(EmptyFrontSlice, found, before, sends, writeBuf.Pieces())
    {
      StopsAnyway(found, before, sends, writeBuf.Pieces());
      writeBuf.Drain(0);
    }

    /** The loop of `handleWrite`.  A gap among the slices, which only a caller can make, is what stops
        a flush on an empty slice, and the socket then decides only whether it gets that far. */
    method Flush() returns (outcome: FlushOutcome)
      requires Flow()
      modifies `sends, writeBuf, writeBuf.Repr
      ensures Flow() && writeBuf.Repr == old(writeBuf.Repr)
      ensures !outcome.NotOpen? && FlushEnds(outcome, old(writeBuf.Pieces()), old(sends), sends, writeBuf.Pieces())
    {
      ghost var found, before := writeBuf.Pieces(), sends;
      while writeBuf.totalLength != 0
        invariant Flow() && writeBuf.Repr == old(writeBuf.Repr)
        invariant SoFar(found, before, sends, writeBuf.Pieces())
        decreases |writeBuf.Contents()|
      {
        var data := writeBuf.Front();
        if data == [] {
          GiveUp(found, before);
          return EmptyFrontSlice;
        }
        var r := OfferFront(data, found, before);
        if r.SendError? { return Failed; }
        if r.n == 0 { return Blocked; }
      }
      StopsAnyway(found, before, sends, writeBuf.Pieces());
      outcome := Flushed;
    }

    /** The end of `handleWrite`: a failure closes, otherwise the registration is renewed. */
    method Finish(failed: bool)
      requires Structure() && !closed && (failed ==> Agrees())
      modifies loop, `closed, `reading, `told
      ensures Valid() && OthersUntouched() && closed == failed && (!failed ==> reading == old(reading))
      ensures told == old(told) + if failed then [OnError(false)] else []
    {
      if failed {
        Fail();
        return;
      }
      UpdateEvents();
    }

    /** Flushes until the buffer is empty, the socket is full or fails, or an empty slice is in front.
        Closes exactly when a send fails. */
    method HandleWrite() returns (outcome: FlushOutcome)
      requires Valid()
      modifies `closed, `reading, `told, `sends, loop, writeBuf, writeBuf.Repr
      ensures Valid() && OthersUntouched() && writeBuf.Repr == old(writeBuf.Repr)
      ensures outcome.NotOpen? <==> old(closed)
      ensures old(closed) ==> sends == old(sends)
      ensures old(closed) || FlushEnds(outcome, old(writeBuf.Pieces()), old(sends), sends, writeBuf.Pieces())
      ensures closed <==> outcome.NotOpen? || outcome.Failed?
      ensures !outcome.Failed? ==> reading == old(reading)
      ensures told == old(told) + if outcome.Failed? then [OnError(false)] else []
      ensures old(writeBuf.Dense()) ==> writeBuf.Dense()
    {
      if closed { return NotOpen; }
      outcome := Flush();
      if outcome.Failed? { FailedWaits(old(writeBuf.Pieces()), old(sends), sends, writeBuf.Pieces()); }
      Finish(outcome.Failed?);
    }

    /** The common end of both writes: re-register, then flush at once if anything waits. */
    method Announce() returns (outcome: FlushOutcome)
      requires Structure() && !closed
      modifies `closed, `reading, `told, `sends, loop, writeBuf, writeBuf.Repr
      ensures Valid() && OthersUntouched() && writeBuf.Repr == old(writeBuf.Repr)
      ensures !outcome.NotOpen? && FlushEnds(outcome, old(writeBuf.Pieces()), old(sends), sends, writeBuf.Pieces())
      ensures closed <==> outcome.Failed?
      ensures told == old(told) + if outcome.Failed? then [OnError(false)] else []
      ensures old(writeBuf.Dense()) ==> writeBuf.Dense() && !outcome.EmptyFrontSlice?
    {
      ghost var found := writeBuf.Pieces();
      UpdateEvents();
      if writeBuf.totalLength == 0 {
        NothingToSend(sends, writeBuf.Pieces());
        return Flushed;
      }
      outcome := HandleWrite();
      if Solid(found) { SolidNeverStalls(outcome, found, old(sends), sends, writeBuf.Pieces()); }
    }

    method Enqueue(data: seq<Byte>)
      requires Structure()
      modifies `written, writeBuf, writeBuf.Repr
      ensures Structure() && fresh(writeBuf.Repr - old(writeBuf.Repr)) && written == old(written) + data
      ensures writeBuf.Pieces() == Live(Stored(old(writeBuf.view), None, data))
      ensures old(writeBuf.Dense()) ==> writeBuf.Dense()
    {
      StreamGrows(Taken(sends), writeBuf.Contents(), written, data);
      writeBuf.Add(data);
      written := written + data;
    }

    method EnqueueBuffer(data: Buffer)
      requires Structure() && data.Valid() && data != writeBuf && data.Repr !! writeBuf.Repr
      requires writeBuf !in data.Repr && data !in writeBuf.Repr && this !in data.Repr && loop !in data.Repr
      modifies `written, writeBuf, data
      ensures Structure() && data.Valid() && data.Repr == {} && data.Contents() == []
      ensures writeBuf.Repr == old(writeBuf.Repr + data.Repr) && data !in writeBuf.Repr
      ensures writeBuf.Pieces() == old(writeBuf.Pieces() + data.Pieces())
      ensures written == old(written + data.Contents())
      ensures old(writeBuf.Dense() && data.Dense()) ==> writeBuf.Dense()
    {
      StreamGrows(Taken(sends), writeBuf.Contents(), written, data.Contents());
      written := written + data.Contents();
      writeBuf.Move(data);
    }

    /** write(string_view): buffers the bytes and tries to flush at once. */
    method Write(data: seq<Byte>) returns (outcome: FlushOutcome)
      requires Valid()
      modifies `closed, `reading, `told, `sends, `written, loop, writeBuf, writeBuf.Repr
      ensures Valid() && OthersUntouched() && fresh(writeBuf.Repr - old(writeBuf.Repr))
      ensures written == if old(closed) then old(written) else old(written) + data
      ensures outcome.NotOpen? <==> old(closed)
      ensures closed <==> outcome.NotOpen? || outcome.Failed?
      ensures told == old(told) + if outcome.Failed? then [OnError(false)] else []
      ensures old(closed) ==> sends == old(sends)
      ensures old(closed) ||
              FlushEnds(outcome, Live(Stored(old(writeBuf.view), None, data)), old(sends), sends, writeBuf.Pieces())
      ensures old(writeBuf.Dense()) ==> writeBuf.Dense() && !outcome.EmptyFrontSlice?
    {
      if closed { return NotOpen; }
      Enqueue(data);
      outcome := Announce();
    }

    method TakeOver(data: Buffer) returns (outcome: FlushOutcome)
      requires Structure() && !closed && data.Valid() && data != writeBuf && data.Repr !! writeBuf.Repr
      requires writeBuf !in data.Repr && data !in writeBuf.Repr && this !in data.Repr && loop !in data.Repr
      modifies `closed, `reading, `told, `sends, `written, loop, writeBuf, writeBuf.Repr, data, data.Repr
      ensures Valid() && OthersUntouched() && data.Valid() && data.Contents() == []
      ensures writeBuf.Repr == old(writeBuf.Repr + data.Repr) && written == old(written + data.Contents())
      ensures !outcome.NotOpen? && (closed <==> outcome.Failed?)
      ensures told == old(told) + if outcome.Failed? then [OnError(false)] else []
      ensures FlushEnds(outcome, old(writeBuf.Pieces() + data.Pieces()), old(sends), sends, writeBuf.Pieces())
      ensures old(writeBuf.Dense() && data.Dense()) ==> writeBuf.Dense() && !outcome.EmptyFrontSlice?
    {
      EnqueueBuffer(data);
      outcome := Announce();
    }

    /** write(Buffer&): takes the slices over, unless closed, and tries to flush at once. */
    method WriteBuffer(data: Buffer) returns (outcome: FlushOutcome)
      requires Valid() && data.Valid() && data != writeBuf && data.Repr !! writeBuf.Repr
      requires writeBuf !in data.Repr && data !in writeBuf.Repr && this !in data.Repr && loop !in data.Repr
      modifies `closed, `reading, `told, `sends, `written, loop, writeBuf, writeBuf.Repr, data, data.Repr
      ensures Valid() && data.Valid() && OthersUntouched()
      ensures writeBuf.Repr == if old(closed) then old(writeBuf.Repr) else old(writeBuf.Repr + data.Repr)
      ensures old(closed) ==> writeBuf.view == old(writeBuf.view)
      ensures written == if old(closed) then old(written) else old(written + data.Contents())
      ensures data.Contents() == if old(closed) then old(data.Contents()) else []
      ensures outcome.NotOpen? <==> old(closed)
      ensures closed <==> outcome.NotOpen? || outcome.Failed?
      ensures told == old(told) + if outcome.Failed? then [OnError(false)] else []
      ensures old(closed) ==> sends == old(sends)
      ensures old(closed) || FlushEnds(outcome, old(writeBuf.Pieces() + data.Pieces()), old(sends), sends, writeBuf.Pieces())
      ensures old(writeBuf.Dense() && data.Dense()) ==> writeBuf.Dense() && !outcome.EmptyFrontSlice?
    {
      if closed { return NotOpen; }
      outcome := TakeOver(data);
    }

    /** What arrived in the reservation of a fresh buffer, as onData sees it. */
    method Collect(bytes: seq<Byte>) returns (data: seq<Byte>)
      requires |bytes| <= DEFAULT_CAPACITY
      ensures data == bytes
    {
      var buf := Reserving(DEFAULT_CAPACITY);
      buf.Receive(bytes);
      data := buf.Linearize();
    }

    /** Delivers what the socket produced; closes on error and at end of stream.  The data and close
        callbacks are the last thing that happens: what they do to the connection are the next calls. */
    method HandleRead(r: RecvResult)
      requires Valid() && (r.Received? ==> 0 < |r.bytes| <= DEFAULT_CAPACITY)
      modifies loop, `closed, `reading, `delivered, `told
      ensures Valid() && OthersUntouched()
      ensures told == old(told) + if old(closed) then [] else Tells(r)
      ensures delivered == old(delivered) + if !old(closed) && r.Received? then r.bytes else []
      ensures closed <==> old(closed) || r.RecvError? || r.Eof?
      ensures !r.RecvError? ==> reading == old(reading)
    {
      if closed { return; }
      match r
      case RecvError => Fail();
      case WouldBlock =>
      case Eof =>
        Close();
        told := told + [OnClose(closed)];
      case Received(bytes) =>
        var data := Collect(bytes);
        delivered, told := delivered + data, told + [OnData(data)];
    }
  }

  /** What happens to a connection: calls by its owner and events from the loop. */
  datatype Call =
    | Write(data: seq<Byte>)
    | WriteBuffer(ops: seq<Op>)            // a buffer that had a run of its own
    | Writable
    | Readable(r: RecvResult)
    | StartRead
    | StopRead
    | Close
    | ReleaseSocket

  /** A read fits its reservation. */
  predicate GoodCall(c: Call) {
    c.Readable? && c.r.Received? ==> 0 < |c.r.bytes| <= DEFAULT_CAPACITY
  }

  /** A buffer passed on was built without reservations left empty. */
  predicate Gapless(c: Call) { c.WriteBuffer? ==> AllCommitted(c.ops) }

  predicate NoGaps(calls: seq<Call>, k: nat) { forall i :: 0 <= i < k && i < |calls| ==> Gapless(calls[i]) }

  /** The calls that close whatever the socket does. */
  predicate Closing(c: Call) {
    c.Close? || c.ReleaseSocket? || (c.Readable? && (c.r.RecvError? || c.r.Eof?))
  }

  /** The bytes a call passes to write. */
  function Written(c: Call): seq<Byte> {
    match c
    case Write(data) => data
    case WriteBuffer(ops) => ServedAll(ops)
    case _ => []
  }

  function Payload(calls: seq<Call>): seq<Byte> {
    if calls == [] then [] else Payload(calls[..|calls| - 1]) + Written(calls[|calls| - 1])
  }

  /** What every call keeps. */
  ghost predicate Sound(conn: Connection)
    reads conn, conn.loop, conn.writeBuf, conn.writeBuf.Repr
  {
    conn.Valid() && conn.Settled()
  }

  method PerformWrite(conn: Connection, data: seq<Byte>)
    requires Sound(conn) && !conn.closed
    modifies conn, conn.loop, conn.writeBuf, conn.writeBuf.Repr
    ensures Sound(conn) && fresh(conn.writeBuf.Repr - old(conn.writeBuf.Repr))
    ensures conn.written == old(conn.written) + data && (conn.closed <==> Broke(conn.sends))
    ensures old(conn.writeBuf.Dense()) ==> conn.writeBuf.Dense()
  {
    var outcome := conn.Write(data);
    EndedIsSettled(outcome, old(conn.sends), conn.sends, conn.writeBuf.Pieces());
  }

  method PerformWriteBuffer(conn: Connection, ops: seq<Op>)
    requires Sound(conn) && !conn.closed
    modifies conn, conn.loop, conn.writeBuf, conn.writeBuf.Repr
    ensures Sound(conn) && fresh(conn.writeBuf.Repr - old(conn.writeBuf.Repr))
    ensures conn.written == old(conn.written) + ServedAll(ops) && (conn.closed <==> Broke(conn.sends))
    ensures old(conn.writeBuf.Dense()) && AllCommitted(ops) ==> conn.writeBuf.Dense()
  {
    if AllCommitted(ops) { CommittedIsSolid(ops); }
    var b, _ := Serve(ops);
    var outcome := conn.WriteBuffer(b);
    EndedIsSettled(outcome, old(conn.sends), conn.sends, conn.writeBuf.Pieces());
  }

  method PerformWritable(conn: Connection)
    requires Sound(conn) && !conn.closed
    modifies conn, conn.loop, conn.writeBuf, conn.writeBuf.Repr
    ensures Sound(conn) && conn.writeBuf.Repr == old(conn.writeBuf.Repr)
    ensures conn.written == old(conn.written) && (conn.closed <==> Broke(conn.sends))
    ensures old(conn.writeBuf.Dense()) ==> conn.writeBuf.Dense()
  {
    var outcome := conn.HandleWrite();
    EndedIsSettled(outcome, old(conn.sends), conn.sends, conn.writeBuf.Pieces());
  }

  predicate Quiet(c: Call) { !c.Write? && !c.WriteBuffer? && !c.Writable? }

  /** The calls that send nothing. */
  method PerformQuiet(conn: Connection, c: Call)
    requires conn.Valid() && GoodCall(c) && Quiet(c)
    modifies conn.loop, conn`closed, conn`reading, conn`delivered, conn`told
    ensures conn.Valid() && (conn.closed <==> old(conn.closed) || Closing(c))
  {
    match c
    case Readable(r) => conn.HandleRead(r);
    case StartRead => conn.StartRead();
    case StopRead => conn.StopRead();
    case Close => conn.Close();
    case ReleaseSocket => conn.ReleaseSocket();
  }

  method PerformOther(conn: Connection, c: Call)
    requires Sound(conn) && !conn.closed && GoodCall(c) && Quiet(c)
    modifies conn.loop, conn`closed, conn`reading, conn`delivered, conn`told
    ensures Sound(conn) && (conn.closed <==> Closing(c) || Broke(conn.sends))
  {
    PerformQuiet(conn, c);
  }

  /** A call on an open connection: it closes by itself or exactly when a send fails. */
  method PerformOpen(conn: Connection, c: Call)
    requires Sound(conn) && !conn.closed && GoodCall(c)
    modifies conn, conn.loop, conn.writeBuf, conn.writeBuf.Repr
    ensures Sound(conn) && fresh(conn.writeBuf.Repr - old(conn.writeBuf.Repr))
    ensures conn.written == old(conn.written) + Written(c)
    ensures conn.closed <==> Closing(c) || Broke(conn.sends)
    ensures old(conn.writeBuf.Dense()) && Gapless(c) ==> conn.writeBuf.Dense()
  {
    if c.Write? {
      PerformWrite(conn, c.data);
    } else if c.WriteBuffer? {
      PerformWriteBuffer(conn, c.ops);
    } else if c.Writable? {
      PerformWritable(conn);
    } else {
      PerformOther(conn, c);
    }
  }

  /** A call on a closed connection changes nothing that matters to the stream. */
  method PerformClosed(conn: Connection, c: Call)
    requires Sound(conn) && conn.closed && GoodCall(c)
    modifies conn, conn.loop, conn.writeBuf, conn.writeBuf.Repr
    ensures Sound(conn) && fresh(conn.writeBuf.Repr - old(conn.writeBuf.Repr)) && conn.closed
    ensures conn.written == old(conn.written) && conn.sends == old(conn.sends)
    ensures old(conn.writeBuf.Dense()) ==> conn.writeBuf.Dense()
  {
    match c
    case Write(data) => var _ := conn.Write(data);
    case WriteBuffer(ops) =>
      var b, _ := Serve(ops);
      var _ := conn.WriteBuffer(b);
    case Writable => var _ := conn.HandleWrite();
    case _ => PerformQuiet(conn, c);
  }

  lemma PayloadPush(calls: seq<Call>, i: nat)
    requires i < |calls|
    ensures Payload(calls[..i + 1]) == Payload(calls[..i]) + Written(calls[i])
  {
    assert calls[..i + 1][..i] == calls[..i];
  }

  lemma GapsPush(calls: seq<Call>, i: nat)
    requires i < |calls|
    ensures NoGaps(calls, i + 1) <==> NoGaps(calls, i) && Gapless(calls[i])
  {
  }

  predicate NoneClosing(calls: seq<Call>, k: int) { forall i :: 0 <= i < k && i < |calls| ==> !Closing(calls[i]) }

  /** An open connection without gaps keeps bytes back only because the socket took none of them. */
  lemma WaitsOnSocket(conn: Connection)
    requires Sound(conn)
    ensures conn.writeBuf.Dense() && !conn.closed && conn.writeBuf.Contents() != [] ==>
              conn.sends != [] && conn.sends[|conn.sends| - 1].answer == Sent(0)
  {
  }

  /** What is known after i calls, of which the first k found the connection open; `dense` and `now` say
      whether the write buffer had no empty live slice at the start and has none now. */
  predicate Tally(calls: seq<Call>, i: nat, k: nat, closed: bool, sends: seq<Offer>, written: seq<Byte>, dense: bool, now: bool) {
    && k <= i <= |calls| && (k < i ==> closed) && NoneClosing(calls, k - 1)
    && (closed <==> (k > 0 && Closing(calls[k - 1])) || Broke(sends))
    && written == Payload(calls[..k])
    && (dense && NoGaps(calls, k) ==> now)
  }

  lemma TallyOpen(calls: seq<Call>, i: nat, k: nat, sends: seq<Offer>, written: seq<Byte>, dense: bool, now: bool,
                  closed: bool, sends': seq<Offer>, written': seq<Byte>, now': bool)
    requires i < |calls| && Tally(calls, i, k, false, sends, written, dense, now)
    requires written' == written + Written(calls[i]) && (closed <==> Closing(calls[i]) || Broke(sends'))
    requires now && Gapless(calls[i]) ==> now'
    ensures Tally(calls, i + 1, i + 1, closed, sends', written', dense, now')
  {
    PayloadPush(calls, i);
    GapsPush(calls, i);
  }

  ghost predicate After(conn: Connection, calls: seq<Call>, i: nat, k: nat, dense: bool)
    reads conn, conn.loop, conn.writeBuf, conn.writeBuf.Repr
  {
    Sound(conn) && Tally(calls, i, k, conn.closed, conn.sends, conn.written, dense, conn.writeBuf.Dense())
  }

  lemma NothingYet(conn: Connection, calls: seq<Call>)
    requires conn.Valid() && conn.written == [] && conn.sends == [] && !conn.closed
    ensures After(conn, calls, 0, 0, conn.writeBuf.Dense())
  {
    assert Taken(conn.sends) + conn.writeBuf.Contents() == [];
    assert calls[..0] == [];
  }

  method Advance(conn: Connection, calls: seq<Call>, i: nat, k: nat, ghost dense: bool) returns (next: nat)
    requires After(conn, calls, i, k, dense) && i < |calls| && GoodCall(calls[i])
    modifies conn, conn.loop, conn.writeBuf, conn.writeBuf.Repr
    ensures After(conn, calls, i + 1, next, dense) && fresh(conn.writeBuf.Repr - old(conn.writeBuf.Repr))
  {
    if conn.closed {
      PerformClosed(conn, calls[i]);
      next := k;
    } else {
      PerformOpen(conn, calls[i]);
      TallyOpen(calls, i, k, old(conn.sends), old(conn.written), dense, old(conn.writeBuf.Dense()),
                conn.closed, conn.sends, conn.written, conn.writeBuf.Dense());
      next := i + 1;
    }
  }

  method RunFrom(conn: Connection, calls: seq<Call>, i: nat, k: nat, ghost dense: bool) returns (open: nat)
    requires After(conn, calls, i, k, dense)
    requires forall j :: i <= j < |calls| ==> GoodCall(calls[j])
    modifies conn, conn.loop, conn.writeBuf, conn.writeBuf.Repr
    ensures After(conn, calls, |calls|, open, dense)
    decreases |calls| - i
  {
    if i < |calls| {
      open := Advance(conn, calls, i, k, dense);
      open := RunFrom(conn, calls, i + 1, open, dense);
    } else {
      open := k;
    }
  }

  /** Stream conservation over a whole run, gaps or not.  The first k calls found the connection open:
      all of them, or those up to the first that closes by itself or in which a send fails.  The bytes
      the socket took, followed by the bytes still buffered, are exactly what these k calls wrote, in
      order.  On an open connection bytes wait only because the socket took none of the front slice or
      behind an empty one; the latter never if the buffers passed on were built without reservations
      left empty. */
  method Run(conn: Connection, calls: seq<Call>) returns (k: nat)
    requires conn.Valid() && conn.written == [] && conn.sends == [] && !conn.closed
    requires forall i :: 0 <= i < |calls| ==> GoodCall(calls[i])
    modifies conn, conn.loop, conn.writeBuf, conn.writeBuf.Repr
    ensures conn.Valid()
    ensures k <= |calls| && (k < |calls| ==> conn.closed) && NoneClosing(calls, k - 1)
    ensures conn.closed <==> (k > 0 && Closing(calls[k - 1])) || Broke(conn.sends)
    ensures Taken(conn.sends) + conn.writeBuf.Contents() == Payload(calls[..k])
    ensures !conn.closed ==> Waits(conn.sends, conn.writeBuf.Pieces())
    ensures old(conn.writeBuf.Dense()) && NoGaps(calls, k) ==> conn.writeBuf.Dense()
    ensures old(conn.writeBuf.Dense()) && NoGaps(calls, k) && !conn.closed && conn.writeBuf.Contents() != [] ==>
              conn.sends != [] && conn.sends[|conn.sends| - 1].answer == Sent(0)
  {
    NothingYet(conn, calls);
    k := RunFrom(conn, calls, 0, 0, conn.writeBuf.Dense());
    WaitsOnSocket(conn);
  }

  method Holding(data: seq<Byte>) returns (b: Buffer)
    ensures b.Valid() && fresh(b) && fresh(b.Repr) && b.Contents() == data
  {
    b := new Buffer();
    b.Add(data);
  }

  /** Reserving without committing and then taking over another buffer leaves a gap in front. */
  method GappedBuffer(data: seq<Byte>) returns (b: Buffer)
    requires data != []
    ensures b.Valid() && fresh(b) && fresh(b.Repr) && b.Contents() == data && Stalls(b.Pieces())
  {
    var full := Holding(data);
    ghost var rest := full.Pieces();
    b := Reserving(0);
    b.Move(full);
    EmptyFirst(b.Pieces(), rest);
  }

  /** Such a buffer stalls the connection: nothing of it is offered to the socket, and what HandleWrite
      finds then is a gap in front, on which it sends nothing either. */
  method Stall(conn: Connection, data: seq<Byte>) returns (outcome: FlushOutcome)
    requires conn.Valid() && !conn.closed && conn.writeBuf.Pieces() == [] && data != []
    modifies conn, conn.loop, conn.writeBuf, conn.writeBuf.Repr
    ensures conn.Valid() && !conn.closed && outcome.EmptyFrontSlice?
    ensures conn.writeBuf.Contents() == data && Stalls(conn.writeBuf.Pieces()) && conn.sends == old(conn.sends)
  {
    var gapped := GappedBuffer(data);
    assert conn.writeBuf.Pieces() + gapped.Pieces() == gapped.Pieces();
    outcome := conn.WriteBuffer(gapped);
    NothingSent(Taken(conn.sends), old(conn.written), data, conn.writeBuf.Contents());
  }

  /** Interest agreement down to the kernel: a closed connection leaves no filter behind, an open one
      whose registration the kernel honoured is monitored for exactly what it wants. */
  lemma KernelAgrees(conn: Connection)
    requires conn.Valid()
    ensures conn.closed ==> (conn.fd, Read) !in conn.loop.kernel && (conn.fd, Filter.Write) !in conn.loop.kernel
    ensures !conn.closed && (conn.fd in conn.loop.fdEntries ==> conn.fd in conn.loop.honoured) ==>
      && ((conn.fd, Read) in conn.loop.kernel <==> conn.reading)
      && ((conn.fd, Filter.Write) in conn.loop.kernel <==> conn.writeBuf.Contents() != [])
  {
  }
}
