/** The chunked byte queue of DeepSeerLib/src/Core/Buffer.cpp on the heap: slices over arrays, a vector
    of them with a lazy front index, a cached length and threshold compaction.  Every operation takes
    the layout of the slices to what the module Layouts says. */
module Buffers {
  import opened Layouts
  import opened Wrappers

  // ---------------------------------------------------------------- Slice

  /** One contiguous region: [0, readPos) consumed, [readPos, writePos) readable, the rest reservable. */
  class Slice {
    const storage: array<Byte>
    var readPos: nat
    var writePos: nat
    ghost var data: seq<Byte>    // the readable bytes

    ghost predicate Valid()
      reads this, storage
    {
      readPos <= writePos <= storage.Length && data == storage[readPos..writePos]
    }

    constructor (capacity: nat)
      ensures Valid() && fresh(storage) && storage.Length == capacity
      ensures readPos == writePos == 0 && data == []
    {
      storage := new Byte[capacity](_ => 0);
      readPos, writePos, data := 0, 0, [];
    }

    function Length(): (n: nat)
      requires Valid()
      reads this, storage
      ensures n == |data|
    {
      writePos - readPos
    }

    function Available(): (n: nat)
      requires Valid()
      reads this, storage
      ensures n == Room()
    {
      storage.Length - writePos
    }

    ghost function Room(): int
      reads `writePos
    {
      storage.Length - writePos
    }

    /** The first n bytes of the reservation, whatever was written there. */
    ghost function Reserved(n: nat): seq<Byte>
      requires Valid() && n <= Available()
      reads this, storage
    {
      storage[writePos..writePos + n]
    }

    /** A write through the span returned by `reservation`: readable data is untouched. */
    method Fill(bytes: seq<Byte>)
      requires Valid() && |bytes| <= Available()
      modifies storage
      ensures Valid() && Reserved(|bytes|) == bytes && Available() == old(Available())
    {
      forall i | 0 <= i < |bytes| {
        storage[writePos + i] := bytes[i];
      }
    }

    method Commit(n: nat)
      requires Valid() && n <= Available()
      modifies this
      ensures Valid() && readPos == old(readPos) && writePos == old(writePos) + n
      ensures data == old(data + Reserved(n))
    {
      data := data + Reserved(n);
      writePos := writePos + n;
      assert data == storage[readPos..writePos];
    }

    /** A copy into the reservation followed by its commit. */
    method Append(bytes: seq<Byte>)
      requires Valid() && |bytes| <= Available()
      modifies this, storage
      ensures Valid() && data == old(data) + bytes && writePos == old(writePos) + |bytes|
    {
      Fill(bytes);
      Commit(|bytes|);
    }

    method Drain(n: nat)
      requires Valid() && n <= Length()
      modifies this
      ensures Valid() && readPos == old(readPos) + n && writePos == old(writePos)
      ensures data == old(data)[n..]
    {
      readPos, data := readPos + n, data[n..];
    }
  }

  /** The slices and their storage lie in a footprint. */
  ghost predicate OwnedBy(slices: seq<Slice>, footprint: set<object>) {
    forall i :: 0 <= i < |slices| ==> slices[i] in footprint && slices[i].storage in footprint
  }

  /** No two positions share a slice or its storage. */
  ghost predicate Separate(slices: seq<Slice>) {
    forall i, j :: 0 <= i < j < |slices| ==> slices[i] != slices[j] && slices[i].storage != slices[j].storage
  }

  lemma JoinSeparate(a: seq<Slice>, fa: set<object>, b: seq<Slice>, fb: set<object>)
    requires OwnedBy(a, fa) && OwnedBy(b, fb) && fa !! fb && Separate(a) && Separate(b)
    ensures OwnedBy(a + b, fa + fb) && Separate(a + b)
  {
    forall i, j | 0 <= i < j < |a + b|
      ensures (a + b)[i] != (a + b)[j] && (a + b)[i].storage != (a + b)[j].storage
    {
      if i < |a| <= j { assert a[i] in fa && b[j - |a|] in fb; }
    }
  }

  // ---------------------------------------------------------------- Buffer

  /** The slices are separate, lie in the footprint and hold what the layout says. */
  ghost predicate Mirrors(slices: seq<Slice>, l: Layout, footprint: set<object>)
    reads footprint
  {
    && OwnedBy(slices, footprint) && Separate(slices) && |slices| == Slices(l)
    && (forall i :: 0 <= i < |slices| ==>
          slices[i].Valid() && slices[i].data == l.chunks[i] && slices[i].Room() == l.rooms[i])
  }

  /** The live part of a layout. */
  ghost function Tail(l: Layout): Layout { Layout(Live(l), l.rooms[l.front..], 0) }

  lemma MirrorsTail(slices: seq<Slice>, l: Layout, footprint: set<object>)
    requires Mirrors(slices, l, footprint)
    ensures Mirrors(slices[l.front..], Tail(l), footprint)
  {
  }

  lemma MovedTail(l: Layout, other: Layout)
    ensures Moved(l, Tail(other)) == Moved(l, other) && Moved(Tail(l), other) == Moved(l, other)
  {
    assert Live(Tail(other)) == Live(other) && Live(Tail(l)) == Live(l);
  }

  lemma MirrorsJoin(a: seq<Slice>, l: Layout, fa: set<object>, b: seq<Slice>, m: Layout, fb: set<object>)
    requires Mirrors(a, l, fa) && Mirrors(b, m, fb) && fa !! fb && l.front == m.front == 0
    ensures Mirrors(a + b, Moved(l, m), fa + fb)
  {
    JoinSeparate(a, fa, b, fb);
    assert Live(l) == l.chunks && Live(m) == m.chunks && l.rooms[0..] == l.rooms && m.rooms[0..] == m.rooms;
  }

  lemma NextChunk(result: seq<Byte>, chunks: seq<seq<Byte>>, i: nat)
    requires i < |chunks|
    ensures result + Flatten(chunks[i..]) == (result + chunks[i]) + Flatten(chunks[i + 1..])
  {
    assert chunks[i..][1..] == chunks[i + 1..];
  }

  class Buffer {
    var slices: seq<Slice>
    var totalLength: nat
    var frontSlice: nat

    ghost var view: Layout             // what the slices look like from the front index on
    ghost var Repr: set<object>        // the slices and their storage

    /** Structure: slices are owned, pairwise separate, and hold what `view` says; everything before
        the front index has been consumed. */
    ghost predicate Core()
      reads `slices, `frontSlice, `view, `Repr, Repr
    {
      && this !in Repr
      && Mirrors(slices, view, Repr)
      && frontSlice == view.front
      && (forall i :: 0 <= i < frontSlice ==> view.chunks[i] == [])
    }

    ghost predicate Valid()
      reads this, Repr
    {
      Core() && Balanced(view) && totalLength == |Contents()|
    }

    /** The data of the live slices. */
    ghost function Pieces(): seq<seq<Byte>>
      reads `view
    {
      Live(view)
    }

    /** The byte sequence this buffer stands for. */
    ghost function Contents(): seq<Byte>
      reads `view
    {
      Flatten(Live(view))
    }

    /** No live slice is empty. */
    ghost predicate Dense()
      reads `view
    {
      Solid(Live(view))
    }

    /** No live slice is empty except possibly the last, freshly reserved one. */
    ghost predicate DenseButLast()
      reads `view
    {
      SolidButLast(Live(view))
    }

    constructor ()
      ensures Valid() && Repr == {} && view == Nothing && Contents() == [] && Dense()
    {
      slices, totalLength, frontSlice := [], 0, 0;
      view, Repr := Nothing, {};
    }

    /** emplace_back of a fresh slice. */
    method PushSlice(capacity: nat)
      requires Core()
      modifies `slices, `view, `Repr
      ensures Core() && fresh(Repr - old(Repr))
      ensures view == Layout(old(view).chunks + [[]], old(view).rooms + [capacity], old(view).front)
    {
      var s := new Slice(capacity);
      slices := slices + [s];
      view := Layout(view.chunks + [[]], view.rooms + [capacity], view.front);
      Repr := Repr + {s, s.storage};
    }

    /** The test `add` and `reserve` share: afterwards the last slice is live and has room. */
    method EnsureRoom(hint: nat)
      requires Core() && (frontSlice == 0 || frontSlice < |slices|)
      modifies `slices, `view, `Repr
      ensures Core() && fresh(Repr - old(Repr)) && view == Roomy(old(view), hint)
      ensures slices != [] && slices[|slices| - 1].Available() == Room(view)
    {
      if slices == [] || slices[|slices| - 1].Available() == 0 {
        PushSlice(Max(hint, DEFAULT_CAPACITY));
      }
    }

    /** A write into the reservation of the last slice: nothing readable changes. */
    method FillRoom(bytes: seq<Byte>)
      requires Core() && frontSlice < |slices| && |bytes| <= slices[|slices| - 1].Available()
      modifies Repr
      ensures Core() && |bytes| <= slices[|slices| - 1].Available() && slices[|slices| - 1].Reserved(|bytes|) == bytes
    {
      slices[|slices| - 1].Fill(bytes);
    }

    /** Makes n reserved bytes of the last slice readable. */
    method CommitLast(n: nat, ghost bytes: seq<Byte>)
      requires Core() && frontSlice < |slices| && n <= slices[|slices| - 1].Available()
      requires bytes == slices[|slices| - 1].Reserved(n)
      modifies `view, slices[|slices| - 1]
      ensures Core() && |bytes| <= Room(old(view)) && view == Fill(old(view), bytes)
    {
      slices[|slices| - 1].Commit(n);
      view := Fill(view, bytes);
    }

    /** Copies data into the reservation of the last slice and commits it. */
    method FillLast(data: seq<Byte>)
      requires Core() && frontSlice < |slices| && |data| <= Room(view)
      modifies `view, Repr
      ensures Core() && view == Fill(old(view), data)
    {
      FillRoom(data);
      CommitLast(|data|, data);
    }

    /** One round of the loop in `add`: as many bytes as the last slice takes. */
    method AddSome(rest: seq<Byte>) returns (n: nat)
      requires Core() && rest != [] && (frontSlice == 0 || frontSlice < |slices|)
      modifies `slices, `view, `Repr, Repr
      ensures Core() && fresh(Repr - old(Repr)) && |slices| >= old(|slices|)
      ensures 0 < n <= |rest| && Stored(view, None, rest[n..]) == Stored(old(view), None, rest)
    {
      EnsureRoom(|rest|);
      n := Min(slices[|slices| - 1].Available(), |rest|);
      FillLast(rest[..n]);
    }

    /** The loop of `add`. */
    method AddAll(data: seq<Byte>)
      requires Core() && (frontSlice == 0 || frontSlice < |slices|)
      modifies `slices, `view, `Repr, Repr
      ensures Core() && fresh(Repr - old(Repr)) && |slices| >= old(|slices|)
      ensures view == Stored(old(view), None, data)
    {
      var rest := data;
      ghost var goal := Stored(view, None, data);
      while rest != []
        invariant Core() && fresh(Repr - old(Repr)) && |slices| >= old(|slices|)
        invariant Stored(view, None, rest) == goal
        decreases |rest|
      {
        var n := AddSome(rest);
        rest := rest[n..];
      }
    }

    method AddMore(data: seq<Byte>)
      requires Core() && Balanced(view)
      modifies `slices, `view, `Repr, Repr
      ensures Core() && Balanced(view) && fresh(Repr - old(Repr)) && view == Stored(old(view), None, data)
      ensures Contents() == old(Contents()) + data && (old(Dense()) ==> Dense())
    {
      StoredFacts(view, None, data);
      AddAll(data);
    }

    method Add(data: seq<Byte>)
      requires Valid()
      modifies `slices, `view, `Repr, `totalLength, Repr
      ensures Valid() && fresh(Repr - old(Repr))
      ensures view == Stored(old(view), None, data)
      ensures Contents() == old(Contents()) + data && (old(Dense()) ==> Dense())
    {
      totalLength := totalLength + |data|;
      AddMore(data);
    }

    method ReserveMore(hint: nat)
      requires Core() && Balanced(view)
      modifies `slices, `view, `Repr
      ensures Core() && Balanced(view) && fresh(Repr - old(Repr)) && view == Roomy(old(view), hint)
      ensures Contents() == old(Contents()) && (old(Dense()) ==> DenseButLast())
      ensures slices != [] && slices[|slices| - 1].Available() == Room(view)
    {
      RoomyFacts(view, hint);
      if Dense() { RoomySolid(view, hint); }
      EnsureRoom(hint);
    }

    /** Writable memory for a socket read: room at the end, nothing readable changes. */
    method Reserve(hint: nat) returns (last: Slice)
      requires Valid()
      modifies `slices, `view, `Repr
      ensures Valid() && fresh(Repr - old(Repr))
      ensures view == Roomy(old(view), hint) && Contents() == old(Contents())
      ensures old(Dense()) ==> DenseButLast()
      ensures slices != [] && last == slices[|slices| - 1] && last.Available() == Room(view)
    {
      ReserveMore(hint);
      last := slices[|slices| - 1];
    }

    lemma LastIsLive()
      requires Valid() && slices != []
      ensures frontSlice < |slices| && view.front < |view.chunks| && slices[|slices| - 1].Available() == Room(view)
    {
    }

    /** A write into the reserved memory, such as a socket read: nothing readable changes. */
    method FillReservation(bytes: seq<Byte>)
      requires Valid() && slices != [] && |bytes| <= slices[|slices| - 1].Available()
      modifies Repr
      ensures Valid() && |bytes| <= slices[|slices| - 1].Available() && slices[|slices| - 1].Reserved(|bytes|) == bytes
    {
      LastIsLive();
      FillRoom(bytes);
    }

    method CommitMore(n: nat, ghost bytes: seq<Byte>)
      requires Core() && Balanced(view) && frontSlice < |slices| && n <= slices[|slices| - 1].Available()
      requires bytes == slices[|slices| - 1].Reserved(n)
      modifies `view, slices[|slices| - 1]
      ensures Core() && Balanced(view) && |bytes| <= Room(old(view)) && view == Fill(old(view), bytes)
      ensures Contents() == old(Contents()) + bytes
      ensures old(Dense()) || (old(DenseButLast()) && n > 0) ==> Dense()
    {
      FillFacts(view, bytes);
      if Dense() || (DenseButLast() && n > 0) { FillSolid(view, bytes); }
      CommitLast(n, bytes);
    }

    /** Makes the first n reserved bytes readable. */
    method Commit(n: nat, ghost bytes: seq<Byte>)
      requires Valid() && slices != [] && n <= slices[|slices| - 1].Available()
      requires bytes == slices[|slices| - 1].Reserved(n)
      modifies `view, `totalLength, Repr
      ensures Valid() && |bytes| <= Room(old(view)) && old(view).front < |old(view).chunks| && view == Fill(old(view), bytes)
      ensures Contents() == old(Contents()) + bytes
      ensures old(Dense()) || (old(DenseButLast()) && n > 0) ==> Dense()
    {
      LastIsLive();
      CommitMore(n, bytes);
      totalLength := totalLength + n;
    }

    /** A read into the reservation and its commit. */
    method Receive(bytes: seq<Byte>)
      requires Valid() && slices != [] && |bytes| <= slices[|slices| - 1].Available()
      modifies `view, `totalLength, Repr
      ensures Valid() && |bytes| <= Room(old(view)) && old(view).front < |old(view).chunks| && view == Fill(old(view), bytes)
      ensures Contents() == old(Contents()) + bytes
    {
      FillReservation(bytes);
      Commit(|bytes|, bytes);
    }

    /** One round of the loop in `drain`: takes what it can from the front slice. */
    method DrainFront(remaining: nat) returns (taken: nat)
      requires Core() && frontSlice < |slices|
      modifies `frontSlice, `view, Repr
      ensures Core() && taken == Min(remaining, |old(view).chunks[old(view).front]|) && view == Bitten(old(view), taken)
    {
      var slice := slices[frontSlice];
      taken := Min(remaining, slice.Length());
      slice.Drain(taken);
      view := Bitten(view, taken);
      if slice.Length() == 0 {
        frontSlice := frontSlice + 1;
      }
    }

    /** The loop of `drain`; what remains could not be consumed. */
    method DrainSlices(n: nat) returns (remaining: nat)
      requires Core()
      modifies `frontSlice, `view, Repr
      ensures Core() && Meal(view, remaining) == Eaten(old(view), n)
    {
      remaining := n;
      ghost var goal := Eaten(view, n);
      while remaining > 0 && frontSlice < |slices|
        invariant Core() && Eaten(view, remaining) == goal
        decreases remaining + |slices| - frontSlice
      {
        var taken := DrainFront(remaining);
        remaining := remaining - taken;
      }
    }

    /** Erases the consumed slices. */
    method CompactSlices()
      requires Core()
      modifies `slices, `view, `frontSlice
      ensures Core() && slices == old(slices[frontSlice..])
      ensures view == Tail(old(view))
    {
      MirrorsTail(slices, view, Repr);
      slices, view := slices[frontSlice..], Tail(view);
      frontSlice := 0;
    }

    /** The clean-up at the end of `drain`. */
    method Trim()
      requires Core()
      modifies `slices, `view, `frontSlice
      ensures Core() && view == Trimmed(old(view))
    {
      if frontSlice == |slices| {
        slices, frontSlice, view := [], 0, Nothing;
      } else if frontSlice * 2 >= |slices| {
        CompactSlices();
      }
    }

    /** Consumes min(n, length) bytes from the front. */
    method Drain(n: nat)
      requires Valid()
      modifies `slices, `view, `frontSlice, `totalLength, Repr
      ensures Valid() && view == Drained(old(view), n)
      ensures Contents() == old(Contents())[Min(n, |old(Contents())|)..] && Pieces() == Consume(old(Pieces()), n).chunks
      ensures old(Dense()) ==> Dense()
    {
      DrainedFacts(view, n);
      var remaining := DrainSlices(n);
      totalLength := totalLength - (n - remaining);
      Trim();
    }

    /** Moves the live slices of another buffer behind its own. */
    method TakeSlices(other: Buffer)
      requires Core() && other.Core() && frontSlice == 0
      requires other != this && Repr !! other.Repr && this !in other.Repr && other !in Repr
      modifies `slices, `view, `Repr, other`slices, other`view, other`Repr, other`frontSlice
      ensures Core() && other.Core() && Repr == old(Repr + other.Repr) && other.Repr == {}
      ensures view == Moved(old(view), old(other.view)) && other.view == Nothing
    {
      var taken := other.slices[other.frontSlice..];
      MirrorsTail(other.slices, other.view, other.Repr);
      MirrorsJoin(slices, view, Repr, taken, Tail(other.view), other.Repr);
      MovedTail(view, other.view);
      slices, view, Repr := slices + taken, Moved(view, other.view), Repr + other.Repr;
      other.slices, other.frontSlice, other.view, other.Repr := [], 0, Nothing, {};
    }

    method MoveSlices(other: Buffer)
      requires Core() && other.Core()
      requires other != this && Repr !! other.Repr && this !in other.Repr && other !in Repr
      modifies `slices, `view, `frontSlice, `Repr
      modifies other`slices, other`view, other`Repr, other`frontSlice
      ensures Core() && other.Core() && Repr == old(Repr + other.Repr) && other.Repr == {}
      ensures view == Moved(old(view), old(other.view)) && other.view == Nothing
    {
      if frontSlice > 0 {
        CompactSlices();
      }
      TakeSlices(other);
    }

    /** Takes over all slices of another buffer, which is left empty. */
    method Move(other: Buffer)
      requires Valid() && other.Valid() && other != this && Repr !! other.Repr && this !in other.Repr && other !in Repr
      modifies this, other
      ensures Valid() && other.Valid() && Repr == old(Repr + other.Repr) && other.Repr == {}
      ensures view == Moved(old(view), old(other.view)) && other.view == Nothing
      ensures Pieces() == old(Pieces() + other.Pieces())
      ensures Contents() == old(Contents() + other.Contents()) && other.Contents() == []
      ensures old(Dense() && other.Dense()) ==> Dense()
    {
      MovedFacts(view, other.view);
      MoveSlices(other);
      totalLength := totalLength + other.totalLength;
      other.totalLength := 0;
    }

    /** One contiguous copy of everything readable. */
    method Linearize() returns (result: seq<Byte>)
      requires Valid()
      ensures result == Contents()
    {
      result := [];
      var i := frontSlice;
      while i < |slices|
        invariant frontSlice <= i <= |slices|
        invariant result + Flatten(view.chunks[i..]) == Contents()
      {
        var s := slices[i];
        NextChunk(result, view.chunks, i);
        result := result + s.storage[s.readPos..s.writePos];
        i := i + 1;
      }
    }
  
    /** slices().front().data(): the first live slice, a prefix of the contents. */
    method Front() returns (data: seq<Byte>)
      requires Valid() && frontSlice < |slices|
      ensures Pieces() != [] && data == Pieces()[0] && data <= Contents()
    {
      var s := slices[frontSlice];
      data := s.storage[s.readPos..s.writePos];
    }
  }

  // ---------------------------------------------------------------- whole runs

  /** Reads into reservations until everything has arrived. */
  method ReceiveAll(b: Buffer, hint: nat, data: seq<Byte>)
    requires b.Valid()
    modifies b, b.Repr
    ensures b.Valid() && fresh(b.Repr - old(b.Repr)) && b.view == Stored(old(b.view), Some(hint), data)
  {
    var rest := data;
    ghost var goal := Stored(b.view, Some(hint), data);
    while rest != []
      invariant b.Valid() && fresh(b.Repr - old(b.Repr)) && Stored(b.view, Some(hint), rest) == goal
      decreases |rest|
    {
      var n := ReceiveSome(b, hint, rest);
      rest := rest[n..];
    }
  }

  /** One read into a reservation: as many bytes as it takes. */
  method ReceiveSome(b: Buffer, hint: nat, rest: seq<Byte>) returns (n: nat)
    requires b.Valid() && rest != []
    modifies b, b.Repr
    ensures b.Valid() && fresh(b.Repr - old(b.Repr)) && 0 < n <= |rest|
    ensures Stored(b.view, Some(hint), rest[n..]) == Stored(old(b.view), Some(hint), rest)
  {
    var last := b.Reserve(hint);
    n := Min(last.Available(), |rest|);
    b.Receive(rest[..n]);
  }

  method PerformAdd(b: Buffer, data: seq<Byte>) returns (bill: Bill)
    requires b.Valid()
    modifies b, b.Repr
    ensures b.Valid() && fresh(b.Repr - old(b.Repr)) && b.view == Stored(old(b.view), None, data)
    ensures bill == Charge(old(b.view), Op.Add(data))
  {
    var had := |b.slices|;
    b.Add(data);
    bill := Bill(0, 0, |b.slices| - had);
  }

  method PerformReceive(b: Buffer, hint: nat, data: seq<Byte>) returns (bill: Bill)
    requires b.Valid()
    modifies b, b.Repr
    ensures b.Valid() && fresh(b.Repr - old(b.Repr)) && b.view == Stored(Roomy(old(b.view), hint), Some(hint), data)
    ensures bill == Charge(old(b.view), Op.Receive(hint, data))
  {
    var had := |b.slices|;
    var _ := b.Reserve(hint);
    ReceiveAll(b, hint, data);
    bill := Bill(0, 0, |b.slices| - had);
  }

  method PerformDrain(b: Buffer, n: nat) returns (bill: Bill)
    requires b.Valid()
    modifies b, b.Repr
    ensures b.Valid() && b.Repr == old(b.Repr) && b.view == Drained(old(b.view), n)
    ensures bill == Charge(old(b.view), Op.Drain(n))
  {
    var had := |b.slices|;
    b.Drain(n);
    var left := |b.slices|;
    bill := if 0 < left < had then Bill(left, had - left, 0) else Bill(0, 0, 0);
  }

  /** One operation, and its cost as an onlooker counts it from the lengths of the vector. */
  method Perform(b: Buffer, op: Op) returns (bill: Bill)
    requires b.Valid()
    modifies b, b.Repr
    ensures b.Valid() && fresh(b.Repr - old(b.Repr)) && b.view == After(old(b.view), op)
    ensures bill == Charge(old(b.view), op)
    decreases op
  {
    match op
    case Add(data) => bill := PerformAdd(b, data);
    case Receive(hint, data) => bill := PerformReceive(b, hint, data);
    case Drain(n) => bill := PerformDrain(b, n);
    case Take(ops) =>
      var other;
      other, bill := Serve(ops);
      b.Move(other);
  }

  /** Any run on a new buffer: the slices are laid out as specified, the contents are those of a plain
      queue, the cost is that of the run, and compactions are paid for by what they erase. */
  method Serve(ops: seq<Op>) returns (b: Buffer, bill: Bill)
    ensures b.Valid() && fresh(b) && fresh(b.Repr)
    ensures b.view == AfterAll(ops) && b.Contents() == ServedAll(ops)
    ensures bill == BillOf(ops) && bill.shifts <= bill.erases && bill.erases + |b.slices| <= bill.pushes
    decreases ops
  {
    b := new Buffer();
    bill := Bill(0, 0, 0);
    for i := 0 to |ops|
      invariant b.Valid() && fresh(b.Repr) && b.view == AfterAll(ops[..i]) && bill == BillOf(ops[..i])
    {
      assert ops[..i + 1][..i] == ops[..i];
      var more := Perform(b, ops[i]);
      bill := Plus(bill, more);
    }
    assert ops[..|ops|] == ops;
    RunIsQueue(ops);
    CompactionIsPaid(ops);
  }

  lemma OneReserve(hint: nat)
    ensures AfterAll([Op.Receive(hint, [])]) == Roomy(Nothing, hint)
  {
    assert [Op.Receive(hint, [])][..0] == [];
  }

  /** A new buffer on which only `reserve` has been called. */
  method Reserving(hint: nat) returns (b: Buffer)
    ensures b.Valid() && fresh(b) && fresh(b.Repr) && b.Contents() == [] && b.Pieces() == [[]]
    ensures b.slices != [] && b.slices[|b.slices| - 1].Available() == Max(hint, DEFAULT_CAPACITY)
  {
    OneReserve(hint);
    RoomyNothing(hint);
    var bill;
    b, bill := Serve([Op.Receive(hint, [])]);
    b.LastIsLive();
  }
}
