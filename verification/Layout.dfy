/** The chunked byte queue of DeepSeerLib/src/Core/Buffer.cpp on values: how the vector of slices, its
    lazy front index and the threshold compaction evolve, compared with a plain queue of bytes, and
    what the compactions cost.  The module Buffers implements this on the heap. */
module Layouts {
  import opened Wrappers

  type Byte = x: int | 0 <= x < 256

  const DEFAULT_CAPACITY: nat := 16384

  function Max(a: nat, b: nat): nat { if a < b then b else a }

  function Min(a: nat, b: nat): nat { if a < b then a else b }

  // ---------------------------------------------------------------- flattening chunks

  function Flatten(chunks: seq<seq<Byte>>): seq<Byte> {
    if chunks == [] then [] else chunks[0] + Flatten(chunks[1..])
  }

  lemma {:induction false} FlattenAppend(a: seq<seq<Byte>>, b: seq<seq<Byte>>)
    ensures Flatten(a + b) == Flatten(a) + Flatten(b)
  {
    if a == [] {
      assert a + b == b;
    } else {
      assert (a + b)[1..] == a[1..] + b;
      FlattenAppend(a[1..], b);
    }
  }

  /** No chunk is empty. */
  predicate Solid(cs: seq<seq<Byte>>) { forall i :: 0 <= i < |cs| ==> cs[i] != [] }

  /** What `drain` leaves: the live chunks, and the bytes it could not consume. */
  datatype Leftover = Leftover(chunks: seq<seq<Byte>>, remaining: nat)

  /** Consuming n bytes: emptied chunks are dropped as long as bytes remain to be consumed, an empty
      one is not dropped on its own. */
  function Consume(cs: seq<seq<Byte>>, n: nat): (r: Leftover)
    ensures |r.chunks| <= |cs|
  {
    if n == 0 || cs == [] then Leftover(cs, n)
    else if n < |cs[0]| then Leftover([cs[0][n..]] + cs[1..], 0)
    else Consume(cs[1..], n - |cs[0]|)
  }

  /** Consuming chunks consumes the front of the whole; what is not there remains. */
  lemma {:induction false} ConsumeFlatten(cs: seq<seq<Byte>>, n: nat)
    ensures Flatten(Consume(cs, n).chunks) == Flatten(cs)[Min(n, |Flatten(cs)|)..]
    ensures Consume(cs, n).remaining == n - Min(n, |Flatten(cs)|)
  {
    if n > 0 && cs != [] {
      if n < |cs[0]| {
        assert Consume(cs, n).chunks[1..] == cs[1..];
      } else {
        ConsumeFlatten(cs[1..], n - |cs[0]|);
      }
    }
  }

  lemma {:induction false} ConsumeSolid(cs: seq<seq<Byte>>, n: nat)
    requires Solid(cs)
    ensures Solid(Consume(cs, n).chunks)
  {
    if n > 0 && cs != [] && n >= |cs[0]| {
      ConsumeSolid(cs[1..], n - |cs[0]|);
    }
  }

  /** An empty chunk with bytes behind it. */
  predicate GapIn(cs: seq<seq<Byte>>) {
    exists i, j :: 0 <= i < j < |cs| && cs[i] == [] && cs[j] != []
  }

  lemma {:induction false} FlattenEmpty(cs: seq<seq<Byte>>)
    ensures Flatten(cs) == [] <==> forall i :: 0 <= i < |cs| ==> cs[i] == []
  {
    if cs != [] {
      FlattenEmpty(cs[1..]);
      assert forall i :: 0 < i < |cs| ==> cs[i] == cs[1..][i - 1];
      assert forall i :: 0 <= i < |cs| - 1 ==> cs[1..][i] == cs[i + 1];
    }
  }

  /** An empty front with bytes waiting is a gap, and a gap means that bytes wait. */
  lemma GapFacts(cs: seq<seq<Byte>>)
    ensures cs != [] && cs[0] == [] && Flatten(cs) != [] ==> GapIn(cs)
    ensures GapIn(cs) ==> Flatten(cs) != []
  {
    FlattenEmpty(cs);
  }

  /** Consuming from a non-empty front chunk, and no further, neither opens nor closes a gap. */
  lemma GapConsume(cs: seq<seq<Byte>>, n: nat)
    requires cs != [] && 0 < n <= |cs[0]|
    ensures GapIn(Consume(cs, n).chunks) <==> GapIn(cs)
  {
    var next := Consume(cs, n).chunks;
    if n < |cs[0]| {
      assert |next| == |cs| && next[0] != [] && forall i :: 0 < i < |cs| ==> next[i] == cs[i];
    } else {
      assert Consume(cs[1..], 0).chunks == cs[1..];
      assert forall i :: 0 <= i < |next| ==> next[i] == cs[i + 1];
      if GapIn(cs) {
        var i, j :| 0 <= i < j < |cs| && cs[i] == [] && cs[j] != [];
        assert next[i - 1] == [] && next[j - 1] != [];
      }
      if GapIn(next) {
        var i, j :| 0 <= i < j < |next| && next[i] == [] && next[j] != [];
        assert cs[i + 1] == [] && cs[j + 1] != [];
      }
    }
  }

  // ---------------------------------------------------------------- layouts

  datatype RawLayout = Layout(
    chunks: seq<seq<Byte>>,      // the readable data of every slice
    rooms: seq<nat>,             // how many bytes each of them could still take
    front: nat)                  // the first live slice

  type Layout = l: RawLayout | |l.rooms| == |l.chunks| && l.front <= |l.chunks| witness Layout([], [], 0)

  const Nothing: Layout := Layout([], [], 0)

  /** The length of the vector. */
  function Slices(l: Layout): nat { |l.chunks| }

  /** The data of the live slices. */
  function Live(l: Layout): seq<seq<Byte>> { l.chunks[l.front..] }

  /** The front index stays below half of the vector. */
  predicate Balanced(l: Layout) { l.front == 0 || 2 * l.front < Slices(l) }

  /** What the last live slice could still take. */
  function Room(l: Layout): nat {
    if l.front == |l.rooms| then 0 else l.rooms[|l.rooms| - 1]
  }

  /** The test `add` and `reserve` share: a new slice when the last one is full or missing. */
  function Roomy(l: Layout, hint: nat): (r: Layout)
    ensures r.front < |r.chunks| && Room(r) > 0
  {
    if Room(l) == 0 then Layout(l.chunks + [[]], l.rooms + [Max(hint, DEFAULT_CAPACITY)], l.front) else l
  }

  /** Bytes put at the end of the last slice. */
  function Fill(l: Layout, data: seq<Byte>): Layout
    requires l.front < |l.chunks| && |data| <= Room(l)
  {
    var k := |l.chunks| - 1;
    Layout(l.chunks[k := l.chunks[k] + data], l.rooms[k := l.rooms[k] - |data|], l.front)
  }

  /** Bytes stored slice by slice; `add` asks for slices as long as what remains, a reader for a fixed
      hint. */
  function Stored(l: Layout, hint: Option<nat>, data: seq<Byte>): Layout
    decreases |data|
  {
    if data == [] then l
    else
      var r := Roomy(l, if hint.Some? then hint.value else |data|);
      var n := Min(Room(r), |data|);
      Stored(Fill(r, data[..n]), hint, data[n..])
  }

  /** One round of the loop of `drain`: t bytes from the first live slice, which goes if that was all. */
  function Bitten(l: Layout, t: nat): Layout
    requires l.front < |l.chunks| && t <= |l.chunks[l.front]|
  {
    Layout(l.chunks[l.front := l.chunks[l.front][t..]], l.rooms,
           if t == |l.chunks[l.front]| then l.front + 1 else l.front)
  }

  /** What the loop of `drain` leaves, and the bytes it could not consume. */
  datatype Meal = Meal(left: Layout, remaining: nat)

  /** The loop of `drain`. */
  function Eaten(l: Layout, n: nat): (m: Meal)
    ensures |m.left.chunks| == |l.chunks|
    decreases n + |l.chunks| - l.front
  {
    if n == 0 || l.front == |l.chunks| then Meal(l, n)
    else
      var t := Min(n, |l.chunks[l.front]|);
      Eaten(Bitten(l, t), n - t)
  }

  /** The clean-up at its end. */
  function Trimmed(l: Layout): Layout {
    if l.front == |l.chunks| then Nothing
    else if 2 * l.front >= Slices(l) then Layout(l.chunks[l.front..], l.rooms[l.front..], 0)
    else l
  }

  function Drained(l: Layout, n: nat): Layout { Trimmed(Eaten(l, n).left) }

  function Moved(l: Layout, other: Layout): Layout {
    Layout(Live(l) + Live(other), l.rooms[l.front..] + other.rooms[other.front..], 0)
  }

  lemma RoomyLive(l: Layout, hint: nat)
    ensures Live(Roomy(l, hint)) == Live(l) + if Room(l) == 0 then [[]] else []
  {
    if Room(l) == 0 { assert (l.chunks + [[]])[l.front..] == Live(l) + [[]]; }
  }

  lemma RoomyFacts(l: Layout, hint: nat)
    ensures Flatten(Live(Roomy(l, hint))) == Flatten(Live(l))
    ensures Balanced(l) ==> Balanced(Roomy(l, hint))
  {
    RoomyLive(l, hint);
    FlattenAppend(Live(l), [[]]);
  }

  lemma RoomyNothing(hint: nat)
    ensures Roomy(Nothing, hint) == Layout([[]], [Max(hint, DEFAULT_CAPACITY)], 0)
    ensures Live(Roomy(Nothing, hint)) == [[]] && Room(Roomy(Nothing, hint)) == Max(hint, DEFAULT_CAPACITY)
  {
  }


  lemma FillLive(l: Layout, data: seq<Byte>)
    requires l.front < |l.chunks| && |data| <= Room(l)
    ensures var k := |Live(l)| - 1; Live(Fill(l, data)) == Live(l)[k := Live(l)[k] + data]
  {
  }

  lemma FillFacts(l: Layout, data: seq<Byte>)
    requires l.front < |l.chunks| && |data| <= Room(l)
    ensures Flatten(Live(Fill(l, data))) == Flatten(Live(l)) + data
    ensures Balanced(l) ==> Balanced(Fill(l, data))
  {
    var a, k := Live(l), |Live(l)| - 1;
    FillLive(l, data);
    assert Live(Fill(l, data)) == a[..k] + [a[k] + data];
    FlattenAppend(a[..k], [a[k]]);
    FlattenAppend(a[..k], [a[k] + data]);
    assert a == a[..k] + [a[k]];
    assert Flatten([a[k]]) == a[k] && Flatten([a[k] + data]) == a[k] + data;
  }

  /** No chunk is empty except possibly the last, freshly reserved one. */
  predicate SolidButLast(cs: seq<seq<Byte>>) { forall i :: 0 <= i < |cs| - 1 ==> cs[i] != [] }

  lemma RoomySolid(l: Layout, hint: nat)
    requires Solid(Live(l))
    ensures SolidButLast(Live(Roomy(l, hint)))
  {
    RoomyLive(l, hint);
  }

  /** Filling the last slice with something makes a reserved slice count. */
  lemma FillSolid(l: Layout, data: seq<Byte>)
    requires l.front < |l.chunks| && |data| <= Room(l)
    requires Solid(Live(l)) || (SolidButLast(Live(l)) && data != [])
    ensures Solid(Live(Fill(l, data)))
  {
    FillLive(l, data);
  }

  lemma Regroup(a: seq<Byte>, b: seq<Byte>, n: nat)
    requires n <= |b|
    ensures (a + b[..n]) + b[n..] == a + b
  {
    assert b == b[..n] + b[n..];
  }

  /** Storing appends to the whole, only ever adds slices, and leaves no new one empty. */
  lemma {:induction false} StoredFacts(l: Layout, hint: Option<nat>, data: seq<Byte>)
    ensures var r := Stored(l, hint, data);
            && Flatten(Live(r)) == Flatten(Live(l)) + data
            && (Balanced(l) ==> Balanced(r))
            && (Solid(Live(l)) ==> Solid(Live(r)))
    decreases |data|
  {
    if data != [] {
      var room := if hint.Some? then hint.value else |data|;
      var r := Roomy(l, room);
      var n := Min(Room(r), |data|);
      RoomyFacts(l, room);
      FillFacts(r, data[..n]);
      if Solid(Live(l)) {
        RoomySolid(l, room);
        FillSolid(r, data[..n]);
      }
      StoredFacts(Fill(r, data[..n]), hint, data[n..]);
      Regroup(Flatten(Live(l)), data, n);
    }
  }

  lemma BittenLive(l: Layout, t: nat)
    requires l.front < |l.chunks| && t <= |l.chunks[l.front]|
    ensures Live(l)[0] == l.chunks[l.front]
    ensures Live(Bitten(l, t)) == if t == |Live(l)[0]| then Live(l)[1..] else [Live(l)[0][t..]] + Live(l)[1..]
  {
    if t == |Live(l)[0]| { assert Live(Bitten(l, t)) == Live(l)[1..]; }
    else { assert Live(Bitten(l, t)) == [Live(l)[0][t..]] + Live(l)[1..]; }
  }

  /** Draining slice by slice is consuming the live chunks. */
  lemma {:induction false} EatenLive(l: Layout, n: nat)
    ensures Live(Eaten(l, n).left) == Consume(Live(l), n).chunks
    ensures Eaten(l, n).remaining == Consume(Live(l), n).remaining
    decreases n + |l.chunks| - l.front
  {
    if n > 0 && l.front < |l.chunks| {
      var t := Min(n, |l.chunks[l.front]|);
      BittenLive(l, t);
      EatenLive(Bitten(l, t), n - t);
    }
  }

  lemma StoresInOne(l: Layout, data: seq<Byte>)
    requires data != [] && (Room(l) == 0 || |data| <= Room(l))
    ensures Slices(Stored(l, None, data)) == Slices(l) + if Room(l) == 0 then 1 else 0
  {
    var r := Roomy(l, |data|);
    assert Room(r) >= |data| && Min(Room(r), |data|) == |data|;
    assert data[|data|..] == [];
    assert Stored(l, None, data) == Stored(Fill(r, data[..|data|]), None, []);
  }

  /** `add` sizes a new slice for all that remains: it never creates more than one. */
  lemma AddCreatesAtMostOne(l: Layout, data: seq<Byte>)
    ensures Slices(l) <= Slices(Stored(l, None, data)) <= Slices(l) + 1
    ensures |data| <= Room(l) ==> Slices(Stored(l, None, data)) == Slices(l)
  {
    if data != [] {
      if Room(l) == 0 || |data| <= Room(l) {
        StoresInOne(l, data);
      } else {
        // the last slice has room, but not enough: the next one takes the rest
        var n := Room(l);
        var f := Fill(l, data[..n]);
        assert Stored(l, None, data) == Stored(f, None, data[n..]);
        StoresInOne(f, data[n..]);
      }
    }
  }

  lemma DrainedFacts(l: Layout, n: nat)
    ensures Live(Drained(l, n)) == Consume(Live(l), n).chunks && Balanced(Drained(l, n))
    ensures Flatten(Live(Drained(l, n))) == Flatten(Live(l))[Min(n, |Flatten(Live(l))|)..]
    ensures Eaten(l, n).remaining == n - Min(n, |Flatten(Live(l))|)
    ensures Solid(Live(l)) ==> Solid(Live(Drained(l, n)))
  {
    EatenLive(l, n);
    ConsumeFlatten(Live(l), n);
    if Solid(Live(l)) { ConsumeSolid(Live(l), n); }
    var e := Eaten(l, n).left;
    assert e.chunks[e.front..][0..] == e.chunks[e.front..];
  }

  lemma MovedFacts(l: Layout, other: Layout)
    ensures Live(Moved(l, other)) == Live(l) + Live(other) && Balanced(Moved(l, other))
    ensures Flatten(Live(Moved(l, other))) == Flatten(Live(l)) + Flatten(Live(other))
    ensures Solid(Live(l)) && Solid(Live(other)) ==> Solid(Live(Moved(l, other)))
  {
    assert Live(Moved(l, other)) == Live(l) + Live(other);
    FlattenAppend(Live(l), Live(other));
  }

  // ---------------------------------------------------------------- whole runs

  /** What a user of a buffer does: add bytes, receive bytes through reservations (possibly none), take
      over another buffer that had a run of its own, or consume. */
  datatype Op = Add(data: seq<Byte>) | Receive(hint: nat, data: seq<Byte>) | Take(ops: seq<Op>) | Drain(n: nat)

  /** A run on a plain queue of bytes. */
  function Served(queue: seq<Byte>, op: Op): seq<Byte>
    decreases op
  {
    match op
    case Add(data) => queue + data
    case Receive(_, data) => queue + data
    case Take(ops) => queue + ServedAll(ops)
    case Drain(n) => queue[Min(n, |queue|)..]
  }

  function ServedAll(ops: seq<Op>): seq<Byte>
    decreases ops
  {
    if ops == [] then [] else Served(ServedAll(ops[..|ops| - 1]), ops[|ops| - 1])
  }

  /** The same run on the slices. */
  function After(l: Layout, op: Op): Layout
    decreases op
  {
    match op
    case Add(data) => Stored(l, None, data)
    case Receive(hint, data) => Stored(Roomy(l, hint), Some(hint), data)
    case Take(ops) => Moved(l, AfterAll(ops))
    case Drain(n) => Drained(l, n)
  }

  function AfterAll(ops: seq<Op>): Layout
    decreases ops
  {
    if ops == [] then Nothing else After(AfterAll(ops[..|ops| - 1]), ops[|ops| - 1])
  }

  /** After any run the slices hold what the queue holds and the front index is below half. */
  lemma {:induction false} RunIsQueue(ops: seq<Op>)
    ensures Flatten(Live(AfterAll(ops))) == ServedAll(ops) && Balanced(AfterAll(ops))
    decreases ops
  {
    if ops != [] {
      var before, op := ops[..|ops| - 1], ops[|ops| - 1];
      var l := AfterAll(before);
      RunIsQueue(before);
      match op
      case Add(data) => StoredFacts(l, None, data);
      case Receive(hint, data) =>
        RoomyFacts(l, hint);
        StoredFacts(Roomy(l, hint), Some(hint), data);
      case Take(others) =>
        RunIsQueue(others);
        MovedFacts(l, AfterAll(others));
      case Drain(n) => DrainedFacts(l, n);
    }
  }

  /** Every reservation of the run was followed by a commit of at least one byte, in the buffers taken
      over as well. */
  predicate AllCommitted(ops: seq<Op>)
    decreases ops
  {
    forall i :: 0 <= i < |ops| ==> Committed(ops[i])
  }

  predicate Committed(op: Op)
    decreases op
  {
    match op
    case Receive(_, data) => data != []
    case Take(ops) => AllCommitted(ops)
    case _ => true
  }

  /** A read that delivers something stores like an `add` with its own hint. */
  lemma ReceiveIsStore(l: Layout, hint: nat, data: seq<Byte>)
    requires data != []
    ensures Stored(Roomy(l, hint), Some(hint), data) == Stored(l, Some(hint), data)
  {
    assert Roomy(Roomy(l, hint), hint) == Roomy(l, hint);
  }

  /** Flush progress, the half a caller controls: a buffer built only by add, commits of at least one
      byte, drain and move never has an empty live slice. */
  lemma {:induction false} CommittedIsSolid(ops: seq<Op>)
    requires AllCommitted(ops)
    ensures Solid(Live(AfterAll(ops)))
    decreases ops
  {
    if ops != [] {
      var before, op := ops[..|ops| - 1], ops[|ops| - 1];
      var l := AfterAll(before);
      assert Committed(op);
      CommittedIsSolid(before);
      match op
      case Add(data) => StoredFacts(l, None, data);
      case Receive(hint, data) =>
        ReceiveIsStore(l, hint, data);
        StoredFacts(l, Some(hint), data);
      case Take(others) =>
        CommittedIsSolid(others);
        MovedFacts(l, AfterAll(others));
      case Drain(n) => DrainedFacts(l, n);
    }
  }

  /** Slices moved down by compactions inside `drain`, slices erased by them, slices created. */
  datatype Bill = Bill(shifts: int, erases: int, pushes: int)

  function Plus(a: Bill, b: Bill): Bill { Bill(a.shifts + b.shifts, a.erases + b.erases, a.pushes + b.pushes) }

  /** What one step costs: a compaction in `drain` shows as a vector that is shorter but not empty.
      Taking over a buffer brings in what its own run cost. */
  function Charge(l: Layout, op: Op): Bill
    decreases op
  {
    match op
    case Take(ops) => BillOf(ops)
    case Drain(n) =>
      var left, had := Slices(Drained(l, n)), Slices(l);
      if 0 < left < had then Bill(left, had - left, 0) else Bill(0, 0, 0)
    case _ => Bill(0, 0, Slices(After(l, op)) - Slices(l))
  }

  function BillOf(ops: seq<Op>): Bill
    decreases ops
  {
    if ops == [] then Bill(0, 0, 0)
    else
      var before, op := ops[..|ops| - 1], ops[|ops| - 1];
      Plus(BillOf(before), Charge(AfterAll(before), op))
  }

  /** The charge said outright: a drain that leaves live slices behind at least as many consumed ones
      erases the consumed and moves the live ones; no other drain moves or erases anything. */
  lemma DrainCharge(l: Layout, n: nat)
    ensures var e := Eaten(l, n).left;
            Charge(l, Drain(n)) ==
            if Live(e) != [] && e.front > 0 && e.front >= |Live(e)| then Bill(|Live(e)|, e.front, 0) else Bill(0, 0, 0)
  {
  }

  lemma DrainIsPaid(l: Layout, n: nat)
    ensures Slices(Drained(l, n)) <= Slices(l)
    ensures 0 < Slices(Drained(l, n)) < Slices(l) ==> 2 * Slices(Drained(l, n)) <= Slices(l)
  {
  }

  /** Amortised compaction: over any run, the slices moved by compactions inside `drain` are at most
      those they erase, and those together with the slices left are at most the slices created. */
  lemma {:induction false} CompactionIsPaid(ops: seq<Op>)
    ensures var b := BillOf(ops);
            0 <= b.shifts <= b.erases && b.erases + Slices(AfterAll(ops)) <= b.pushes
    decreases ops
  {
    if ops != [] {
      var before, op := ops[..|ops| - 1], ops[|ops| - 1];
      CompactionIsPaid(before);
      match op
      case Take(others) => CompactionIsPaid(others);
      case Drain(n) => DrainIsPaid(AfterAll(before), n);
      case _ =>
    }
  }
}
