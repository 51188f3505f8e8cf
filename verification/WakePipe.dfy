/** The cross-thread `post`/`stop` protocol of KqueueLoop (DeepSeerLib/src/Event/KqueueLoop.cpp)
    as a step system: any number of threads push callbacks (or clear `running_`) and then write one
    byte to a bounded, non-blocking pipe; the loop thread sleeps in kevent, drains the pipe, swaps
    the callback vector out and runs it.  The kernel is nondeterministic: it may return any batch of
    at most 64 events, reports the pipe only while it holds a byte, may be interrupted or fail, and
    drops a wake byte when the pipe is full. */
module WakePipe {

  datatype Callback = Callback(id: int)

  datatype Event = Wake | Other

  datatype CallerPc =
    | Quiet
    | WakeAfterPost              // pushed, lock released, wake() still to come
    | WakeAfterStop              // running_ cleared, wake() still to come

  datatype LoopPc =
    | Checking                   // about to test running_
    | Blocked                    // inside kevent
    | Dispatching(batch: seq<Event>)
    | Draining(batch: seq<Event>)
    | Swapping(batch: seq<Event>)
    | Calling(cbs: seq<Callback>, batch: seq<Event>)
    | Done

  datatype State = State(
    capacity: nat,               // of the pipe
    pipe: nat,                   // bytes in the pipe
    running: bool,
    posted: seq<Callback>,
    callers: seq<CallerPc>,
    loop: LoopPc,
    pushed: seq<Callback>,       // history: callbacks in the order they were pushed
    executed: seq<Callback>)     // history: callbacks in the order they were run

  const MAX_EVENTS := 64
  const DRAIN_CHUNK := 64

  datatype Action =
    | Post(i: nat, cb: Callback)
    | Stop(i: nat)
    | WriteByte(i: nat)
    | Check
    | KeventReturn(events: seq<Event>)
    | KeventInterrupted
    | KeventFailed
    | DispatchOther
    | DispatchWake
    | DrainRead(n: nat)
    | DrainEmpty
    | Swap
    | Call
    | CallsDone
    | BatchDone

  /** A loop whose `run` has just set running_. */
  function Init(capacity: nat, threads: nat): State {
    State(capacity, 0, true, [], seq(threads, _ => Quiet), Checking, [], [])
  }

  predicate GoodBatch(s: State, events: seq<Event>) {
    && 0 < |events| <= MAX_EVENTS
    && (Wake in events ==> s.pipe > 0)
    && forall i, j :: 0 <= i < j < |events| ==> !(events[i].Wake? && events[j].Wake?)
  }

  predicate Enabled(s: State, a: Action) {
    match a
    case Post(i, _) => i < |s.callers| && s.callers[i].Quiet?
    case Stop(i) => i < |s.callers| && s.callers[i].Quiet?
    case WriteByte(i) => i < |s.callers| && !s.callers[i].Quiet?
    case Check => s.loop.Checking?
    case KeventReturn(events) => s.loop.Blocked? && GoodBatch(s, events)
    case KeventInterrupted => s.loop.Blocked?
    case KeventFailed => s.loop.Blocked?
    case DispatchOther => s.loop.Dispatching? && s.loop.batch != [] && s.loop.batch[0].Other?
    case DispatchWake => s.loop.Dispatching? && s.loop.batch != [] && s.loop.batch[0].Wake?
    case DrainRead(n) => s.loop.Draining? && 0 < n <= s.pipe && n <= DRAIN_CHUNK
    case DrainEmpty => s.loop.Draining? && s.pipe == 0
    case Swap => s.loop.Swapping?
    case Call => s.loop.Calling? && s.loop.cbs != []
    case CallsDone => s.loop.Calling? && s.loop.cbs == []
    case BatchDone => s.loop.Dispatching? && s.loop.batch == []
  }

  function Apply(s: State, a: Action): State
    requires Enabled(s, a)
  {
    match a
    case Post(i, cb) =>
      s.(callers := s.callers[i := WakeAfterPost], posted := s.posted + [cb], pushed := s.pushed + [cb])
    case Stop(i) => s.(callers := s.callers[i := WakeAfterStop], running := false)
    case WriteByte(i) =>
      s.(callers := s.callers[i := Quiet], pipe := if s.pipe < s.capacity then s.pipe + 1 else s.pipe)
    case Check => s.(loop := if s.running then Blocked else Done)
    case KeventReturn(events) => s.(loop := Dispatching(events))
    case KeventInterrupted => s.(loop := Checking)
    case KeventFailed => s.(loop := Done)
    case DispatchOther => s.(loop := Dispatching(s.loop.batch[1..]))
    case DispatchWake => s.(loop := Draining(s.loop.batch[1..]))
    case DrainRead(n) => s.(pipe := s.pipe - n)
    case DrainEmpty => s.(loop := Swapping(s.loop.batch))
    case Swap => s.(loop := Calling(s.posted, s.loop.batch), posted := [])
    case Call =>
      s.(loop := Calling(s.loop.cbs[1..], s.loop.batch), executed := s.executed + [s.loop.cbs[0]])
    case CallsDone => s.(loop := Dispatching(s.loop.batch))
    case BatchDone => s.(loop := Checking)
  }

  predicate Legal(s: State, acts: seq<Action>)
    decreases |acts|
  {
    acts == [] || (Enabled(s, acts[0]) && Legal(Apply(s, acts[0]), acts[1..]))
  }

  function Exec(s: State, acts: seq<Action>): State
    requires Legal(s, acts)
    decreases |acts|
  {
    if acts == [] then s else Exec(Apply(s, acts[0]), acts[1..])
  }

  // ---------------------------------------------------------------- invariant

  /** The callbacks swapped out and not yet run. */
  function Remaining(l: LoopPc): seq<Callback> {
    if l.Calling? then l.cbs else []
  }

  predicate Fifo(s: State) {
    s.pushed == s.executed + Remaining(s.loop) + s.posted
  }

  /** A pushed callback is always announced: a byte in the pipe, a poster on its way to wake(), or
      the loop already past the drain on its way to the swap. */
  predicate NoLostPost(s: State) {
    s.posted != [] ==>
      || s.pipe > 0
      || (exists i :: 0 <= i < |s.callers| && s.callers[i].WakeAfterPost?)
      || s.loop.Draining? || s.loop.Swapping?
  }

  /** A loop asleep after `stop` cleared the flag is about to be woken. */
  predicate NoLostStop(s: State) {
    !s.running && s.loop.Blocked? ==>
      s.pipe > 0 || exists i :: 0 <= i < |s.callers| && s.callers[i].WakeAfterStop?
  }

  /** A reported wake event is genuine: nobody but the loop empties the pipe. */
  predicate WakeGenuine(s: State) {
    && (s.loop.Dispatching? ==> (Wake in s.loop.batch ==> s.pipe > 0) && |s.loop.batch| <= MAX_EVENTS)
    && (s.loop.Draining? || s.loop.Swapping? || s.loop.Calling? ==> Wake !in s.loop.batch && |s.loop.batch| < MAX_EVENTS)
    && (s.loop.Dispatching? ==>
          forall i, j :: 0 <= i < j < |s.loop.batch| ==> !(s.loop.batch[i].Wake? && s.loop.batch[j].Wake?))
  }

  predicate Inv(s: State) {
    s.capacity >= 1 && s.pipe <= s.capacity && Fifo(s) && NoLostPost(s) && NoLostStop(s) && WakeGenuine(s)
  }

  lemma StepKeepsFifo(s: State, a: Action)
    requires Inv(s) && Enabled(s, a)
    ensures Fifo(Apply(s, a))
  {
    if a.Call? { assert s.loop.cbs == [s.loop.cbs[0]] + s.loop.cbs[1..]; }
  }

  lemma StepLosesNoPost(s: State, a: Action)
    requires Inv(s) && Enabled(s, a)
    ensures NoLostPost(Apply(s, a))
  {
    var t := Apply(s, a);
    if a.Post? {
      assert t.callers[a.i].WakeAfterPost?;
    } else if t.posted != [] && t.pipe == 0 && !t.loop.Draining? && !t.loop.Swapping? {
      var i :| 0 <= i < |s.callers| && s.callers[i].WakeAfterPost?;
      assert t.callers[i] == s.callers[i];
    }
  }

  lemma StepLosesNoStop(s: State, a: Action)
    requires Inv(s) && Enabled(s, a)
    ensures NoLostStop(Apply(s, a))
  {
    var t := Apply(s, a);
    if a.Stop? {
      assert t.callers[a.i].WakeAfterStop?;
    } else if !t.running && t.loop.Blocked? && t.pipe == 0 {
      var i :| 0 <= i < |s.callers| && s.callers[i].WakeAfterStop?;
      assert t.callers[i] == s.callers[i];
    }
  }

  lemma StepKeepsGenuine(s: State, a: Action)
    requires Inv(s) && Enabled(s, a)
    ensures WakeGenuine(Apply(s, a))
  {
    if s.loop.Dispatching? && s.loop.batch != [] {
      assert s.loop.batch == [s.loop.batch[0]] + s.loop.batch[1..];
    }
  }

  lemma StepKeepsInv(s: State, a: Action)
    requires Inv(s) && Enabled(s, a)
    ensures Inv(Apply(s, a))
  {
    StepKeepsFifo(s, a);
    StepLosesNoPost(s, a);
    StepLosesNoStop(s, a);
    StepKeepsGenuine(s, a);
  }

  lemma {:induction false} RunKeepsInv(s: State, acts: seq<Action>)
    requires Inv(s) && Legal(s, acts)
    ensures Inv(Exec(s, acts))
    decreases |acts|
  {
    if acts != [] {
      StepKeepsInv(s, acts[0]);
      RunKeepsInv(Apply(s, acts[0]), acts[1..]);
    }
  }

  // ---------------------------------------------------------------- what the calls asked for

  /** The callbacks passed to post, in order. */
  function Posted(acts: seq<Action>): seq<Callback> {
    if acts == [] then [] else (if acts[0].Post? then [acts[0].cb] else []) + Posted(acts[1..])
  }

  predicate Stopped(acts: seq<Action>) { exists i :: 0 <= i < |acts| && acts[i].Stop? }

  predicate KernelFailed(acts: seq<Action>) { exists i :: 0 <= i < |acts| && acts[i].KeventFailed? }

  lemma FirstOrLater(acts: seq<Action>)
    requires acts != []
    ensures Stopped(acts) <==> acts[0].Stop? || Stopped(acts[1..])
    ensures KernelFailed(acts) <==> acts[0].KeventFailed? || KernelFailed(acts[1..])
  {
    assert forall i :: 0 < i < |acts| ==> acts[i] == acts[1..][i - 1];
    assert forall i :: 0 <= i < |acts| - 1 ==> acts[1..][i] == acts[i + 1];
  }

  lemma StepPushes(s: State, a: Action)
    requires Enabled(s, a)
    ensures Apply(s, a).pushed == s.pushed + if a.Post? then [a.cb] else []
  {
  }

  lemma Associate(a: seq<Callback>, b: seq<Callback>, c: seq<Callback>)
    ensures (a + b) + c == a + (b + c)
  {
  }

  /** A run pushes exactly the callbacks of its posts, in order. */
  lemma {:induction false} RunPushesPosts(s: State, acts: seq<Action>)
    requires Legal(s, acts)
    ensures Exec(s, acts).pushed == s.pushed + Posted(acts)
    decreases |acts|
  {
    if acts != [] {
      StepPushes(s, acts[0]);
      RunPushesPosts(Apply(s, acts[0]), acts[1..]);
      Associate(s.pushed, if acts[0].Post? then [acts[0].cb] else [], Posted(acts[1..]));
    }
  }

  /** A run clears the flag exactly if it has a stop. */
  lemma {:induction false} RunStops(s: State, acts: seq<Action>)
    requires Legal(s, acts)
    ensures Exec(s, acts).running <==> s.running && !Stopped(acts)
    decreases |acts|
  {
    if acts != [] {
      FirstOrLater(acts);
      RunStops(Apply(s, acts[0]), acts[1..]);
    }
  }

  /** A run leaves the loop only after a stop or a failure of the kernel, and after the latter always. */
  lemma {:induction false} RunReturns(s: State, acts: seq<Action>)
    requires Legal(s, acts)
    ensures Exec(s, acts).loop.Done? && !s.loop.Done? ==> !Exec(s, acts).running || KernelFailed(acts)
    ensures s.loop.Done? || KernelFailed(acts) ==> Exec(s, acts).loop.Done?
    decreases |acts|
  {
    if acts != [] {
      FirstOrLater(acts);
      RunReturns(Apply(s, acts[0]), acts[1..]);
      RunStops(Apply(s, acts[0]), acts[1..]);
    }
  }

  lemma RunDoesAsTold(s: State, acts: seq<Action>)
    requires Legal(s, acts)
    ensures var t := Exec(s, acts);
            && t.pushed == s.pushed + Posted(acts)
            && (t.running <==> s.running && !Stopped(acts))
            && (t.loop.Done? && !s.loop.Done? ==> !t.running || KernelFailed(acts))
            && (s.loop.Done? || KernelFailed(acts) ==> t.loop.Done?)
  {
    RunPushesPosts(s, acts);
    RunStops(s, acts);
    RunReturns(s, acts);
  }

  // ---------------------------------------------------------------- safety of every run

  /** In every run, full pipes and dropped wake bytes included: no post is lost, no stop is lost,
      and what has run is a prefix of what was pushed, each callback at most once. */
  lemma PostsAreKept(capacity: nat, threads: nat, acts: seq<Action>)
    requires capacity >= 1 && Legal(Init(capacity, threads), acts)
    ensures var s := Exec(Init(capacity, threads), acts);
            && NoLostPost(s) && NoLostStop(s)
            && s.executed <= s.pushed
            && Posted(acts) == s.pushed == s.executed + Remaining(s.loop) + s.posted
            && (s.running <==> !Stopped(acts))
            && (s.loop.Done? ==> Stopped(acts) || KernelFailed(acts)) && (KernelFailed(acts) ==> s.loop.Done?)
  {
    RunKeepsInv(Init(capacity, threads), acts);
    RunDoesAsTold(Init(capacity, threads), acts);
    assert [] + Posted(acts) == Posted(acts);
  }

  predicate AllQuiet(s: State) { forall i :: 0 <= i < |s.callers| ==> s.callers[i].Quiet? }

  /** The loop never sleeps on work: blocked in kevent with an empty pipe and no call in progress,
      it has run everything that was ever posted and has not been stopped. */
  lemma NeverSleepsOnWork(capacity: nat, threads: nat, acts: seq<Action>)
    requires capacity >= 1 && Legal(Init(capacity, threads), acts)
    ensures var s := Exec(Init(capacity, threads), acts);
            s.loop.Blocked? && s.pipe == 0 && AllQuiet(s) ==> s.executed == Posted(acts) && !Stopped(acts)
  {
    RunKeepsInv(Init(capacity, threads), acts);
    RunDoesAsTold(Init(capacity, threads), acts);
    assert [] + Posted(acts) == Posted(acts);
  }

  // ---------------------------------------------------------------- progress

  /** Steps of calls in progress and of the loop, the kernel reporting the wake pipe when it
      reports anything: no new call, no interruption, no failure, no batch without the pipe. */
  predicate Internal(a: Action) {
    && !a.Post? && !a.Stop? && !a.KeventInterrupted? && !a.KeventFailed?
    && (a.KeventReturn? ==> Wake in a.events)
  }

  function CallerWork(pcs: seq<CallerPc>): nat {
    if pcs == [] then 0 else (if pcs[0].Quiet? then 0 else 500) + CallerWork(pcs[1..])
  }

  function LoopWork(l: LoopPc): nat {
    match l
    case Done => 0
    case Blocked => 1
    case Checking => 2
    case Dispatching(b) => 3 + 5 * |b|
    case Calling(cbs, b) => 4 + 5 * |b| + |cbs|
    case Swapping(b) => 5 + 5 * |b|
    case Draining(b) => 6 + 5 * |b|
  }

  /** The pipe is being attended to: its event is in the batch, or the drain is under way. */
  predicate Attended(l: LoopPc) {
    l.Draining? || (l.Dispatching? && Wake in l.batch)
  }

  function Work(s: State): nat {
    CallerWork(s.callers) + LoopWork(s.loop) + |s.posted|
    + s.pipe + (if s.pipe > 0 && !Attended(s.loop) then 400 else 0)
  }

  lemma {:induction false} CallerWorkUpdate(pcs: seq<CallerPc>, i: nat)
    requires i < |pcs| && !pcs[i].Quiet?
    ensures CallerWork(pcs[i := Quiet]) == CallerWork(pcs) - 500
  {
    if i == 0 {
      assert pcs[i := Quiet][1..] == pcs[1..];
    } else {
      assert pcs[i := Quiet][1..] == pcs[1..][i - 1 := Quiet];
      CallerWorkUpdate(pcs[1..], i - 1);
    }
  }

  lemma StepReducesWork(s: State, a: Action)
    requires Inv(s) && Enabled(s, a) && Internal(a)
    ensures Work(Apply(s, a)) < Work(s)
  {
    if a.WriteByte? {
      CallerWorkUpdate(s.callers, a.i);
    } else if a.DispatchOther? || a.DispatchWake? {
      assert s.loop.batch == [s.loop.batch[0]] + s.loop.batch[1..];
    }
  }

  /** A kevent that is interrupted, fails or reports only other descriptors. */
  predicate Distracting(a: Action) {
    a.KeventInterrupted? || a.KeventFailed? || (a.KeventReturn? && Wake !in a.events)
  }

  /** A schedule in which no further call begins; the kernel may do as it likes. */
  predicate NoNewCalls(acts: seq<Action>) {
    forall j :: 0 <= j < |acts| ==> Internal(acts[j]) || Distracting(acts[j])
  }

  function Distractions(acts: seq<Action>): nat {
    if acts == [] then 0 else (if Distracting(acts[0]) then 1 else 0) + Distractions(acts[1..])
  }

  /** The work of one full batch of other events. */
  const BATCH_WORK: nat := 2 + 5 * MAX_EVENTS

  lemma DistractionCosts(s: State, a: Action)
    requires Inv(s) && Enabled(s, a) && Distracting(a)
    ensures Work(Apply(s, a)) <= Work(s) + BATCH_WORK
  {
  }

  lemma {:induction false} RunBounded(s: State, acts: seq<Action>)
    requires Inv(s) && Legal(s, acts) && NoNewCalls(acts)
    ensures |acts| + Work(Exec(s, acts)) <= Work(s) + (1 + BATCH_WORK) * Distractions(acts)
    decreases |acts|
  {
    if acts != [] {
      if Distracting(acts[0]) { DistractionCosts(s, acts[0]); } else { StepReducesWork(s, acts[0]); }
      StepKeepsInv(s, acts[0]);
      RunBounded(Apply(s, acts[0]), acts[1..]);
    }
  }

  lemma SomeoneCanStep(s: State) returns (a: Action)
    requires Inv(s) && !s.loop.Done?
    requires !(s.loop.Blocked? && s.pipe == 0 && AllQuiet(s))
    ensures Enabled(s, a) && Internal(a)
  {
    if !AllQuiet(s) {
      var i :| 0 <= i < |s.callers| && !s.callers[i].Quiet?;
      return WriteByte(i);
    }
    match s.loop
    case Checking => a := Check;
    case Blocked => a := KeventReturn([Wake]);
    case Dispatching(b) => a := if b == [] then BatchDone else if b[0].Wake? then DispatchWake else DispatchOther;
    case Draining(_) => a := if s.pipe == 0 then DrainEmpty else DrainRead(1);
    case Swapping(_) => a := Swap;
    case Calling(cbs, _) => a := if cbs == [] then CallsDone else Call;
  }

  lemma {:induction false} NothingPosted(acts: seq<Action>)
    requires NoNewCalls(acts)
    ensures Posted(acts) == [] && !Stopped(acts)
  {
    if acts != [] {
      FirstOrLater(acts);
      NothingPosted(acts[1..]);
    }
  }

  /** Posts are served: from any reachable state, once no further call begins, every schedule stops
      within `Work` steps and one batch for each kevent that does not report the pipe, and where only
      such kevents are possible any more the loop has run every callback ever posted, unless it was
      stopped or the kernel failed. */
  lemma PostsAreServed(capacity: nat, threads: nat, acts: seq<Action>, more: seq<Action>)
    requires capacity >= 1 && Legal(Init(capacity, threads), acts)
    requires Legal(Exec(Init(capacity, threads), acts), more) && NoNewCalls(more)
    ensures |more| <= Work(Exec(Init(capacity, threads), acts)) + (1 + BATCH_WORK) * Distractions(more)
    ensures var s := Exec(Exec(Init(capacity, threads), acts), more);
            (forall a :: Internal(a) ==> !Enabled(s, a)) ==>
              if s.loop.Done? then Stopped(acts) || KernelFailed(acts) || KernelFailed(more)
              else s.running && !Stopped(acts) && s.executed == Posted(acts)
  {
    var mid := Exec(Init(capacity, threads), acts);
    RunDoesAsTold(Init(capacity, threads), acts);
    RunDoesAsTold(mid, more);
    NothingPosted(more);
    assert [] + Posted(acts) == Posted(acts) && Posted(acts) + [] == Posted(acts);
    RunKeepsInv(Init(capacity, threads), acts);
    RunBounded(mid, more);
    RunKeepsInv(mid, more);
    var s := Exec(mid, more);
    if (forall a :: Internal(a) ==> !Enabled(s, a)) && !s.loop.Done? {
      if !(s.loop.Blocked? && s.pipe == 0 && AllQuiet(s)) { var a := SomeoneCanStep(s); }
    }
  }
}
