/** The asynchronous work queue of Seer::Engine (SeerLib/src/Engine.cpp) as a step system.

    Any number of submitting threads, the worker threads the engine has ever started and one
    shutting-down thread interleave at the granularity of single lock, unlock, test, push, pop
    and notify operations.  `Enabled` says when a thread may take a step, `Apply` what the
    step does; every run is a sequence of enabled actions from `Init`.

    Caller contract taken from the source: `submit` and `shutdown` do not overlap, because both
    touch the thread handle `worker_` and only one of them does so under the lock. */
module Engine {
  import opened Wrappers

  datatype WorkItem = WorkItem(payload: seq<bv8>, url: string, hasCallback: bool)

  /** Where a thread inside `submit` stands. */
  datatype SubmitPc =
    | Idle
    | WantLock(item: WorkItem)
    | Locked(item: WorkItem)     // holds the lock, has not looked at running_
    | Ensured(item: WorkItem)    // holds the lock, a worker exists
    | Pushed                     // holds the lock, the item is queued
    | Notifying                  // lock released, notify_one still to come

  /** Where a worker thread stands in `workerLoop`. */
  datatype WorkerPc =
    | Wanting                    // waits for the mutex (first time, or after a wake-up)
    | Testing                    // holds the lock, evaluates the wait predicate
    | Parked                     // inside cv_.wait, lock released
    | Took(item: WorkItem)       // holds the lock, item popped
    | Classifying(item: WorkItem)
    | Returning                  // holds the lock, decided to return
    | Exited

  /** Where the thread inside `shutdown` stands. */
  datatype ShutdownPc =
    | Out
    | WantsLock
    | HasLock
    | Cleared                    // holds the lock, running_ is false
    | NotifyAll                  // lock released, notify_all still to come
    | Join

  datatype Owner = Free | Submitter(i: nat) | Worker(k: nat) | Stopper

  datatype State = State(
    lock: Owner,
    queue: seq<WorkItem>,
    running: bool,
    handle: Option<nat>,         // the thread `worker_` refers to while it is joinable
    workers: seq<WorkerPc>,      // every worker ever started, in order of creation
    submitters: seq<SubmitPc>,
    stopper: ShutdownPc,
    submitted: seq<WorkItem>,    // history: items in the order they were pushed
    delivered: seq<WorkItem>)    // history: items classified and reported, in order

  datatype Action =
    | BeginSubmit(i: nat, item: WorkItem)
    | SubmitLock(i: nat)
    | EnsureWorker(i: nat)
    | Push(i: nat)
    | SubmitUnlock(i: nat)
    | NotifyOne(i: nat, woken: Option<nat>)
    | WorkerLock(k: nat)
    | WorkerPark(k: nat)
    | WorkerTake(k: nat)
    | WorkerUnlock(k: nat)
    | WorkerDeliver(k: nat)
    | WorkerDecide(k: nat)
    | WorkerExit(k: nat)
    | SpuriousWake(k: nat)
    | BeginShutdown
    | ShutdownLock
    | ShutdownNothing
    | ShutdownClear
    | ShutdownUnlock
    | ShutdownNotify
    | ShutdownJoin

  function Init(threads: nat): State {
    State(Free, [], false, None, [], seq(threads, _ => Idle), Out, [], [])
  }

  predicate SubmitterAt(s: State, i: nat, pc: SubmitPc) { i < |s.submitters| && s.submitters[i] == pc }

  predicate WorkerAt(s: State, k: nat, pc: WorkerPc) { k < |s.workers| && s.workers[k] == pc }

  predicate AllIdle(s: State) { forall i :: 0 <= i < |s.submitters| ==> s.submitters[i].Idle? }

  predicate NoneParked(s: State) { forall k :: 0 <= k < |s.workers| ==> !s.workers[k].Parked? }

  /** The predicate passed to cv_.wait. */
  predicate WaitOver(s: State) { s.queue != [] || !s.running }

  /** Assigning to the jthread `worker_` first joins the thread it held. */
  predicate HandleFree(s: State) {
    s.handle.Some? ==> WorkerAt(s, s.handle.value, Exited)
  }

  predicate Enabled(s: State, a: Action) {
    match a
    case BeginSubmit(i, _) => SubmitterAt(s, i, Idle) && s.stopper.Out?
    case SubmitLock(i) => i < |s.submitters| && s.submitters[i].WantLock? && s.lock.Free?
    case EnsureWorker(i) => i < |s.submitters| && s.submitters[i].Locked? && (s.running || HandleFree(s))
    case Push(i) => i < |s.submitters| && s.submitters[i].Ensured?
    case SubmitUnlock(i) => SubmitterAt(s, i, Pushed)
    case NotifyOne(i, woken) =>
      SubmitterAt(s, i, Notifying) &&
      (if woken.Some? then WorkerAt(s, woken.value, Parked) else NoneParked(s))
    case WorkerLock(k) => WorkerAt(s, k, Wanting) && s.lock.Free?
    case WorkerPark(k) => WorkerAt(s, k, Testing) && !WaitOver(s)
    case WorkerTake(k) => WorkerAt(s, k, Testing) && s.queue != []
    case WorkerUnlock(k) => k < |s.workers| && s.workers[k].Took?
    case WorkerDeliver(k) => k < |s.workers| && s.workers[k].Classifying?
    case WorkerDecide(k) => WorkerAt(s, k, Testing) && !s.running && s.queue == []
    case WorkerExit(k) => WorkerAt(s, k, Returning)
    case SpuriousWake(k) => WorkerAt(s, k, Parked)
    case BeginShutdown => s.stopper.Out? && AllIdle(s)
    case ShutdownLock => s.stopper.WantsLock? && s.lock.Free?
    case ShutdownNothing => s.stopper.HasLock? && !s.running
    case ShutdownClear => s.stopper.HasLock? && s.running
    case ShutdownUnlock => s.stopper.Cleared?
    case ShutdownNotify => s.stopper.NotifyAll?
    case ShutdownJoin => s.stopper.Join? && HandleFree(s)
  }

  function SetSubmitter(s: State, i: nat, pc: SubmitPc): State
    requires i < |s.submitters|
  {
    s.(submitters := s.submitters[i := pc])
  }

  function SetWorker(s: State, k: nat, pc: WorkerPc): State
    requires k < |s.workers|
  {
    s.(workers := s.workers[k := pc])
  }

  function WakeAll(ws: seq<WorkerPc>): seq<WorkerPc> {
    seq(|ws|, k requires 0 <= k < |ws| => if ws[k].Parked? then Wanting else ws[k])
  }

  function Apply(s: State, a: Action): State
    requires Enabled(s, a)
  {
    match a
    case BeginSubmit(i, item) => SetSubmitter(s, i, WantLock(item))
    case SubmitLock(i) => SetSubmitter(s, i, Locked(s.submitters[i].item)).(lock := Submitter(i))
    case EnsureWorker(i) =>
      var t := SetSubmitter(s, i, Ensured(s.submitters[i].item));
      if s.running then t
      else t.(running := true, handle := Some(|s.workers|), workers := s.workers + [Wanting])
    case Push(i) =>
      var item := s.submitters[i].item;
      SetSubmitter(s, i, Pushed).(queue := s.queue + [item], submitted := s.submitted + [item])
    case SubmitUnlock(i) => SetSubmitter(s, i, Notifying).(lock := Free)
    case NotifyOne(i, woken) =>
      var t := SetSubmitter(s, i, Idle);
      if woken.Some? then SetWorker(t, woken.value, Wanting) else t
    case WorkerLock(k) => SetWorker(s, k, Testing).(lock := Worker(k))
    case WorkerPark(k) => SetWorker(s, k, Parked).(lock := Free)
    case WorkerTake(k) => SetWorker(s, k, Took(s.queue[0])).(queue := s.queue[1..])
    case WorkerUnlock(k) => SetWorker(s, k, Classifying(s.workers[k].item)).(lock := Free)
    case WorkerDeliver(k) => SetWorker(s, k, Wanting).(delivered := s.delivered + [s.workers[k].item])
    case WorkerDecide(k) => SetWorker(s, k, Returning)
    case WorkerExit(k) => SetWorker(s, k, Exited).(lock := Free)
    case SpuriousWake(k) => SetWorker(s, k, Wanting)
    case BeginShutdown => s.(stopper := WantsLock)
    case ShutdownLock => s.(stopper := HasLock, lock := Stopper)
    case ShutdownNothing => s.(stopper := Out, lock := Free)
    case ShutdownClear => s.(stopper := Cleared, running := false)
    case ShutdownUnlock => s.(stopper := NotifyAll, lock := Free)
    case ShutdownNotify => s.(stopper := Join, workers := WakeAll(s.workers))
    case ShutdownJoin => s.(stopper := Out, handle := None)
  }

  /** A run: every action is enabled where it is taken. */
  predicate Legal(s: State, acts: seq<Action>)
    decreases |acts|
  {
    acts == [] || (Enabled(s, acts[0]) && Legal(Apply(s, acts[0]), acts[1..]))
  }

  function Exec(s: State, acts: seq<Action>): State
    requires Legal(s, acts)
    decreases |acts|
  {
    if acts == [] then s else Exec(Apply(s, acts[0]), acts[1..])
  }

  // ---------------------------------------------------------------- invariant

  predicate SubmitterHolds(pc: SubmitPc) { pc.Locked? || pc.Ensured? || pc.Pushed? }

  predicate WorkerHolds(pc: WorkerPc) { pc.Testing? || pc.Took? || pc.Returning? }

  /** Mutual exclusion: a thread is inside a critical section exactly when it owns the mutex. */
  predicate LockInv(s: State) {
    && (forall i :: 0 <= i < |s.submitters| ==> (SubmitterHolds(s.submitters[i]) <==> s.lock == Submitter(i)))
    && (forall k :: 0 <= k < |s.workers| ==> (WorkerHolds(s.workers[k]) <==> s.lock == Worker(k)))
    && ((s.stopper.HasLock? || s.stopper.Cleared?) <==> s.lock.Stopper?)
    && (s.lock.Submitter? ==> s.lock.i < |s.submitters|)
    && (s.lock.Worker? ==> s.lock.k < |s.workers|)
  }

  /** The newest worker; all earlier ones have returned. */
  function Last(s: State): WorkerPc {
    if s.workers == [] then Exited else s.workers[|s.workers| - 1]
  }

  predicate OneWorker(s: State) {
    forall k :: 0 <= k < |s.workers| - 1 ==> s.workers[k].Exited?
  }

  predicate HandleInv(s: State) {
    && (s.running ==> s.workers != [] && !Last(s).Exited? && !Last(s).Returning?)
    && ((s.running || s.stopper.Cleared? || s.stopper.NotifyAll? || s.stopper.Join?) ==>
          s.workers != [] && s.handle == Some(|s.workers| - 1))
    && ((!s.running && (s.stopper.Out? || s.stopper.WantsLock? || s.stopper.HasLock?)) ==>
          s.handle.None? && Last(s).Exited?)
    && ((s.stopper.Cleared? || s.stopper.NotifyAll? || s.stopper.Join?) ==> !s.running)
    && ((Last(s).Exited? || Last(s).Returning?) ==> s.queue == [])
    && (forall i :: 0 <= i < |s.submitters| ==> (s.submitters[i].Ensured? || s.submitters[i].Pushed? ==> s.running))
    && (!s.stopper.Out? ==> AllIdle(s))
  }

  /** The item the worker has popped and not yet reported. */
  function InFlight(pc: WorkerPc): seq<WorkItem> {
    if pc.Took? || pc.Classifying? then [pc.item] else []
  }

  predicate Conserved(s: State) {
    s.submitted == s.delivered + InFlight(Last(s)) + s.queue
  }

  /** Some thread has changed what the wait predicate reads and has not notified yet. */
  predicate NotifyPending(s: State) {
    || (exists i :: 0 <= i < |s.submitters| && (s.submitters[i].Pushed? || s.submitters[i].Notifying?))
    || s.stopper.Cleared? || s.stopper.NotifyAll?
  }

  predicate NoLostWakeup(s: State) {
    Last(s).Parked? && WaitOver(s) ==> NotifyPending(s)
  }

  predicate Inv(s: State) {
    LockInv(s) && OneWorker(s) && HandleInv(s) && Conserved(s) && NoLostWakeup(s)
  }

  predicate BySubmitter(a: Action) {
    a.SubmitLock? || a.EnsureWorker? || a.Push? || a.SubmitUnlock? || a.NotifyOne?
  }

  lemma SubmitterKeepsLock(s: State, a: Action)
    requires LockInv(s) && Enabled(s, a) && BySubmitter(a)
    ensures LockInv(Apply(s, a))
  {
  }

  predicate ByWorker(a: Action) {
    a.WorkerLock? || a.WorkerPark? || a.WorkerTake? || a.WorkerUnlock? || a.WorkerDeliver? || a.WorkerDecide?
    || a.WorkerExit? || a.SpuriousWake?
  }

  lemma WorkerKeepsLock(s: State, a: Action)
    requires LockInv(s) && Enabled(s, a) && ByWorker(a)
    ensures LockInv(Apply(s, a))
  {
  }

  lemma OtherKeepsLock(s: State, a: Action)
    requires LockInv(s) && Enabled(s, a) && !BySubmitter(a) && !ByWorker(a)
    ensures LockInv(Apply(s, a))
  {
  }

  lemma SubmitterKeepsHandle(s: State, a: Action)
    requires Inv(s) && Enabled(s, a) && BySubmitter(a)
    ensures OneWorker(Apply(s, a)) && HandleInv(Apply(s, a))
  {
  }

  lemma OtherKeepsHandle(s: State, a: Action)
    requires Inv(s) && Enabled(s, a) && !BySubmitter(a)
    ensures OneWorker(Apply(s, a)) && HandleInv(Apply(s, a))
  {
  }

  lemma WorkerConserves(s: State, a: Action)
    requires OneWorker(s) && HandleInv(s) && Conserved(s) && Enabled(s, a) && ByWorker(a)
    ensures Conserved(Apply(s, a))
  {
  }

  lemma OtherConserves(s: State, a: Action)
    requires OneWorker(s) && HandleInv(s) && Conserved(s) && Enabled(s, a) && !ByWorker(a)
    ensures Conserved(Apply(s, a))
  {
  }

  lemma StepLosesNoWakeup(s: State, a: Action)
    requires Inv(s) && Enabled(s, a)
    ensures NoLostWakeup(Apply(s, a))
  {
    var t := Apply(s, a);
    if Last(t).Parked? && WaitOver(t) && !t.stopper.Cleared? && !t.stopper.NotifyAll? {
      if a.Push? || a.SubmitUnlock? {
        assert t.submitters[a.i].Pushed? || t.submitters[a.i].Notifying?;
      } else {
        // A notifier among the submitters was there before, and this step was not its notify_one.
        var i :| 0 <= i < |s.submitters| && (s.submitters[i].Pushed? || s.submitters[i].Notifying?);
        assert t.submitters[i] == s.submitters[i];
      }
    }
  }

  lemma StepKeepsInv(s: State, a: Action)
    requires Inv(s) && Enabled(s, a)
    ensures Inv(Apply(s, a))
  {
    if BySubmitter(a) {
      SubmitterKeepsLock(s, a);
      SubmitterKeepsHandle(s, a);
    } else {
      if ByWorker(a) { WorkerKeepsLock(s, a); } else { OtherKeepsLock(s, a); }
      OtherKeepsHandle(s, a);
    }
    if ByWorker(a) { WorkerConserves(s, a); } else { OtherConserves(s, a); }
    StepLosesNoWakeup(s, a);
  }

  /** Every state of every run satisfies the invariant. */
  lemma {:induction false} RunKeepsInv(s: State, acts: seq<Action>)
    requires Inv(s) && Legal(s, acts)
    ensures Inv(Exec(s, acts))
    decreases |acts|
  {
    if acts != [] {
      StepKeepsInv(s, acts[0]);
      RunKeepsInv(Apply(s, acts[0]), acts[1..]);
    }
  }

  // ---------------------------------------------------------------- safety of every run

  /** No lost wake-up: while the newest worker sleeps on the condition variable with something to
      do, some thread is still on its way to notify; if the mutex is free, that thread is exactly
      between its unlock and its notify. */
  lemma NoWakeupIsLost(threads: nat, acts: seq<Action>, k: nat)
    requires Legal(Init(threads), acts)
    requires var s := Exec(Init(threads), acts); WorkerAt(s, k, Parked) && WaitOver(s)
    ensures NotifyPending(Exec(Init(threads), acts))
    ensures var s := Exec(Init(threads), acts);
            s.lock.Free? ==> s.stopper.NotifyAll? || exists i :: 0 <= i < |s.submitters| && s.submitters[i].Notifying?
  {
    RunKeepsInv(Init(threads), acts);
  }

  /** Exactly once, in order: what was submitted is what was delivered, then the item being
      classified, then the queue; and at most one worker is alive. */
  lemma ExactlyOnceInOrder(threads: nat, acts: seq<Action>)
    requires Legal(Init(threads), acts)
    ensures var s := Exec(Init(threads), acts);
            && s.submitted == s.delivered + InFlight(Last(s)) + s.queue
            && forall j, k | 0 <= j < |s.workers| && 0 <= k < |s.workers| ::
                 !s.workers[j].Exited? && !s.workers[k].Exited? ==> j == k
  {
    RunKeepsInv(Init(threads), acts);
  }

  lemma {:induction false} ExecAppend(s: State, acts: seq<Action>, a: Action)
    requires Legal(s, acts) && Enabled(Exec(s, acts), a)
    ensures Legal(s, acts + [a]) && Exec(s, acts + [a]) == Apply(Exec(s, acts), a)
    decreases |acts|
  {
    assert (acts + [a])[0] == if acts == [] then a else acts[0];
    if acts == [] {
      assert (acts + [a])[1..] == [];
    } else {
      assert (acts + [a])[1..] == acts[1..] + [a];
      ExecAppend(Apply(s, acts[0]), acts[1..], a);
    }
  }

  // ---------------------------------------------------------------- what the calls passed

  lemma {:induction false} ExecPrefix(s: State, acts: seq<Action>, k: nat)
    requires Legal(s, acts) && k < |acts|
    ensures Legal(s, acts[..k]) && Enabled(Exec(s, acts[..k]), acts[k])
    ensures Legal(s, acts[..k + 1]) && Exec(s, acts[..k + 1]) == Apply(Exec(s, acts[..k]), acts[k])
    decreases k
  {
    if k > 0 {
      ExecPrefix(Apply(s, acts[0]), acts[1..], k - 1);
      assert acts[..k][1..] == acts[1..][..k - 1];
    }
    ExecAppend(s, acts[..k], acts[k]);
    assert acts[..k + 1] == acts[..k] + [acts[k]];
  }

  /** The item of the latest call of submit by thread i. */
  function LatestCall(acts: seq<Action>, i: nat): Option<WorkItem> {
    if acts == [] then None
    else
      var a := acts[|acts| - 1];
      if a.BeginSubmit? && a.i == i then Some(a.item) else LatestCall(acts[..|acts| - 1], i)
  }

  /** The items of the calls, in the order in which the calls reached the queue. */
  function QueuedBy(acts: seq<Action>): seq<WorkItem> {
    if acts == [] then []
    else
      var before, a := acts[..|acts| - 1], acts[|acts| - 1];
      var item := if a.Push? then LatestCall(before, a.i) else None;
      QueuedBy(before) + if item.Some? then [item.value] else []
  }

  /** How often x was passed to submit. */
  function CallsWith(acts: seq<Action>, x: WorkItem): nat {
    if acts == [] then 0
    else
      var a := acts[|acts| - 1];
      CallsWith(acts[..|acts| - 1], x) + if a.BeginSubmit? && a.item == x then 1 else 0
  }

  function Occurs(items: seq<WorkItem>, x: WorkItem): nat {
    if items == [] then 0 else Occurs(items[..|items| - 1], x) + if items[|items| - 1] == x then 1 else 0
  }

  /** How many calls still carry x, not having reached the queue. */
  function OnTheWay(pcs: seq<SubmitPc>, x: WorkItem): nat {
    if pcs == [] then 0 else OnTheWay(pcs[1..], x) + if Carries(pcs[0]) && pcs[0].item == x then 1 else 0
  }

  predicate Carries(pc: SubmitPc) { pc.WantLock? || pc.Locked? || pc.Ensured? }

  function Weight(pc: SubmitPc, x: WorkItem): nat { if Carries(pc) && pc.item == x then 1 else 0 }

  lemma {:induction false} OnTheWayUpdate(pcs: seq<SubmitPc>, i: nat, pc: SubmitPc, x: WorkItem)
    requires i < |pcs|
    ensures OnTheWay(pcs[i := pc], x) == OnTheWay(pcs, x) - Weight(pcs[i], x) + Weight(pc, x)
  {
    if i == 0 {
      assert pcs[i := pc][1..] == pcs[1..];
    } else {
      assert pcs[i := pc][1..] == pcs[1..][i - 1 := pc];
      OnTheWayUpdate(pcs[1..], i - 1, pc, x);
    }
  }

  lemma {:induction false} NothingOnTheWay(pcs: seq<SubmitPc>, x: WorkItem)
    requires forall i :: 0 <= i < |pcs| ==> pcs[i].Idle?
    ensures OnTheWay(pcs, x) == 0
  {
    if pcs != [] { NothingOnTheWay(pcs[1..], x); }
  }

  lemma {:induction false} OccursAppend(a: seq<WorkItem>, b: seq<WorkItem>, x: WorkItem)
    ensures Occurs(a + b, x) == Occurs(a, x) + Occurs(b, x)
  {
    if b == [] {
      assert a + b == a;
    } else {
      assert (a + b)[..|a + b| - 1] == a + b[..|b| - 1];
      OccursAppend(a, b[..|b| - 1], x);
    }
  }

  /** What a step does to the items: only a push adds one, the item its call carries. */
  lemma StepSubmits(s: State, a: Action)
    requires Enabled(s, a)
    ensures Apply(s, a).submitted == s.submitted + if a.Push? then [s.submitters[a.i].item] else []
    ensures if a.BeginSubmit? || BySubmitter(a)
            then Apply(s, a).submitters == s.submitters[a.i := Apply(s, a).submitters[a.i]]
            else Apply(s, a).submitters == s.submitters
  {
  }

  /** One step accounts for every item: a call brings one, reaching the queue moves it. */
  lemma StepAccounts(s: State, a: Action, x: WorkItem)
    requires Enabled(s, a)
    ensures var t := Apply(s, a);
            Occurs(t.submitted, x) + OnTheWay(t.submitters, x) ==
            Occurs(s.submitted, x) + OnTheWay(s.submitters, x) + if a.BeginSubmit? && a.item == x then 1 else 0
  {
    StepSubmits(s, a);
    if a.BeginSubmit? || BySubmitter(a) { OnTheWayUpdate(s.submitters, a.i, Apply(s, a).submitters[a.i], x); }
    if a.Push? { assert (s.submitted + [s.submitters[a.i].item])[..|s.submitted|] == s.submitted; }
  }

  /** Every call in progress carries the item it was given. */
  predicate CarriesCalls(s: State, acts: seq<Action>) {
    forall i :: 0 <= i < |s.submitters| && Carries(s.submitters[i]) ==> LatestCall(acts, i) == Some(s.submitters[i].item)
  }

  lemma StepCarries(s: State, acts: seq<Action>, a: Action)
    requires Enabled(s, a) && CarriesCalls(s, acts)
    ensures CarriesCalls(Apply(s, a), acts + [a])
  {
    assert (acts + [a])[..|acts|] == acts;
    StepSubmits(s, a);
    var t := Apply(s, a);
    forall i | 0 <= i < |t.submitters| && Carries(t.submitters[i])
      ensures LatestCall(acts + [a], i) == Some(t.submitters[i].item)
    {
      assert (a.BeginSubmit? && a.i == i) || (Carries(s.submitters[i]) && s.submitters[i].item == t.submitters[i].item);
    }
  }

  lemma StepQueues(s: State, acts: seq<Action>, a: Action)
    requires Enabled(s, a) && CarriesCalls(s, acts) && s.submitted == QueuedBy(acts)
    ensures Apply(s, a).submitted == QueuedBy(acts + [a])
  {
    assert (acts + [a])[..|acts|] == acts;
    StepSubmits(s, a);
  }

  /** Nothing is lost or changed on the way to the queue: in every run the items submitted are exactly
      those of the calls, in the order in which the calls reached the queue. */
  lemma {:induction false} CallsAreSubmitted(threads: nat, acts: seq<Action>)
    requires Legal(Init(threads), acts)
    ensures Exec(Init(threads), acts).submitted == QueuedBy(acts)
    ensures CarriesCalls(Exec(Init(threads), acts), acts)
  {
    if acts != [] {
      var k := |acts| - 1;
      assert acts[..k + 1] == acts && acts == acts[..k] + [acts[k]];
      ExecPrefix(Init(threads), acts, k);
      CallsAreSubmitted(threads, acts[..k]);
      StepQueues(Exec(Init(threads), acts[..k]), acts[..k], acts[k]);
      StepCarries(Exec(Init(threads), acts[..k]), acts[..k], acts[k]);
    }
  }

  /** Every item was passed to submit as often as it was submitted or is still carried by a call. */
  lemma {:induction false} CallsAreCounted(threads: nat, acts: seq<Action>, x: WorkItem)
    requires Legal(Init(threads), acts)
    ensures var s := Exec(Init(threads), acts);
            CallsWith(acts, x) == Occurs(s.submitted, x) + OnTheWay(s.submitters, x)
  {
    if acts == [] {
      NothingOnTheWay(Init(threads).submitters, x);
    } else {
      var k := |acts| - 1;
      assert acts[..k + 1] == acts;
      ExecPrefix(Init(threads), acts, k);
      CallsAreCounted(threads, acts[..k], x);
      StepAccounts(Exec(Init(threads), acts[..k]), acts[k], x);
    }
  }

  /** Exactly once for the callers: when no call is in progress, an item has been delivered, is being
      classified or waits, once for each call that passed it. */
  lemma EveryCallCounts(threads: nat, acts: seq<Action>, x: WorkItem)
    requires Legal(Init(threads), acts) && AllIdle(Exec(Init(threads), acts))
    ensures var s := Exec(Init(threads), acts);
            CallsWith(acts, x) == Occurs(s.delivered, x) + Occurs(InFlight(Last(s)), x) + Occurs(s.queue, x)
  {
    var s := Exec(Init(threads), acts);
    CallsAreCounted(threads, acts, x);
    ExactlyOnceInOrder(threads, acts);
    NothingOnTheWay(s.submitters, x);
    OccursAppend(s.delivered + InFlight(Last(s)), s.queue, x);
    OccursAppend(s.delivered, InFlight(Last(s)), x);
  }

  predicate Drained(s: State) {
    && s.stopper.Out? && s.delivered == s.submitted && s.queue == []
    && (forall k :: 0 <= k < |s.workers| ==> s.workers[k].Exited?)
    && s.handle.None? && AllIdle(s)
  }

  lemma ReturnIsDrained(s: State, a: Action)
    requires Inv(s) && Enabled(s, a)
    requires a.ShutdownJoin? || a.ShutdownNothing?
    ensures Drained(Apply(s, a))
  {
    assert Last(s).Exited?;
    assert InFlight(Last(s)) == [];
  }

  /** Drained: whichever way `shutdown` returns, in every run and after any number of earlier
      shutdown-then-resubmit cycles, everything submitted has been delivered and no worker lives. */
  lemma ShutdownDrains(threads: nat, acts: seq<Action>, a: Action)
    requires Legal(Init(threads), acts) && Enabled(Exec(Init(threads), acts), a)
    requires a.ShutdownJoin? || a.ShutdownNothing?
    ensures Legal(Init(threads), acts + [a])
    ensures Drained(Exec(Init(threads), acts + [a]))
  {
    RunKeepsInv(Init(threads), acts);
    ExecAppend(Init(threads), acts, a);
    ReturnIsDrained(Exec(Init(threads), acts), a);
  }

  /** How often shutdown was called, less how often it returned. */
  function OpenShutdowns(acts: seq<Action>): int {
    if acts == [] then 0
    else
      var a := acts[|acts| - 1];
      OpenShutdowns(acts[..|acts| - 1]) +
        if a.BeginShutdown? then 1 else if a.ShutdownJoin? || a.ShutdownNothing? then -1 else 0
  }

  /** A call of shutdown is in progress from its beginning until it returns. */
  lemma {:induction false} ShutdownIsInProgress(threads: nat, acts: seq<Action>)
    requires Legal(Init(threads), acts)
    ensures OpenShutdowns(acts) == if Exec(Init(threads), acts).stopper.Out? then 0 else 1
  {
    if acts != [] {
      var k := |acts| - 1;
      assert acts[..k + 1] == acts;
      ExecPrefix(Init(threads), acts, k);
      ShutdownIsInProgress(threads, acts[..k]);
    }
  }

  /** So when `shutdown` returns, every item has been delivered as often as it was passed to submit. */
  lemma ShutdownDeliversCalls(threads: nat, acts: seq<Action>, a: Action, x: WorkItem)
    requires Legal(Init(threads), acts) && Enabled(Exec(Init(threads), acts), a)
    requires a.ShutdownJoin? || a.ShutdownNothing?
    ensures Legal(Init(threads), acts + [a])
    ensures Occurs(Exec(Init(threads), acts + [a]).delivered, x) == CallsWith(acts + [a], x)
  {
    ShutdownDrains(threads, acts, a);
    CallsAreCounted(threads, acts + [a], x);
    NothingOnTheWay(Exec(Init(threads), acts + [a]).submitters, x);
  }

  // ---------------------------------------------------------------- progress

  /** Actions of calls already in progress: no new call, no spurious wake-up. */
  predicate Internal(a: Action) {
    !a.BeginSubmit? && !a.BeginShutdown? && !a.SpuriousWake?
  }

  function SubmitWork(pc: SubmitPc): nat {
    match pc
    case Idle => 0 case WantLock(_) => 14 case Locked(_) => 13 case Ensured(_) => 9 case Pushed => 4 case Notifying => 3
  }

  function WorkerWork(pc: WorkerPc): nat {
    match pc
    case Exited => 0 case Parked => 1 case Returning => 1 case Testing => 2 case Wanting => 3
    case Classifying(_) => 4 case Took(_) => 5
  }

  function ShutdownWork(pc: ShutdownPc): nat {
    match pc
    case Out => 0 case WantsLock => 7 case HasLock => 6 case Cleared => 5 case NotifyAll => 4 case Join => 1
  }

  function SumSubmit(pcs: seq<SubmitPc>): nat {
    if pcs == [] then 0 else SubmitWork(pcs[0]) + SumSubmit(pcs[1..])
  }

  /** An upper bound on the internal steps that remain. */
  function Work(s: State): nat {
    SumSubmit(s.submitters) + WorkerWork(Last(s)) + ShutdownWork(s.stopper) + 4 * |s.queue|
  }

  lemma {:induction false} SumSubmitUpdate(pcs: seq<SubmitPc>, i: nat, pc: SubmitPc)
    requires i < |pcs|
    ensures SumSubmit(pcs[i := pc]) == SumSubmit(pcs) - SubmitWork(pcs[i]) + SubmitWork(pc)
  {
    if i == 0 {
      assert pcs[i := pc][1..] == pcs[1..];
    } else {
      assert pcs[i := pc][1..] == pcs[1..][i - 1 := pc];
      SumSubmitUpdate(pcs[1..], i - 1, pc);
    }
  }

  lemma SubmitterReducesWork(s: State, a: Action)
    requires Inv(s) && Enabled(s, a) && BySubmitter(a)
    ensures Work(Apply(s, a)) < Work(s)
  {
    SumSubmitUpdate(s.submitters, a.i, Apply(s, a).submitters[a.i]);
  }

  lemma OtherReducesWork(s: State, a: Action)
    requires Inv(s) && Enabled(s, a) && Internal(a) && !BySubmitter(a)
    ensures Work(Apply(s, a)) < Work(s)
  {
    assert Apply(s, a).submitters == s.submitters;
  }

  /** Every internal step uses up some of the remaining work. */
  lemma StepReducesWork(s: State, a: Action)
    requires Inv(s) && Enabled(s, a) && Internal(a)
    ensures Work(Apply(s, a)) < Work(s)
  {
    if BySubmitter(a) { SubmitterReducesWork(s, a); } else { OtherReducesWork(s, a); }
  }

  /** Nothing is in progress: no call is active and the worker, if any, is asleep or gone. */
  predicate AtRest(s: State) {
    AllIdle(s) && s.stopper.Out? && (Last(s).Parked? || Last(s).Exited?)
  }

  lemma RestMeansDelivered(s: State)
    requires Inv(s) && AtRest(s)
    ensures s.delivered == s.submitted
  {
    if Last(s).Parked? { assert !NotifyPending(s); }
  }

  /** The step the owner of the mutex can always take. */
  lemma OwnerCanStep(s: State) returns (a: Action)
    requires Inv(s) && !s.lock.Free?
    ensures Enabled(s, a) && Internal(a)
  {
    match s.lock
    case Submitter(i) =>
      a := match s.submitters[i]
        case Locked(_) => EnsureWorker(i)
        case Ensured(_) => Push(i)
        case _ => SubmitUnlock(i);
    case Worker(k) =>
      a := match s.workers[k]
        case Took(_) => WorkerUnlock(k)
        case Returning => WorkerExit(k)
        case _ => if s.queue != [] then WorkerTake(k) else if s.running then WorkerPark(k) else WorkerDecide(k);
    case Stopper =>
      a := if s.stopper.Cleared? then ShutdownUnlock else if s.running then ShutdownClear else ShutdownNothing;
  }

  /** No deadlock: unless the engine is at rest, some call in progress or the worker can move. */
  lemma SomeoneCanStep(s: State) returns (a: Action)
    requires Inv(s) && !AtRest(s)
    ensures Enabled(s, a) && Internal(a)
  {
    var k := |s.workers| - 1;
    if !s.lock.Free? {
      a := OwnerCanStep(s);
    } else if !AllIdle(s) {
      var i :| 0 <= i < |s.submitters| && !s.submitters[i].Idle?;
      if s.submitters[i].WantLock? {
        a := SubmitLock(i);
      } else if NoneParked(s) {
        a := NotifyOne(i, None);
      } else {
        var w :| 0 <= w < |s.workers| && s.workers[w].Parked?;
        a := NotifyOne(i, Some(w));
      }
    } else if Last(s).Wanting? {
      a := WorkerLock(k);
    } else if Last(s).Classifying? {
      a := WorkerDeliver(k);
    } else {
      a := if s.stopper.WantsLock? then ShutdownLock
      else if s.stopper.NotifyAll? then ShutdownNotify else ShutdownJoin;
    }
  }

  /** A schedule in which no further call begins; the condition variable may still wake for nothing. */
  predicate NoNewCalls(acts: seq<Action>) {
    forall j :: 0 <= j < |acts| ==> Internal(acts[j]) || acts[j].SpuriousWake?
  }

  function SpuriousWakes(acts: seq<Action>): nat {
    if acts == [] then 0 else (if acts[0].SpuriousWake? then 1 else 0) + SpuriousWakes(acts[1..])
  }

  /** A spurious wake-up costs the worker another round of lock and test. */
  lemma SpuriousWakeCosts(s: State, k: nat)
    requires Inv(s) && Enabled(s, SpuriousWake(k))
    ensures Work(Apply(s, SpuriousWake(k))) == Work(s) + 2
  {
    assert k == |s.workers| - 1;
  }

  lemma {:induction false} RunBounded(s: State, acts: seq<Action>)
    requires Inv(s) && Legal(s, acts) && NoNewCalls(acts)
    ensures |acts| + Work(Exec(s, acts)) <= Work(s) + 3 * SpuriousWakes(acts)
    decreases |acts|
  {
    if acts != [] {
      if acts[0].SpuriousWake? { SpuriousWakeCosts(s, acts[0].k); } else { StepReducesWork(s, acts[0]); }
      StepKeepsInv(s, acts[0]);
      RunBounded(Apply(s, acts[0]), acts[1..]);
    }
  }

  /** Draining terminates: from any reachable state, once no further call begins, every schedule
      stops within `Work` steps and three more for each spurious wake-up, and where only a spurious
      wake-up is possible any more every call has returned and every item has been delivered. */
  lemma DrainTerminates(threads: nat, acts: seq<Action>, more: seq<Action>)
    requires Legal(Init(threads), acts)
    requires Legal(Exec(Init(threads), acts), more) && NoNewCalls(more)
    ensures |more| <= Work(Exec(Init(threads), acts)) + 3 * SpuriousWakes(more)
    ensures var s := Exec(Exec(Init(threads), acts), more);
            (forall a :: Internal(a) ==> !Enabled(s, a)) ==> AtRest(s) && s.delivered == s.submitted
  {
    var mid := Exec(Init(threads), acts);
    RunKeepsInv(Init(threads), acts);
    RunBounded(mid, more);
    RunKeepsInv(mid, more);
    var s := Exec(mid, more);
    if forall a :: Internal(a) ==> !Enabled(s, a) {
      if !AtRest(s) { var a := SomeoneCanStep(s); }
      RestMeansDelivered(s);
    }
  }
}
