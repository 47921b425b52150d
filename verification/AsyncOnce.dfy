/** Exactly once: what holds of the thread pool in every run in which no submission
    reuses a slot whose worker is still busy. */
module AsyncOnce {
  import opened Wrappers
  import opened Async

  /** The step does not overwrite a slot that a worker still uses. */
  ghost predicate Careful(s: State, a: Action)
    requires Enabled(s, a)
  {
    a.Submit? && Accepts(s) ==>
      forall w :: 0 <= w < POOL && !s.workers[w].Idle? ==> IndexOf(s.workers[w].k) != IndexOf(s.head)
  }

  /** Task `k` was called with its own function and argument and returned `r`. */
  predicate HasRun(s: State, k: nat, r: nat) {
    k < |s.submitted| && s.submitted[k].func.Some? && Ran(k, s.submitted[k].func.value, s.submitted[k].arg, r) in s.log
  }

  /** What was done was done for the task it belongs to. */
  predicate Genuine(s: State, d: Deed) {
    && d.k < |s.submitted|
    && match d
       case Ran(k, func, arg, result) => s.submitted[k].func == Some(func) && s.submitted[k].arg == arg
       case CalledBack(k, callback, result, userData) =>
         s.submitted[k].onComplete == Some(callback) && s.submitted[k].userData == userData && HasRun(s, k, result)
  }

  /** A worker has taken `k` and not yet called it. */
  predicate InHand(s: State, k: nat)
    requires Sized(s)
  {
    exists w :: 0 <= w < POOL && Before(s.workers[w]) && s.workers[w].k == k
  }

  /** How often a task is to be run. */
  function Due(s: State, k: nat): nat
    requires k < |s.submitted|
  {
    if s.submitted[k].func.Some? then 1 else 0
  }

  ghost predicate WorkersOwn(s: State)
    requires Sized(s)
  {
    forall w :: 0 <= w < POOL && !s.workers[w].Idle? ==>
      var p := s.workers[w];
      && Recent(s, p.k)
      && (p.Chosen? ==> s.submitted[p.k].func.Some?)
      && (p.Called? || p.Stored? || p.Finished? ==> HasRun(s, p.k, p.result))
      && (p.Stored? || p.Finished? ==> s.slots[IndexOf(p.k)].result == p.result)
  }

  ghost predicate LogOwn(s: State) {
    forall d :: d in s.log ==> Genuine(s, d)
  }

  ghost predicate SlotsOwn(s: State)
    requires Sized(s)
  {
    forall k: nat :: Recent(s, k) ==>
      var slot := s.slots[IndexOf(k)];
      && (slot.status == Completed ==> HasRun(s, k, slot.result))
      && (slot.status == Failed ==> s.submitted[k].func.None?)
  }

  ghost predicate RunOnce(s: State)
    requires Sized(s) && s.taken <= |s.submitted|
  {
    forall k: nat :: k < s.taken ==> InHand(s, k) || Runs(s.log, k) == Due(s, k)
  }

  ghost predicate Exact(s: State) {
    Kept(s) && WorkersOwn(s) && LogOwn(s) && SlotsOwn(s) && RunOnce(s)
  }

  // ----- each step -----

  lemma BusyApart(s: State, v: nat, w: nat)
    requires Exact(s) && v < POOL && w < POOL && v != w && !s.workers[v].Idle? && !s.workers[w].Idle?
    ensures IndexOf(s.workers[v].k) != IndexOf(s.workers[w].k)
  {
    hide IndexOf, Runs, SlotsOwn, LogOwn, RunOnce, HasRun;
    var k, l := s.workers[v].k, s.workers[w].k;
    if k < l {
      RecentApart(k, l);
    } else {
      RecentApart(l, k);
    }
  }

  /** Histories grow. */
  ghost predicate Extends(s: State, s': State) {
    s.submitted <= s'.submitted && forall d :: d in s.log ==> d in s'.log
  }

  lemma HasRunStays(s: State, s': State, k: nat, r: nat)
    requires Extends(s, s') && HasRun(s, k, r)
    ensures HasRun(s', k, r)
  {
  }

  lemma GenuineStays(s: State, s': State, d: Deed)
    requires Extends(s, s') && Genuine(s, d)
    ensures Genuine(s', d)
  {
  }

  lemma SubmitExact(s: State, job: Job)
    requires Exact(s) && Careful(s, Submit(job))
    ensures Exact(AfterSubmit(s, job).0)
  {
    hide IdOf, IndexOf, Runs, HasRun, Genuine, Holding, Once;
    var s', n := AfterSubmit(s, job).0, |s.submitted|;
    SubmitKeeps(s, job);
    WrapIndex(n);
    forall k: nat, r: nat | HasRun(s, k, r) ensures HasRun(s', k, r) {
      HasRunStays(s, s', k, r);
    }
    if Accepts(s) {
      forall w | 0 <= w < POOL && !s.workers[w].Idle? ensures Recent(s', s.workers[w].k) {
        if s.workers[w].k + MAX_TASKS == n {
          ShiftIndex(s.workers[w].k);
        }
      }
      forall d | d in s'.log ensures Genuine(s', d) {
        GenuineStays(s, s', d);
      }
      forall k: nat | Recent(s', k) && k < n ensures s'.slots[IndexOf(k)] == s.slots[IndexOf(k)] {
        RecentApart(k, n);
      }
      assert forall k: nat :: k < s.taken ==> InHand(s', k) == InHand(s, k);
    }
  }

  lemma ShiftIndex(k: nat)
    ensures IndexOf(k + MAX_TASKS) == IndexOf(k)
  {
  }

  lemma TakeExact(s: State, w: nat)
    requires Exact(s) && Enabled(s, Take(w))
    ensures Exact(AfterTake(s, w))
  {
    hide IdOf, IndexOf, Runs, Genuine, Holding;
    var s', k := AfterTake(s, w), s.taken;
    TakeKeeps(s, w);
    WrapIndex(k);
    forall d | d in s'.log ensures Genuine(s', d) {
      GenuineStays(s, s', d);
    }
    assert InHand(s', k) by { assert Before(s'.workers[w]); }
    forall j: nat | j < k && InHand(s, j) ensures InHand(s', j) {
      var v :| 0 <= v < POOL && Before(s.workers[v]) && s.workers[v].k == j;
      assert s'.workers[v] == s.workers[v];
    }
    assert Recent(s, k);
  }

  lemma BeginExact(s: State, w: nat)
    requires Exact(s) && Enabled(s, Begin(w))
    ensures Exact(Next(s, Begin(w)))
  {
    hide IdOf, IndexOf, Runs, Genuine, Once;
    var s', k := Next(s, Begin(w)), s.workers[w].k;
    StepKeeps(s, Begin(w));
    forall d | d in s'.log ensures Genuine(s', d) {
      GenuineStays(s, s', d);
    }
    OthersApart(s, w);
    NotYetRun(s, w);
    forall j: nat | j < s.taken && InHand(s, j) && j != k ensures InHand(s', j) {
      var v :| 0 <= v < POOL && Before(s.workers[v]) && s.workers[v].k == j;
      assert s'.workers[v] == s.workers[v];
    }
    if s.submitted[k].func.Some? {
      assert Before(s'.workers[w]) && s'.workers[w].k == k;
    }
    SlotsApart(s, s', k);
  }

  lemma NotYetRun(s: State, w: nat)
    requires Exact(s) && w < POOL && Before(s.workers[w])
    ensures Runs(s.log, s.workers[w].k) == 0
  {
  }

  /** The other workers use other slots. */
  lemma OthersApart(s: State, w: nat)
    requires Sized(s) && Exact(s) && w < POOL && !s.workers[w].Idle?
    ensures forall v :: 0 <= v < POOL && v != w && !s.workers[v].Idle? ==>
      IndexOf(s.workers[v].k) != IndexOf(s.workers[w].k)
  {
    hide Exact, IndexOf;
    forall v | 0 <= v < POOL && v != w && !s.workers[v].Idle?
      ensures IndexOf(s.workers[v].k) != IndexOf(s.workers[w].k)
    {
      BusyApart(s, v, w);
    }
  }

  /** A step on the slot of task `k` leaves the slots of the other recent tasks alone. */
  lemma SlotsApart(s: State, s': State, k: nat)
    requires Sized(s) && Sized(s') && s'.submitted == s.submitted && Recent(s, k)
    requires forall i :: 0 <= i < MAX_TASKS && i != IndexOf(k) ==> s'.slots[i] == s.slots[i]
    ensures forall j: nat :: Recent(s, j) && j != k ==> s'.slots[IndexOf(j)] == s.slots[IndexOf(j)]
  {
    hide IndexOf;
    forall j: nat | Recent(s, j) && j != k ensures s'.slots[IndexOf(j)] == s.slots[IndexOf(j)] {
      if j < k {
        RecentApart(j, k);
      } else {
        RecentApart(k, j);
      }
    }
  }

  lemma CallExact(s: State, w: nat, r: nat)
    requires Exact(s) && Enabled(s, Call(w, r))
    ensures Exact(Next(s, Call(w, r)))
  {
    hide IdOf, IndexOf, Runs, Once, HasRun, Genuine;
    var s', k := Next(s, Call(w, r)), s.workers[w].k;
    StepKeeps(s, Call(w, r));
    NotYetRun(s, w);
    var d := s'.log[|s.log|];
    assert d == Ran(k, s.submitted[k].func.value, s.submitted[k].arg, r);
    assert HasRun(s', k, r) by { CalledOwn(s', k, r); }
    forall j: nat, q: nat | HasRun(s, j, q) ensures HasRun(s', j, q) {
      HasRunStays(s, s', j, q);
    }
    forall e | e in s'.log ensures Genuine(s', e) {
      if e in s.log {
        GenuineStays(s, s', e);
      } else {
        DeedGenuine(s', k, r);
      }
    }
    forall j: nat | j < s.taken ensures InHand(s', j) || Runs(s'.log, j) == Due(s', j) {
      RunsAppend(s.log, d, j);
      if j != k && InHand(s, j) {
        var v :| 0 <= v < POOL && Before(s.workers[v]) && s.workers[v].k == j;
        assert s'.workers[v] == s.workers[v];
      }
    }
  }

  lemma CalledOwn(s: State, k: nat, r: nat)
    requires k < |s.submitted| && s.submitted[k].func.Some? && s.log != []
    requires s.log[|s.log| - 1] == Ran(k, s.submitted[k].func.value, s.submitted[k].arg, r)
    ensures HasRun(s, k, r)
  {
  }

  lemma DeedGenuine(s: State, k: nat, r: nat)
    requires k < |s.submitted| && s.submitted[k].func.Some?
    ensures Genuine(s, Ran(k, s.submitted[k].func.value, s.submitted[k].arg, r))
  {
  }

  lemma StoreExact(s: State, w: nat)
    requires Exact(s) && Enabled(s, Store(w))
    ensures Exact(Next(s, Store(w)))
  {
    hide IdOf, IndexOf, Runs, Once, Genuine;
    var s', k := Next(s, Store(w)), s.workers[w].k;
    StepKeeps(s, Store(w));
    OthersApart(s, w);
    SlotsApart(s, s', k);
    SamePhases(s, s', w);
    forall d | d in s'.log ensures Genuine(s', d) {
      GenuineStays(s, s', d);
    }
    NoFailure(s, k, s.workers[w].result);
  }

  /** A task that has run is not marked failed. */
  lemma NoFailure(s: State, k: nat, r: nat)
    requires Exact(s) && Recent(s, k) && HasRun(s, k, r)
    ensures s.slots[IndexOf(k)].status != Failed
  {
  }

  lemma SamePhases(s: State, s': State, w: nat)
    requires Sized(s) && Sized(s') && w < POOL && !Before(s.workers[w]) && !Before(s'.workers[w])
    requires forall v :: 0 <= v < POOL && v != w ==> s'.workers[v] == s.workers[v]
    ensures forall j: nat :: InHand(s', j) == InHand(s, j)
  {
    forall j: nat ensures InHand(s', j) == InHand(s, j) {
      if InHand(s, j) {
        var v :| 0 <= v < POOL && Before(s.workers[v]) && s.workers[v].k == j;
        assert Before(s'.workers[v]);
      }
      if InHand(s', j) {
        var v :| 0 <= v < POOL && Before(s'.workers[v]) && s'.workers[v].k == j;
        assert Before(s.workers[v]);
      }
    }
  }

  lemma FinishExact(s: State, w: nat)
    requires Exact(s) && Enabled(s, Finish(w))
    ensures Exact(Next(s, Finish(w)))
  {
    hide IdOf, IndexOf, Runs, Once, Genuine;
    var s', k := Next(s, Finish(w)), s.workers[w].k;
    StepKeeps(s, Finish(w));
    OthersApart(s, w);
    SlotsApart(s, s', k);
    SamePhases(s, s', w);
    forall d | d in s'.log ensures Genuine(s', d) {
      GenuineStays(s, s', d);
    }
  }

  lemma NotifyExact(s: State, w: nat)
    requires Exact(s) && Enabled(s, Notify(w))
    ensures Exact(Next(s, Notify(w)))
  {
    hide IdOf, IndexOf, Runs, Once, HasRun, Genuine;
    var s', k := Next(s, Notify(w)), s.workers[w].k;
    StepKeeps(s, Notify(w));
    SamePhases(s, s', w);
    forall j: nat, q: nat | HasRun(s, j, q) ensures HasRun(s', j, q) {
      HasRunStays(s, s', j, q);
    }
    forall d | d in s'.log ensures Genuine(s', d) {
      if d in s.log {
        GenuineStays(s, s', d);
      } else {
        CallbackGenuine(s', k, s.workers[w].result, d);
      }
    }
    if s'.log != s.log {
      forall j: nat ensures Runs(s'.log, j) == Runs(s.log, j) {
        RunsAppend(s.log, s'.log[|s.log|], j);
      }
    }
  }

  lemma CallbackGenuine(s: State, k: nat, r: nat, d: Deed)
    requires k < |s.submitted| && s.submitted[k].onComplete.Some? && HasRun(s, k, r)
    requires d == CalledBack(k, s.submitted[k].onComplete.value, r, s.submitted[k].userData)
    ensures Genuine(s, d)
  {
  }

  lemma OtherExact(s: State, a: Action)
    requires Exact(s) && Enabled(s, a) && (a.Collect? || a.Stop?)
    ensures Exact(Next(s, a))
  {
    hide IdOf, IndexOf, Runs, Once, HasRun, Genuine;
    var s' := Next(s, a);
    StepKeeps(s, a);
    forall j: nat, q: nat | HasRun(s, j, q) ensures HasRun(s', j, q) {
      HasRunStays(s, s', j, q);
    }
    forall d | d in s'.log ensures Genuine(s', d) {
      GenuineStays(s, s', d);
    }
    assert forall j: nat :: InHand(s', j) == InHand(s, j);
  }

  /** Every step that does not overwrite a busy slot keeps the tasks apart. */
  lemma StepExact(s: State, a: Action)
    requires Exact(s) && Enabled(s, a) && Careful(s, a)
    ensures Exact(Next(s, a))
  {
    hide Exact;
    match a
    case Submit(job) => SubmitExact(s, job);
    case Take(w) => TakeExact(s, w);
    case Begin(w) => BeginExact(s, w);
    case Call(w, r) => CallExact(s, w, r);
    case Store(w) => StoreExact(s, w);
    case Finish(w) => FinishExact(s, w);
    case Notify(w) => NotifyExact(s, w);
    case Collect(_) => OtherExact(s, a);
    case Stop => OtherExact(s, a);
  }

  // ----- runs -----

  ghost predicate CarefulTrace(states: seq<State>, actions: seq<Action>) {
    Trace(states, actions) && forall i :: 0 <= i < |actions| ==> Careful(states[i], actions[i])
  }

  lemma {:induction false} TraceExact(states: seq<State>, actions: seq<Action>, i: nat)
    requires CarefulTrace(states, actions) && i < |states|
    ensures Exact(states[i])
  {
    hide Exact, Next, Enabled, Careful;
    if i == 0 {
      InitExact();
    } else {
      TraceExact(states, actions, i - 1);
      StepExact(states[i - 1], actions[i - 1]);
    }
  }

  lemma InitExact()
    ensures Exact(Init())
  {
    InitKeeps();
  }

  /** Exactly once: at any point of a run, a task that has been taken and is not in a
      worker's hand has been called exactly once, or not at all if it has no function;
      every call had the task's own function and argument; every callback was the task's
      own and got the result of its own call. */
  lemma ExactlyOnce(states: seq<State>, actions: seq<Action>, i: nat, k: nat)
    requires CarefulTrace(states, actions) && i < |states|
    ensures
      var s := states[i];
      && Sized(s) && s.taken <= |s.submitted|
      && (k < s.taken && !InHand(s, k) ==> Runs(s.log, k) == Due(s, k))
      && (k >= s.taken ==> Runs(s.log, k) == 0)
      && forall d :: d in s.log ==> Genuine(s, d)
  {
    hide Runs, InHand, HasRun, Genuine;
    TraceExact(states, actions, i);
  }

  /** When the queue is empty and the workers are idle, every task has been run. */
  lemma AllRunAtRest(states: seq<State>, actions: seq<Action>, i: nat, k: nat)
    requires CarefulTrace(states, actions) && i < |states| && Sized(states[i])
    requires states[i].count == 0 && (forall w :: 0 <= w < POOL ==> states[i].workers[w].Idle?)
    requires k < |states[i].submitted|
    ensures Runs(states[i].log, k) == Due(states[i], k)
  {
    hide Runs, HasRun, Genuine;
    TraceExact(states, actions, i);
  }

  /** A function is never called through a null pointer. */
  lemma NeverNull(states: seq<State>, actions: seq<Action>, i: nat, w: nat, r: nat)
    requires CarefulTrace(states, actions) && i < |states| && w < POOL && Sized(states[i]) &&
      states[i].workers[w].Chosen?
    ensures Enabled(states[i], Call(w, r))
  {
    hide Runs, HasRun, Genuine, IndexOf;
    TraceExact(states, actions, i);
  }

  /** Waiting for a task that is found returns the result of its own call. */
  lemma CollectsOwn(states: seq<State>, actions: seq<Action>, i: nat, k: nat)
    requires CarefulTrace(states, actions) && i < |states| && Recent(states[i], k)
    ensures
      var (s', r) := AfterCollect(states[i], IdOf(k));
      r.Some? && states[i].submitted[k].func.Some? ==> HasRun(states[i], k, r.value)
  {
    hide Runs, HasRun, Genuine, IndexOf, IdOf;
    TraceExact(states, actions, i);
    FoundIffRecent(states[i], k);
  }

  // ----- without that care -----

  /** Worker `w` is busy with an earlier task in the slot that the next submission takes. */
  ghost predicate Overrun(s: State, w: nat) {
    && Kept(s) && Accepts(s) && w < POOL && !s.workers[w].Idle?
    && IndexOf(s.workers[w].k) == IndexOf(s.head)
  }

  /** A worker that has not yet made its call, when its slot is resubmitted, calls the new
      task's function with the new argument, and the new task has not been run by that. */
  lemma OverrunRunsOther(s: State, w: nat, job: Job, r: nat)
    requires Overrun(s, w) && Before(s.workers[w]) && job.func.Some?
    ensures
      var s1 := Next(s, Submit(job));
      && (s1.workers[w].Taken? ==> Enabled(s1, Begin(w)))
      && var s2 := if s1.workers[w].Taken? then Next(s1, Begin(w)) else s1;
      && Enabled(s2, Call(w, r))
      && var s3 := Next(s2, Call(w, r));
      && s3.log == s.log + [Ran(s.workers[w].k, job.func.value, job.arg, r)]
      && s3.submitted == s.submitted + [job] && Runs(s3.log, |s.submitted|) == 0
  {
    hide IdOf, IndexOf, Runs;
    var s1 := Next(s, Submit(job));
    var s2 := if s1.workers[w].Taken? then Next(s1, Begin(w)) else s1;
    var s3 := Next(s2, Call(w, r));
    RunsAppend(s.log, s3.log[|s.log|], |s.submitted|);
  }

  /** One that has made its call marks the new task completed, which has not been run; its
      result is that of the old task, or null if that was stored before. */
  lemma OverrunCompletesOther(s: State, w: nat, job: Job)
    requires Overrun(s, w) && (s.workers[w].Called? || s.workers[w].Stored?)
    ensures
      var n, p, s1 := |s.submitted|, s.workers[w], Next(s, Submit(job));
      && (p.Called? ==> Enabled(s1, Store(w)))
      && var s2 := if p.Called? then Next(s1, Store(w)) else s1;
      && Enabled(s2, Finish(w))
      && var s3 := Next(s2, Finish(w));
      && s3.slots[IndexOf(n)] == Slot(IdOf(n), Completed, job, if p.Called? then p.result else NULL, true)
      && s3.submitted == s.submitted + [job] && Runs(s3.log, n) == 0
  {
    hide IdOf, IndexOf, Runs;
    WrapIndex(|s.submitted|);
  }

  /** One that has already tested its function calls through a null pointer exactly when the
      new task has none. */
  lemma OverrunCallsNull(s: State, w: nat, job: Job, r: nat)
    requires Overrun(s, w) && s.workers[w].Chosen?
    ensures Enabled(Next(s, Submit(job)), Call(w, r)) <==> job.func.Some?
  {
    hide IdOf, IndexOf, Runs;
  }

  /** One that has not yet tested it marks the new task failed then, and never runs its own. */
  lemma OverrunDropsTask(s: State, w: nat, job: Job)
    requires Overrun(s, w) && s.workers[w].Taken? && job.func.None?
    ensures
      var k, n, s1 := s.workers[w].k, |s.submitted|, Next(s, Submit(job));
      && Enabled(s1, Begin(w))
      && var s2 := Next(s1, Begin(w));
      && s2.workers[w].Idle? && s2.slots[IndexOf(n)] == Slot(IdOf(n), Failed, job, NULL, true)
      && s2.log == s.log && Runs(s2.log, k) == 0
  {
    hide IdOf, IndexOf, Runs;
    WrapIndex(|s.submitted|);
  }

  /** One that has marked its task completed calls the new task's callback, if there is one,
      with a null result, and its own task's never. */
  lemma OverrunNotifiesOther(s: State, w: nat, job: Job)
    requires Overrun(s, w) && s.workers[w].Finished?
    ensures
      var s1 := Next(s, Submit(job));
      && Enabled(s1, Notify(w))
      && var s2 := Next(s1, Notify(w));
      && s2.workers[w].Idle? && Runs(s.log, |s.submitted|) == 0
      && s2.log == s.log + if job.onComplete.None? then []
                           else [CalledBack(s.workers[w].k, job.onComplete.value, NULL, job.userData)]
  {
    hide IdOf, IndexOf, Runs;
    assert s.log + [] == s.log;
  }

  /** Such states are reached: one task is taken, and 4095 more are submitted before the
      worker goes on. */
  lemma {:induction false} OverrunReached(job: Job, n: nat) returns (states: seq<State>, actions: seq<Action>)
    requires n < MAX_TASKS
    ensures Trace(states, actions)
    ensures
      var s := states[|actions|];
      Kept(s) && s.running && s.count == n && s.submitted == seq(n + 1, _ => job) && s.workers[0] == Taken(0)
    ensures n == MAX_TASKS - 1 ==> Overrun(states[|actions|], 0)
    decreases n
  {
    if n == 0 {
      var s1 := Next(Init(), Submit(job));
      states, actions := [Init(), s1, Next(s1, Take(0))], [Submit(job), Take(0)];
    } else {
      states, actions := OverrunReached(job, n - 1);
      states := states + [Next(states[|actions|], Submit(job))];
      actions := actions + [Submit(job)];
    }
    TraceKeeps(states, actions, |actions|);
    WrapIndex(n + 1);
    if n == MAX_TASKS - 1 {
      ShiftIndex(0);
    }
  }

  /** The steps of a worker, in order. */
  function WorkerStep(i: nat, r: nat): Action {
    if i == 0 then Begin(0) else if i == 1 then Call(0, r) else if i == 2 then Store(0) else Finish(0)
  }

  function PhaseAfter(i: nat, r: nat): Phase {
    if i == 0 then Taken(0) else if i == 1 then Chosen(0) else if i == 2 then Called(0, r)
    else if i == 3 then Stored(0, r) else Finished(0, r)
  }

  /** And from there in every phase, as the worker goes on alone. */
  lemma {:induction false} OverrunInEveryPhase(job: Job, r: nat, i: nat)
      returns (states: seq<State>, actions: seq<Action>)
    requires i <= 4 && job.func.Some?
    ensures Trace(states, actions)
    ensures var s := states[|actions|];
      Overrun(s, 0) && s.workers[0] == PhaseAfter(i, r) && s.submitted == seq(MAX_TASKS, _ => job)
    decreases i
  {
    hide IndexOf, IdOf;
    if i == 0 {
      states, actions := OverrunReached(job, MAX_TASKS - 1);
    } else {
      states, actions := OverrunInEveryPhase(job, r, i - 1);
      ghost var s := states[|actions|];
      WorkerGoesOn(s, job, r, i - 1);
      states := states + [Next(s, WorkerStep(i - 1, r))];
      actions := actions + [WorkerStep(i - 1, r)];
    }
  }

  lemma WorkerGoesOn(s: State, job: Job, r: nat, i: nat)
    requires i <= 3 && Overrun(s, 0) && s.workers[0] == PhaseAfter(i, r) && job.func.Some?
    requires s.submitted == seq(MAX_TASKS, _ => job)
    ensures Enabled(s, WorkerStep(i, r))
    ensures var s' := Next(s, WorkerStep(i, r));
      Overrun(s', 0) && s'.workers[0] == PhaseAfter(i + 1, r) && s'.submitted == s.submitted
  {
    hide Runs, IdOf;
    assert Recent(s, 0);
    StepKeeps(s, WorkerStep(i, r));
  }
}
