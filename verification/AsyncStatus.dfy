/** What a caller sees of a task: its status in every phase, and when waiting for it returns
    (src/runtime/async.c:100-134). */
module AsyncStatus {
  import opened Async
  import opened AsyncOnce

  /** A worker has task `k` and has not yet marked it completed. */
  ghost predicate Busy(s: State, k: nat)
    requires Sized(s)
  {
    exists w :: 0 <= w < POOL && !s.workers[w].Idle? && !s.workers[w].Finished? && s.workers[w].k == k
  }

  /** The status that task `k` is to have. */
  ghost function Expected(s: State, k: nat): Status
    requires Sized(s) && k < |s.submitted|
  {
    if k >= s.taken then Pending
    else if Busy(s, k) then Running
    else if s.submitted[k].func.Some? then Completed
    else Failed
  }

  ghost predicate Told(s: State) {
    Sized(s) && forall k: nat :: Recent(s, k) ==> s.slots[IndexOf(k)].status == Expected(s, k)
  }

  /** A step of worker `w` leaves what is expected of other tasks alone. */
  lemma OthersExpected(s: State, s': State, w: nat, k: nat)
    requires Exact(s) && Sized(s') && w < POOL && k < |s.submitted| && s'.submitted == s.submitted &&
      s'.taken == s.taken
    requires forall v :: 0 <= v < POOL && v != w ==> s'.workers[v] == s.workers[v]
    requires s.workers[w].Idle? || s.workers[w].k != k
    requires s'.workers[w].Idle? || s'.workers[w].k != k
    ensures Expected(s', k) == Expected(s, k)
  {
    if Busy(s, k) {
      var v :| 0 <= v < POOL && !s.workers[v].Idle? && !s.workers[v].Finished? && s.workers[v].k == k;
      assert s'.workers[v] == s.workers[v];
    }
    if Busy(s', k) {
      var v :| 0 <= v < POOL && !s'.workers[v].Idle? && !s'.workers[v].Finished? && s'.workers[v].k == k;
      assert s'.workers[v] == s.workers[v];
    }
  }

  /** What a step of worker `w` on its own task `k` makes of it. */
  lemma OwnExpected(s: State, s': State, w: nat, k: nat)
    requires Exact(s) && Sized(s') && w < POOL && !s.workers[w].Idle? && s.workers[w].k == k
    requires s'.submitted == s.submitted && s'.taken == s.taken
    requires forall v :: 0 <= v < POOL && v != w ==> s'.workers[v] == s.workers[v]
    requires s'.workers[w].Idle? || s'.workers[w].k == k
    ensures k < s.taken <= |s.submitted|
    ensures Expected(s', k) ==
      if !s'.workers[w].Idle? && !s'.workers[w].Finished? then Running
      else if s.submitted[k].func.Some? then Completed else Failed
  {
    hide Runs, HasRun, Genuine, IndexOf, IdOf;
    if !s'.workers[w].Idle? && !s'.workers[w].Finished? {
      assert Busy(s', k);
    }
  }

  /** A step of worker `w` on the slot of its own task, which ends with the status expected. */
  lemma WorkerTold(s: State, s': State, w: nat)
    requires Exact(s) && Told(s) && Sized(s') && w < POOL && !s.workers[w].Idle?
    requires s'.submitted == s.submitted && s'.taken == s.taken
    requires forall v :: 0 <= v < POOL && v != w ==> s'.workers[v] == s.workers[v]
    requires forall i :: 0 <= i < MAX_TASKS && i != IndexOf(s.workers[w].k) ==> s'.slots[i] == s.slots[i]
    requires
      var p, k := s'.workers[w], s.workers[w].k;
      && (p.Idle? || p.k == k) && k < |s.submitted|
      && s'.slots[IndexOf(k)].status ==
         if !p.Idle? && !p.Finished? then Running else if s.submitted[k].func.Some? then Completed else Failed
    ensures Told(s')
  {
    hide Runs, Genuine, IdOf, IndexOf, HasRun, Expected;
    var k := s.workers[w].k;
    OwnExpected(s, s', w, k);
    assert Recent(s, k);
    SlotsApart(s, s', k);
    forall l: nat | Recent(s', l) ensures s'.slots[IndexOf(l)].status == Expected(s', l) {
      if l != k {
        OthersExpected(s, s', w, l);
      }
    }
  }

  /** The slot of a busy worker holds its own task. */
  lemma OwnSlot(s: State, w: nat)
    requires Exact(s) && w < POOL && !s.workers[w].Idle?
    ensures var k := s.workers[w].k; Recent(s, k) && s.slots[IndexOf(k)].job == s.submitted[k]
    ensures var p := s.workers[w]; p.Chosen? || p.Called? || p.Stored? || p.Finished? ==> s.submitted[p.k].func.Some?
  {
    hide Runs, Genuine, IdOf, IndexOf;
  }

  lemma OwnStatus(s: State, w: nat)
    requires Exact(s) && Told(s) && w < POOL && !s.workers[w].Idle?
    ensures var p := s.workers[w]; s.slots[IndexOf(p.k)].status == if p.Finished? then Completed else Running
  {
    hide Runs, Genuine, IdOf, IndexOf, HasRun;
    OwnSlot(s, w);
    OwnExpected(s, s, w, s.workers[w].k);
  }

  lemma StepsTold(s: State, a: Action, w: nat)
    requires Exact(s) && Told(s) && Enabled(s, a)
    requires a == Begin(w) || (a.Call? && a.w == w) || a == Store(w) || a == Finish(w) || a == Notify(w)
    ensures Told(Next(s, a))
  {
    hide Runs, Genuine, IdOf, IndexOf, HasRun, Told, Exact;
    OwnSlot(s, w);
    OwnStatus(s, w);
    WorkerTold(s, Next(s, a), w);
  }

  lemma TakeTold(s: State, w: nat)
    requires Exact(s) && Told(s) && Enabled(s, Take(w))
    ensures Told(Next(s, Take(w)))
  {
    hide Runs, Genuine, IdOf, IndexOf, HasRun;
    var s', k := Next(s, Take(w)), s.taken;
    WrapIndex(k);
    assert Recent(s, k);
    SlotsApart(s, s', k);
    assert Busy(s', k) by { assert s'.workers[w].k == k; }
    forall l: nat | Recent(s', l) ensures s'.slots[IndexOf(l)].status == Expected(s', l) {
      if l != k {
        TakeKeepsBusy(s, w, l);
      }
    }
  }

  lemma TakeKeepsBusy(s: State, w: nat, l: nat)
    requires Exact(s) && Enabled(s, Take(w)) && l != s.taken
    ensures Busy(Next(s, Take(w)), l) <==> Busy(s, l)
  {
    hide Runs, Genuine, IdOf, IndexOf, HasRun;
    var s' := Next(s, Take(w));
    if Busy(s, l) {
      var v :| 0 <= v < POOL && !s.workers[v].Idle? && !s.workers[v].Finished? && s.workers[v].k == l;
      assert s'.workers[v] == s.workers[v];
    }
  }

  lemma SubmitTold(s: State, job: Job)
    requires Exact(s) && Told(s) && Careful(s, Submit(job))
    ensures Told(Next(s, Submit(job)))
  {
    hide Runs, Genuine, IdOf, IndexOf, HasRun;
    var s', n := Next(s, Submit(job)), |s.submitted|;
    if Accepts(s) {
      WrapIndex(n);
      forall l: nat | Recent(s', l) ensures s'.slots[IndexOf(l)].status == Expected(s', l) {
        if l < n {
          RecentApart(l, n);
          assert Busy(s', l) == Busy(s, l);
        }
      }
    }
  }

  lemma OtherTold(s: State, a: Action)
    requires Exact(s) && Told(s) && Enabled(s, a) && (a.Collect? || a.Stop?)
    ensures Told(Next(s, a))
  {
    hide Runs, Genuine, IdOf, IndexOf, HasRun;
    var s' := Next(s, a);
    forall l: nat | Recent(s', l) ensures s'.slots[IndexOf(l)].status == Expected(s', l) {
      assert Busy(s', l) == Busy(s, l);
    }
  }

  lemma StepTold(s: State, a: Action)
    requires Exact(s) && Told(s) && Enabled(s, a) && Careful(s, a)
    ensures Told(Next(s, a))
  {
    hide Exact, Told, Next, Careful;
    match a
    case Submit(job) => SubmitTold(s, job);
    case Take(w) => TakeTold(s, w);
    case Begin(w) => StepsTold(s, a, w);
    case Call(w, _) => StepsTold(s, a, w);
    case Store(w) => StepsTold(s, a, w);
    case Finish(w) => StepsTold(s, a, w);
    case Notify(w) => StepsTold(s, a, w);
    case Collect(_) => OtherTold(s, a);
    case Stop => OtherTold(s, a);
  }

  lemma {:induction false} TraceTold(states: seq<State>, actions: seq<Action>, i: nat)
    requires CarefulTrace(states, actions) && i < |states|
    ensures Told(states[i])
  {
    hide Exact, Told, Next, Enabled, Careful;
    if i == 0 {
      InitTold();
    } else {
      TraceTold(states, actions, i - 1);
      TraceExact(states, actions, i - 1);
      StepTold(states[i - 1], actions[i - 1]);
    }
  }

  lemma InitTold()
    ensures Told(Init())
  {
  }

  // ----- what the caller sees -----

  /** The status of a ticket that is found: pending until a worker takes the task, running
      until the worker has marked it, then completed, or failed if it has no function. A
      ticket that is not found is failed. */
  lemma StatusTells(states: seq<State>, actions: seq<Action>, i: nat, k: nat)
    requires CarefulTrace(states, actions) && i < |states| && k < |states[i].submitted| <= k + WORD - MAX_TASKS
    ensures
      var s := states[i];
      && Sized(s)
      && StatusOf(s, IdOf(k)) ==
         if !Recent(s, k) || !s.slots[IndexOf(k)].active then Failed
         else if k >= s.taken then Pending
         else if Busy(s, k) then Running
         else if s.submitted[k].func.Some? then Completed
         else Failed
  {
    hide Runs, Genuine, IdOf, IndexOf, HasRun;
    TraceExact(states, actions, i);
    TraceTold(states, actions, i);
    FoundIffRecent(states[i], k);
  }

  /** A pass of waiting for a ticket that is found returns if and only if the task has been
      taken and its worker is done with it; it then returns the result of the task's own
      call, if it has a function, and gives the ticket back. */
  lemma WaitReturns(states: seq<State>, actions: seq<Action>, i: nat, k: nat)
    requires CarefulTrace(states, actions) && i < |states| && Recent(states[i], k) && Sized(states[i])
    requires states[i].slots[IndexOf(k)].active
    ensures
      var s := states[i];
      var (s', r) := AfterCollect(s, IdOf(k));
      && (r.Some? <==> k < s.taken && !Busy(s, k))
      && (r.Some? && s.submitted[k].func.Some? ==> HasRun(s, k, r.value))
      && s' == if r.Some? then s.(slots := s.slots[IndexOf(k) := s.slots[IndexOf(k)].(active := false)]) else s
  {
    hide Runs, Genuine, IdOf, IndexOf, HasRun;
    TraceExact(states, actions, i);
    TraceTold(states, actions, i);
    FoundIffRecent(states[i], k);
  }
}
