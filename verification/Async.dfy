/** The thread pool (src/runtime/async.c) as interleaved steps: a lock-protected section
    is one step, and so is each access of a worker to its slot outside the lock. */
module Async {
  import opened Wrappers

  const MAX_TASKS: nat := 4096
  const POOL: nat := 4
  const WORD: nat := 0x1_0000_0000
  const NULL: nat := 0

  datatype Status = Pending | Running | Completed | Failed

  /** What a caller submits. Functions and pointers are numbers. */
  datatype Job = Job(func: Option<nat>, arg: nat, onComplete: Option<nat>, userData: nat)

  datatype Slot = Slot(id: nat, status: Status, job: Job, result: nat, active: bool)

  const NO_JOB: Job := Job(None, NULL, None, NULL)
  const UNUSED: Slot := Slot(0, Pending, NO_JOB, NULL, false)

  /** Where a worker is in its loop, with the number k of the task it took. */
  datatype Phase =
    | Idle
    | Taken(k: nat)
    | Chosen(k: nat)
    | Called(k: nat, result: nat)
    | Stored(k: nat, result: nat)
    | Finished(k: nat, result: nat)

  /** What workers have done: called a task's function, called a callback. */
  datatype Deed =
    | Ran(k: nat, func: nat, arg: nat, result: nat)
    | CalledBack(k: nat, callback: nat, result: nat, userData: nat)

  /** `submitted`, `taken` and `log` are the history. */
  datatype State = State(slots: seq<Slot>, head: nat, tail: nat, count: nat, nextId: nat, running: bool,
    workers: seq<Phase>, submitted: seq<Job>, taken: nat, log: seq<Deed>)

  datatype Action =
    | Submit(job: Job)
    | Take(w: nat)
    | Begin(w: nat)
    | Call(w: nat, result: nat)
    | Store(w: nat)
    | Finish(w: nat)
    | Notify(w: nat)
    | Collect(id: nat)
    | Stop

  function Init(): State {
    State(seq(MAX_TASKS, i => UNUSED), 0, 0, 0, 1, true, [Idle, Idle, Idle, Idle], [], 0, [])
  }

  function IndexOf(k: nat): (i: nat)
    ensures i < MAX_TASKS
  {
    k % MAX_TASKS
  }

  /** The identifier of the k-th accepted task. */
  function IdOf(k: nat): nat {
    (k + 1) % WORD
  }

  predicate Sized(s: State) {
    |s.slots| == MAX_TASKS && |s.workers| == POOL
  }

  // ----- the steps -----

  predicate Accepts(s: State) {
    s.running && s.count < MAX_TASKS
  }

  /** sky_async_submit: nothing is queued when the pool is stopped or the queue full. */
  function AfterSubmit(s: State, job: Job): (State, nat)
    requires Sized(s)
  {
    if !Accepts(s) then (s, 0)
    else
      (s.(slots := s.slots[IndexOf(s.head) := Slot(s.nextId, Pending, job, NULL, true)],
          head := (s.head + 1) % WORD, count := s.count + 1, nextId := (s.nextId + 1) % WORD,
          submitted := s.submitted + [job]), s.nextId)
  }

  /** The worker's locked section. */
  function AfterTake(s: State, w: nat): State
    requires Sized(s) && w < POOL && s.count > 0
  {
    var i := IndexOf(s.tail);
    s.(slots := s.slots[i := s.slots[i].(status := Running)],
       tail := (s.tail + 1) % WORD, count := s.count - 1,
       workers := s.workers[w := Taken(s.taken)], taken := s.taken + 1)
  }

  function With(s: State, w: nat, k: nat, slot: Slot, phase: Phase): State
    requires Sized(s) && w < POOL
  {
    s.(slots := s.slots[IndexOf(k) := slot], workers := s.workers[w := phase])
  }

  /** The slot in which `sky_async_status` and `sky_async_wait` find a ticket. */
  function Find(slots: seq<Slot>, id: nat, from: nat): (r: Option<nat>)
    requires from <= |slots|
    ensures r.Some? ==> from <= r.value < |slots| && slots[r.value].active && slots[r.value].id == id
    ensures forall j :: from <= j < (if r.Some? then r.value else |slots|) ==> !(slots[j].active && slots[j].id == id)
    decreases |slots| - from
  {
    if from == |slots| then None
    else if slots[from].active && slots[from].id == id then Some(from)
    else Find(slots, id, from + 1)
  }

  /** One pass of `sky_async_wait`: the result, when the task has ended. */
  function AfterCollect(s: State, id: nat): (State, Option<nat>) {
    match Find(s.slots, id, 0)
    case None => (s, None)
    case Some(i) =>
      if s.slots[i].status == Completed || s.slots[i].status == Failed then
        (s.(slots := s.slots[i := s.slots[i].(active := false)]), Some(s.slots[i].result))
      else (s, None)
  }

  function StatusOf(s: State, id: nat): Status {
    match Find(s.slots, id, 0)
    case None => Failed
    case Some(i) => s.slots[i].status
  }

  predicate Enabled(s: State, a: Action) {
    Sized(s) &&
    match a
    case Submit(_) => true
    case Take(w) => w < POOL && s.workers[w].Idle? && s.running && s.count > 0
    case Begin(w) => w < POOL && s.workers[w].Taken?
    case Call(w, _) => w < POOL && s.workers[w].Chosen? && s.slots[IndexOf(s.workers[w].k)].job.func.Some?
    case Store(w) => w < POOL && s.workers[w].Called?
    case Finish(w) => w < POOL && s.workers[w].Stored?
    case Notify(w) => w < POOL && s.workers[w].Finished?
    case Collect(_) => true
    case Stop => true
  }

  function Next(s: State, a: Action): State
    requires Enabled(s, a)
  {
    match a
    case Submit(job) => AfterSubmit(s, job).0
    case Take(w) => AfterTake(s, w)
    case Begin(w) =>
      var k := s.workers[w].k;
      var slot := s.slots[IndexOf(k)];
      if slot.job.func.Some? then With(s, w, k, slot, Chosen(k)) else With(s, w, k, slot.(status := Failed), Idle)
    case Call(w, result) =>
      var k := s.workers[w].k;
      var job := s.slots[IndexOf(k)].job;
      s.(workers := s.workers[w := Called(k, result)], log := s.log + [Ran(k, job.func.value, job.arg, result)])
    case Store(w) =>
      var p := s.workers[w];
      With(s, w, p.k, s.slots[IndexOf(p.k)].(result := p.result), Stored(p.k, p.result))
    case Finish(w) =>
      var p := s.workers[w];
      With(s, w, p.k, s.slots[IndexOf(p.k)].(status := Completed), Finished(p.k, p.result))
    case Notify(w) =>
      var k := s.workers[w].k;
      var slot := s.slots[IndexOf(k)];
      s.(workers := s.workers[w := Idle],
         log := if slot.job.onComplete.None? then s.log
                else s.log + [CalledBack(k, slot.job.onComplete.value, slot.result, slot.job.userData)])
    case Collect(id) => AfterCollect(s, id).0
    case Stop => s.(running := false)
  }

  /** The states of a run. */
  predicate Trace(states: seq<State>, actions: seq<Action>) {
    && |states| == |actions| + 1 && states[0] == Init()
    && forall i :: 0 <= i < |actions| ==> Enabled(states[i], actions[i]) && states[i + 1] == Next(states[i], actions[i])
  }

  // ----- what every run keeps -----

  /** How often the function of task `k` has been called. */
  function Runs(log: seq<Deed>, k: nat): nat {
    if log == [] then 0
    else
      var d := log[|log| - 1];
      Runs(log[..|log| - 1], k) + if d.Ran? && d.k == k then 1 else 0
  }

  lemma RunsAppend(log: seq<Deed>, d: Deed, k: nat)
    ensures Runs(log + [d], k) == Runs(log, k) + if d.Ran? && d.k == k then 1 else 0
  {
    assert (log + [d])[..|log|] == log;
  }

  predicate Before(p: Phase) {
    p.Taken? || p.Chosen?
  }

  /** Task `k` is among the last 4096 submitted. */
  predicate Recent(s: State, k: nat) {
    k < |s.submitted| <= k + MAX_TASKS
  }

  /** The counters are those of a queue, across the wrap of the 32-bit indices. */
  ghost predicate Counted(s: State) {
    && Sized(s)
    && s.taken <= |s.submitted| && s.count == |s.submitted| - s.taken <= MAX_TASKS
    && s.head == |s.submitted| % WORD && s.tail == s.taken % WORD && s.nextId == IdOf(|s.submitted|)
  }

  /** Every slot holds the job and the identifier of the last task submitted to it. */
  ghost predicate Holding(s: State)
    requires Sized(s)
  {
    && (forall k: nat :: Recent(s, k) ==>
      s.slots[IndexOf(k)].job == s.submitted[k] && s.slots[IndexOf(k)].id == IdOf(k))
    && (forall i :: |s.submitted| <= i < MAX_TASKS ==> !s.slots[i].active)
  }

  /** No task is taken twice, and none is run twice. */
  ghost predicate Once(s: State)
    requires Sized(s)
  {
    && (forall w :: 0 <= w < POOL && !s.workers[w].Idle? ==> s.workers[w].k < s.taken)
    && (forall v, w :: 0 <= v < w < POOL && !s.workers[v].Idle? && !s.workers[w].Idle? ==>
      s.workers[v].k != s.workers[w].k)
    && (forall k: nat :: Runs(s.log, k) <= 1 && (k >= s.taken ==> Runs(s.log, k) == 0))
    && (forall w :: 0 <= w < POOL && Before(s.workers[w]) ==> Runs(s.log, s.workers[w].k) == 0)
  }

  ghost predicate Kept(s: State) {
    Counted(s) && Holding(s) && Once(s)
  }

  lemma WrapIndex(n: nat)
    ensures IndexOf(n % WORD) == IndexOf(n)
  {
    var q := n / WORD;
    assert n == q * 0x10_0000 * MAX_TASKS + n % WORD;
    assert (q * 0x10_0000 * MAX_TASKS + n % WORD) % MAX_TASKS == n % WORD % MAX_TASKS;
  }

  lemma WrapNext(n: nat)
    ensures (n % WORD + 1) % WORD == (n + 1) % WORD
  {
  }

  /** Two recent tasks never share a slot. */
  lemma RecentApart(k: nat, l: nat)
    requires k < l < k + MAX_TASKS
    ensures IndexOf(k) != IndexOf(l)
  {
  }

  lemma IdNext(n: nat)
    ensures IdOf(n + 1) == (IdOf(n) + 1) % WORD
  {
  }

  lemma SmallIndex(n: nat)
    requires n < MAX_TASKS
    ensures IndexOf(n) == n
  {
  }

  lemma SubmitKeeps(s: State, job: Job)
    requires Kept(s)
    ensures Kept(AfterSubmit(s, job).0)
  {
    hide IdOf, IndexOf, Runs;
    var n, s' := |s.submitted|, AfterSubmit(s, job).0;
    WrapIndex(n);
    WrapNext(n);
    IdNext(n);
    if Accepts(s) {
      forall k: nat | Recent(s', k)
        ensures s'.slots[IndexOf(k)].job == s'.submitted[k] && s'.slots[IndexOf(k)].id == IdOf(k)
      {
        if k < n {
          RecentApart(k, n);
        }
      }
      if n < MAX_TASKS {
        SmallIndex(n);
      }
    }
  }

  lemma TakeKeeps(s: State, w: nat)
    requires Kept(s) && w < POOL && s.workers[w].Idle? && s.count > 0
    ensures Kept(AfterTake(s, w))
  {
    hide IdOf, IndexOf, Runs;
    WrapNext(s.taken);
  }

  /** The slots after a step of a worker or a waiting caller: nothing that a submission
      sets has changed. */
  ghost predicate SameJobs(s: State, s': State) {
    && Sized(s) && Sized(s')
    && forall i :: 0 <= i < MAX_TASKS ==>
      && s'.slots[i].job == s.slots[i].job && s'.slots[i].id == s.slots[i].id
      && (s'.slots[i].active ==> s.slots[i].active)
  }

  lemma SameJobsKeep(s: State, s': State)
    requires Counted(s) && Holding(s) && SameJobs(s, s')
    requires (s'.submitted, s'.taken, s'.head, s'.tail, s'.count, s'.nextId) ==
      (s.submitted, s.taken, s.head, s.tail, s.count, s.nextId)
    ensures Counted(s') && Holding(s')
  {
    hide IdOf, IndexOf;
  }

  predicate Local(a: Action) {
    !a.Submit? && !a.Take?
  }

  lemma LocalKeeps(s: State, a: Action)
    requires Kept(s) && Enabled(s, a) && Local(a)
    ensures SameJobs(s, Next(s, a)) && Counted(Next(s, a)) && Holding(Next(s, a))
  {
    hide IdOf, IndexOf, Runs, Once;
    SameJobsKeep(s, Next(s, a));
  }

  lemma LocalOnce(s: State, a: Action)
    requires Kept(s) && Enabled(s, a) && Local(a)
    ensures Once(Next(s, a))
  {
    hide IdOf, IndexOf, Runs, Holding;
    var s' := Next(s, a);
    if a.Call? {
      forall k: nat ensures Runs(s'.log, k) == Runs(s.log, k) + if k == s.workers[a.w].k then 1 else 0 {
        RunsAppend(s.log, s'.log[|s.log|], k);
      }
    } else if a.Notify? && s'.log != s.log {
      forall k: nat ensures Runs(s'.log, k) == Runs(s.log, k) {
        RunsAppend(s.log, s'.log[|s.log|], k);
      }
    }
  }

  /** Every step, with no assumption on who runs when, keeps the queue a queue. */
  lemma StepKeeps(s: State, a: Action)
    requires Kept(s) && Enabled(s, a)
    ensures Kept(Next(s, a))
  {
    hide AfterSubmit, AfterTake, Counted, Holding, Once;
    if a.Submit? {
      SubmitKeeps(s, a.job);
    } else if a.Take? {
      assert Kept(AfterTake(s, a.w)) by { TakeKeeps(s, a.w); }
    } else {
      LocalKeeps(s, a);
      LocalOnce(s, a);
    }
  }

  lemma InitKeeps()
    ensures Kept(Init())
  {
  }

  lemma {:induction false} TraceKeeps(states: seq<State>, actions: seq<Action>, i: nat)
    requires Trace(states, actions) && i < |states|
    ensures Kept(states[i])
  {
    hide Kept, Next, Enabled;
    if i == 0 {
      InitKeeps();
    } else {
      TraceKeeps(states, actions, i - 1);
      StepKeeps(states[i - 1], actions[i - 1]);
    }
  }

  /** First in, first out, in every run: the k-th task taken is the k-th submitted, and its
      slot still holds its job and identifier then, whatever late workers do. */
  lemma TakesInOrder(states: seq<State>, actions: seq<Action>, i: nat)
    requires Trace(states, actions) && i < |actions| && actions[i].Take?
    ensures
      var s := states[i];
      var slot := s.slots[IndexOf(s.tail)];
      && s.taken < |s.submitted| && states[i + 1].workers[actions[i].w] == Taken(s.taken)
      && slot.job == s.submitted[s.taken] && slot.id == IdOf(s.taken)
  {
    hide Runs, Once;
    TraceKeeps(states, actions, i);
    var s := states[i];
    assert Recent(s, s.taken);
    WrapIndex(s.taken);
  }

  /** The identifiers in use are pairwise distinct, also after they have wrapped. */
  lemma LiveIdsDistinct(states: seq<State>, actions: seq<Action>, n: nat)
    requires Trace(states, actions) && n < |states|
    ensures
      var slots := states[n].slots;
      forall i, j :: 0 <= i < j < |slots| && slots[i].active && slots[j].active ==> slots[i].id != slots[j].id
  {
    hide IdOf;
    TraceKeeps(states, actions, n);
    var slots := states[n].slots;
    forall i, j | 0 <= i < j < |slots| && slots[i].active && slots[j].active ensures slots[i].id != slots[j].id {
      var k := LastIn(states[n], i);
      var l := LastIn(states[n], j);
      IdsApart(k, l);
    }
  }

  /** The last task submitted to slot `i`. */
  lemma LastIn(s: State, i: nat) returns (k: nat)
    requires Kept(s) && i < MAX_TASKS && s.slots[i].active
    ensures Recent(s, k) && IndexOf(k) == i && s.slots[i].id == IdOf(k)
  {
    hide Runs, Once, IdOf;
    var n := |s.submitted|;
    assert i < n;
    k := i + (n - 1 - i) / MAX_TASKS * MAX_TASKS;
    assert k % MAX_TASKS == i;
  }

  lemma IdsApart(k: nat, l: nat)
    requires k < l < k + WORD || l < k < l + WORD
    ensures IdOf(k) != IdOf(l)
  {
  }

  /** The ticket that says "refused" is also given out: to every 2^32-th task. */
  lemma TicketZero(k: nat)
    ensures IdOf(k) == 0 <==> k % WORD == WORD - 1
  {
  }

  /** A ticket is found exactly while its task is among the last 4096 and not collected;
      after that a caller of `sky_async_wait` finds nothing and waits for ever. */
  lemma FoundIffRecent(s: State, k: nat)
    requires Kept(s) && k < |s.submitted| <= k + WORD - MAX_TASKS
    ensures Find(s.slots, IdOf(k), 0) == if Recent(s, k) && s.slots[IndexOf(k)].active then Some(IndexOf(k)) else None
  {
    hide IdOf, IndexOf, Runs, Once;
    var found := Find(s.slots, IdOf(k), 0);
    if found.Some? {
      var l := LastIn(s, found.value);
      if k != l {
        IdsApart(k, l);
      }
    }
  }
}
