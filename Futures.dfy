/** The completion state shared between a future that waits on a Julia task
    and the Julia task itself. The state sits behind a mutex; each of the
    three events that touch it (the constructor storing the scheduled task,
    a poll of the future, the engine's call of `wake_task`) is one critical
    section, so each is one atomic step and any interleaving of them is a
    sequence of steps. A panic while the guard is held poisons the mutex. */
module Futures {
  import opened Common

  /** A waker handed to `poll`, known by its identity. */
  datatype Waker = Waker(id: nat)

  /** A scheduled Julia task, known by its address. */
  datatype Task = Task(addr: nat)

  /** The outcome of `fetch` on a finished task: `Ok` with the result's
      address, or `Err` with the address of the exception it raised. */
  type Fetched = Result<nat, nat>

  /** The state behind the mutex, with the mutex's poison flag. */
  datatype Shared = Shared(completed: bool, waker: Option<Waker>, task: Option<Task>, poisoned: bool)

  /** The state as the constructor allocates it. */
  const Initial := Shared(false, None, None, false)

  /** The critical sections that touch the shared state. */
  datatype Event =
    | StoreTask(t: Task)   // the constructor, after scheduling
    | PollWith(w: Waker)   // `poll` with the context's waker
    | WakeTask             // the engine reports the task finished

  /** What a critical section produced. `Panicked` is a panic of the calling
      thread; `Woke(Some(w))` means the waker w was woken. */
  datatype Reply = Stored | Ready(result: Fetched) | Pending | Woke(woken: Option<Waker>) | Panicked

  /** One atomic step. `fetch` is the engine's `fetch` on a finished task. */
  function Step(s: Shared, e: Event, fetch: Task -> Fetched): (p: (Shared, Reply))
    ensures s.completed ==> p.0.completed
    ensures s.task.Some? ==> p.0.task.Some?
    ensures !e.StoreTask? ==> p.0.task == s.task
    ensures s.poisoned ==> p.0.poisoned
    ensures p.1 == Panicked <==> (s.poisoned && !e.WakeTask?) || (e.PollWith? && s.completed && s.task.None?)
  {
    match e
    case StoreTask(t) =>
      if s.poisoned then (s, Panicked) else (s.(task := Some(t)), Stored)
    case PollWith(w) =>
      if s.poisoned then (s, Panicked)
      else if s.completed then
        if s.task.Some? then (s, Ready(fetch(s.task.value)))
        else (s.(poisoned := true), Panicked)
      else if s.waker.None? then (s.(waker := Some(w)), Pending)
      else (s, Pending)
    case WakeTask =>
      if s.poisoned then (s, Woke(None))
      else (s.(completed := true, waker := None), Woke(s.waker))
  }

  /** The steps of a sequence of events, in order: the final state and one
      reply per event. */
  function Run(s: Shared, es: seq<Event>, fetch: Task -> Fetched): (r: (Shared, seq<Reply>))
    ensures |r.1| == |es|
    decreases |es|
  {
    if es == [] then (s, [])
    else
      var p := Step(s, es[0], fetch);
      var rest := Run(p.0, es[1..], fetch);
      (rest.0, [p.1] + rest.1)
  }

  /** Running two sequences of events one after the other is running their
      concatenation. */
  lemma {:induction false} RunAppend(s: Shared, a: seq<Event>, b: seq<Event>, fetch: Task -> Fetched)
    ensures var ra := Run(s, a, fetch);
      var rb := Run(ra.0, b, fetch);
      Run(s, a + b, fetch) == (rb.0, ra.1 + rb.1)
    decreases |a|
  {
    if a == [] {
      assert a + b == b;
      assert Run(s, a, fetch) == (s, []);
      assert Run(s, a, fetch).1 + Run(s, b, fetch).1 == Run(s, b, fetch).1;
    } else {
      var p := Step(s, a[0], fetch);
      assert (a + b)[0] == a[0];
      assert (a + b)[1..] == a[1..] + b;
      RunAppend(p.0, a[1..], b, fetch);
      var ra', rb := Run(p.0, a[1..], fetch), Run(Run(s, a, fetch).0, b, fetch);
      assert [p.1] + (ra'.1 + rb.1) == ([p.1] + ra'.1) + rb.1;
    }
  }

  /** `completed` never returns to false, a stored task is never cleared,
      and a poisoned mutex stays poisoned, whatever the interleaving. */
  lemma {:induction false} RunMonotone(s: Shared, es: seq<Event>, fetch: Task -> Fetched)
    ensures var f := Run(s, es, fetch).0;
      && (s.completed ==> f.completed)
      && (s.task.Some? ==> f.task.Some?)
      && (s.poisoned ==> f.poisoned)
    decreases |es|
  {
    if es != [] {
      RunMonotone(Step(s, es[0], fetch).0, es[1..], fetch);
    }
  }

  /** A state a constructed future can be in: the task is stored and the
      mutex is not poisoned. */
  predicate Live(s: Shared)
  {
    s.task.Some? && !s.poisoned
  }

  /** After construction no event panics, the task stays what was stored
      and the mutex is never poisoned: the `unreachable!()` branch of
      `poll` cannot be taken. */
  lemma {:induction false} LiveRun(s: Shared, es: seq<Event>, fetch: Task -> Fetched)
    requires Live(s)
    requires forall k :: 0 <= k < |es| ==> !es[k].StoreTask?
    ensures var r := Run(s, es, fetch);
      Live(r.0) && r.0.task == s.task && Panicked !in r.1
    decreases |es|
  {
    if es != [] {
      var p := Step(s, es[0], fetch);
      LiveRun(p.0, es[1..], fetch);
    }
  }

  /** Wakes that come before the task is stored do not panic, do not
      poison the mutex and leave the task slot alone. */
  lemma {:induction false} EarlyWakes(s: Shared, es: seq<Event>, fetch: Task -> Fetched)
    requires !s.poisoned
    requires forall k :: 0 <= k < |es| ==> es[k] == WakeTask
    ensures var r := Run(s, es, fetch);
      !r.0.poisoned && r.0.task == s.task && Panicked !in r.1
    decreases |es|
  {
    if es != [] {
      EarlyWakes(Step(s, es[0], fetch).0, es[1..], fetch);
    }
  }

  /** Every interleaving the program allows: the engine may report the task
      finished before the constructor stores it, but no poll happens before
      the constructor returns, and the task is stored once. In all of them
      nothing panics and the stored task stays in place. */
  lemma {:induction false} Constructed(t: Task, early: seq<Event>, later: seq<Event>, fetch: Task -> Fetched)
    requires forall k :: 0 <= k < |early| ==> early[k] == WakeTask
    requires forall k :: 0 <= k < |later| ==> !later[k].StoreTask?
    ensures var r := Run(Initial, early + [StoreTask(t)] + later, fetch);
      r.0.task == Some(t) && !r.0.poisoned && Panicked !in r.1
  {
    var stored := early + [StoreTask(t)];
    var r1 := Run(Initial, stored, fetch);
    StoreAfterWakes(t, early, fetch);
    LiveRun(r1.0, later, fetch);
    RunAppend(Initial, stored, later, fetch);
  }

  /** The early wakes and the store leave a live state holding the task. */
  lemma {:induction false} StoreAfterWakes(t: Task, early: seq<Event>, fetch: Task -> Fetched)
    requires forall k :: 0 <= k < |early| ==> early[k] == WakeTask
    ensures var r := Run(Initial, early + [StoreTask(t)], fetch);
      r.0.task == Some(t) && Live(r.0) && Panicked !in r.1
  {
    var r1 := Run(Initial, early, fetch);
    EarlyWakes(Initial, early, fetch);
    var p := Step(r1.0, StoreTask(t), fetch);
    assert p == (r1.0.(task := Some(t)), Stored);
    assert Run(p.0, [], fetch) == (p.0, []);
    assert [StoreTask(t)][1..] == [];
    RunAppend(Initial, early, [StoreTask(t)], fetch);
  }

  /** Once the task is reported finished, every later poll is Ready with
      what `fetch` gives for the stored task, and leaves the state alone. */
  lemma {:induction false} ReadyAfterWake(s: Shared, es: seq<Event>, fetch: Task -> Fetched)
    requires Live(s) && s.completed
    requires forall k :: 0 <= k < |es| ==> !es[k].StoreTask?
    ensures var r := Run(s, es, fetch);
      forall k :: 0 <= k < |es| && es[k].PollWith? ==> r.1[k] == Ready(fetch(s.task.value))
    decreases |es|
  {
    if es != [] {
      var p := Step(s, es[0], fetch);
      ReadyAfterWake(p.0, es[1..], fetch);
      var r := Run(s, es, fetch);
      forall k | 0 < k < |es| && es[k].PollWith?
        ensures r.1[k] == Ready(fetch(s.task.value))
      {
        assert es[1..][k - 1] == es[k];
      }
    }
  }

  /** The registered waker is the one woken: once a poll has registered a
      waker, polls keep returning Pending and keep that waker until the
      engine reports the task finished, and that report wakes exactly the
      registered waker. Wakers handed to later polls are not stored (see
      `FirstWakerKept`), so they are not woken. */
  lemma {:induction false} RegisteredWakerWoken(s: Shared, polls: seq<Event>, fetch: Task -> Fetched)
    requires Live(s) && !s.completed && s.waker.Some?
    requires forall k :: 0 <= k < |polls| ==> polls[k].PollWith?
    ensures var r := Run(s, polls + [WakeTask], fetch);
      && (forall k :: 0 <= k < |polls| ==> r.1[k] == Pending)
      && r.1[|polls|] == Woke(s.waker)
      && r.0 == s.(completed := true, waker := None)
    decreases |polls|
  {
    if polls != [] {
      var p := Step(s, polls[0], fetch);
      assert p.0 == s;
      assert (polls + [WakeTask])[1..] == polls[1..] + [WakeTask];
      RegisteredWakerWoken(s, polls[1..], fetch);
      var r := Run(s, polls + [WakeTask], fetch);
      forall k | 0 < k < |polls|
        ensures r.1[k] == Pending
      {
        assert polls[1..][k - 1] == polls[k];
      }
    }
  }

  /** Only the first waker is kept: a second poll before completion does
      not replace it. */
  lemma FirstWakerKept(s: Shared, w1: Waker, w2: Waker, fetch: Task -> Fetched)
    requires Live(s) && !s.completed && s.waker.None?
    ensures Run(s, [PollWith(w1), PollWith(w2)], fetch) == (s.(waker := Some(w1)), [Pending, Pending])
  {
    var s1 := s.(waker := Some(w1));
    assert Step(s, PollWith(w1), fetch) == (s1, Pending);
    assert Run(s1, [PollWith(w2)], fetch).0 == s1;
    assert Run(s1, [PollWith(w2)], fetch).1 == [Pending];
    assert [PollWith(w1), PollWith(w2)][1..] == [PollWith(w2)];
    assert Run(s, [PollWith(w1), PollWith(w2)], fetch).1 == [Pending] + [Pending];
    assert Run(s, [PollWith(w1), PollWith(w2)], fetch).0 == s1;
    assert [Pending] + [Pending] == [Pending, Pending];
  }

  /** The mutex-protected state, updated in place by the three critical
      sections. */
  class SharedTaskState {
    var completed: bool
    var waker: Option<Waker>
    var task: Option<Task>
    var poisoned: bool

    /** The state as the constructor allocates it: nothing completed, no
        waker, no task. */
    constructor ()
      ensures View() == Initial
    {
      completed := false;
      waker := None;
      task := None;
      poisoned := false;
    }

    function View(): Shared
      reads this
    {
      Shared(completed, waker, task, poisoned)
    }

    /** The constructor's critical section: store the scheduled task, or
        panic with "Lock poisoned" when the mutex is poisoned. */
    method StoreTask(t: Task) returns (r: Reply)
      modifies this
      ensures (View(), r) == Step(old(View()), Event.StoreTask(t), _ => Ok(0))
      ensures old(poisoned) ==> r == Panicked && View() == old(View())
      ensures !old(poisoned) ==> r == Stored && View() == old(View()).(task := Some(t))
    {
      if poisoned {
        return Panicked;
      }
      task := Some(t);
      r := Stored;
    }

    /** `poll`: on a completed state, Ready with what `fetch` gives for the
        task, the waker untouched; before completion, Pending, storing the
        waker only when none is stored. Locking a poisoned mutex panics, and
        a completed state without a task panics with the guard held. */
    method Poll(w: Waker, fetch: Task -> Fetched) returns (r: Reply)
      modifies this
      ensures (View(), r) == Step(old(View()), PollWith(w), fetch)
      ensures !old(poisoned) && old(completed) && old(task).Some? ==>
        r == Ready(fetch(old(task).value)) && View() == old(View())
      ensures !old(poisoned) && !old(completed) ==>
        && r == Pending && completed == old(completed) && task == old(task) && poisoned == old(poisoned)
        && waker == (if old(waker).None? then Some(w) else old(waker))
    {
      if poisoned {
        return Panicked;
      }
      if completed {
        if task.Some? {
          r := Ready(fetch(task.value));
        } else {
          poisoned := true;
          r := Panicked;
        }
      } else if waker.None? {
        waker := Some(w);
        r := Pending;
      } else {
        r := Pending;
      }
    }

    /** `wake_task`: marks the state completed and takes the waker, which
        is then woken. On a poisoned mutex it does nothing. */
    method Wake() returns (woken: Option<Waker>)
      modifies this
      ensures (View(), Woke(woken)) == Step(old(View()), WakeTask, _ => Ok(0))
      ensures !old(poisoned) ==>
        && completed && waker == None && woken == old(waker) && task == old(task) && !poisoned
      ensures old(poisoned) ==> woken == None && View() == old(View())
    {
      if poisoned {
        return None;
      }
      completed := true;
      woken := waker;
      waker := None;
    }
  }

  /** A future waiting on a Julia task. */
  class JuliaFuture {
    const shared: SharedTaskState

    constructor (shared: SharedTaskState)
      ensures this.shared == shared
    {
      this.shared := shared;
    }

    /** `new`: allocate the shared state, schedule the call (whose outcome
        is `scheduled`: the task, or the exception it threw), then store the
        task. When scheduling throws, construction panics and no future is
        returned. */
    static method New(scheduled: Result<Task, nat>) returns (f: Option<JuliaFuture>)
      ensures f.None? <==> scheduled.Err?
      ensures f.Some? ==>
        && fresh(f.value) && fresh(f.value.shared)
        && f.value.shared.View() == Initial.(task := Some(scheduled.value))
    {
      var state := new SharedTaskState();
      if scheduled.Err? {
        return None;
      }
      var r := state.StoreTask(scheduled.value);
      var future := new JuliaFuture(state);
      f := Some(future);
    }

    /** `poll` of the future: the critical section on its shared state. */
    method Poll(w: Waker, fetch: Task -> Fetched) returns (r: Reply)
      modifies shared
      ensures (shared.View(), r) == Step(old(shared.View()), PollWith(w), fetch)
    {
      r := shared.Poll(w, fetch);
    }
  }
}
