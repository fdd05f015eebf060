/**
 * `ThreadPool`: a FIFO queue of scheduled jobs served by a fixed set of worker threads.
 * A worker loops taking the front entry and running it; `shutdown` queues one exit
 * entry per worker (a job that throws `:exit`) and joins the workers.
 *
 * Real threads are replaced by interleavings of single worker steps. `Pool` is the
 * state as a value together with the list of entries taken so far; the functions on it
 * specify the `ThreadPool` class, and the lemmas state what any interleaving keeps.
 */
module ThreadPools {
  import opened Common

  /** A queue entry: a scheduled job, or the exit sentinel `shutdown` schedules. */
  datatype Entry<J> = Run(job: J) | Exit

  /** A worker thread: still looping, left through `:exit`, or ended by a job that raised. */
  datatype Worker = Running | Exited | Died

  /** The pool's state, with `taken` the entries workers have taken off the queue, in order. */
  datatype Pool<J> = Pool(size: int, queue: seq<Entry<J>>, workers: seq<Worker>, taken: seq<Entry<J>>)

  /** One step of an interleaving: another thread schedules a job, or a worker takes an entry. */
  datatype Action<J> = Push(job: J) | Take(worker: nat)

  /** `n` exit entries. */
  function Exits<J>(n: nat): (r: seq<Entry<J>>)
    ensures |r| == n
    ensures forall k :: 0 <= k < n ==> r[k] == Exit
  {
    if n == 0 then [] else Exits(n - 1) + [Exit]
  }

  /** How many exit entries a list holds. */
  function CountExits<J>(s: seq<Entry<J>>): nat
  {
    if s == [] then 0 else CountExits(s[..|s| - 1]) + (if s[|s| - 1] == Exit then 1 else 0)
  }

  /** How many workers are in state `w`. */
  function CountWorkers(ws: seq<Worker>, w: Worker): nat
  {
    if ws == [] then 0 else CountWorkers(ws[..|ws| - 1], w) + (if ws[|ws| - 1] == w then 1 else 0)
  }

  lemma {:induction false} CountExitsAppend<J>(a: seq<Entry<J>>, b: seq<Entry<J>>)
    ensures CountExits(a + b) == CountExits(a) + CountExits(b)
    decreases |b|
  {
    if b == [] {
      assert a + b == a;
    } else {
      assert (a + b)[..|a + b| - 1] == a + b[..|b| - 1];
      CountExitsAppend(a, b[..|b| - 1]);
    }
  }

  /** `n` exit entries hold `n` exits. */
  lemma {:induction false} CountExitsOfExits<J>(n: nat)
    ensures CountExits(Exits<J>(n)) == n
  {
    if n > 0 {
      CountExitsOfExits<J>(n - 1);
      assert Exits<J>(n)[..n - 1] == Exits<J>(n - 1);
    }
  }

  /** A prefix never holds more exits than the whole. */
  lemma CountExitsPrefix<J>(a: seq<Entry<J>>, b: seq<Entry<J>>)
    requires a <= b
    ensures CountExits(a) <= CountExits(b)
  {
    assert b == a + b[|a|..];
    CountExitsAppend(a, b[|a|..]);
  }

  lemma {:induction false} CountWorkersAppend(a: seq<Worker>, b: seq<Worker>, w: Worker)
    ensures CountWorkers(a + b, w) == CountWorkers(a, w) + CountWorkers(b, w)
    decreases |b|
  {
    if b == [] {
      assert a + b == a;
    } else {
      assert (a + b)[..|a + b| - 1] == a + b[..|b| - 1];
      CountWorkersAppend(a, b[..|b| - 1], w);
    }
  }

  /** Changing one worker's state moves it from one count to another. */
  lemma CountWorkersUpdate(ws: seq<Worker>, i: nat, v: Worker, w: Worker)
    requires i < |ws|
    ensures CountWorkers(ws[i := v], w) + (if ws[i] == w then 1 else 0)
         == CountWorkers(ws, w) + (if v == w then 1 else 0)
  {
    var pre, post := ws[..i], ws[i + 1..];
    assert ws == pre + [ws[i]] + post;
    assert ws[i := v] == pre + [v] + post;
    CountWorkersAppend(pre + [ws[i]], post, w);
    CountWorkersAppend(pre + [v], post, w);
    CountWorkersAppend(pre, [ws[i]], w);
    CountWorkersAppend(pre, [v], w);
    assert CountWorkers([ws[i]], w) == (if ws[i] == w then 1 else 0) by {
      assert [ws[i]][..0] == [];
    }
    assert CountWorkers([v], w) == (if v == w then 1 else 0) by {
      assert [v][..0] == [];
    }
  }

  /** `n` new workers, all looping. */
  function Fresh(n: nat): (r: seq<Worker>)
    ensures |r| == n
    ensures forall k :: 0 <= k < n ==> r[k] == Running
  {
    if n == 0 then [] else Fresh(n - 1) + [Running]
  }

  /** New workers add nothing to the exited and died counts. */
  lemma {:induction false} CountFresh(n: nat, w: Worker)
    ensures CountWorkers(Fresh(n), w) == if w == Running then n else 0
  {
    if n > 0 {
      CountFresh(n - 1, w);
      assert Fresh(n)[..n - 1] == Fresh(n - 1);
    }
  }

  /** `initialize`: the size, an empty queue, no threads. */
  function New<J>(size: int): (p: Pool<J>)
    ensures p.size == size && p.queue == [] && p.workers == [] && p.taken == []
  {
    Pool(size, [], [], [])
  }

  /** How many threads `size.times` creates: none for a size below one. */
  function Times(size: int): (n: nat)
    ensures size <= 0 ==> n == 0
    ensures size > 0 ==> n == size
  {
    if size > 0 then size else 0
  }

  /** `start`: `size` more looping workers; nothing else changes. */
  function Started<J>(p: Pool<J>): (r: Pool<J>)
    ensures |r.workers| == |p.workers| + Times(p.size)
    ensures r.workers[..|p.workers|] == p.workers
    ensures forall k :: |p.workers| <= k < |r.workers| ==> r.workers[k] == Running
    ensures r.queue == p.queue && r.taken == p.taken && r.size == p.size
  {
    var r := p.(workers := p.workers + Fresh(Times(p.size)));
    assert r.workers[..|p.workers|] == p.workers;
    r
  }

  /** `schedule`: one job entry at the back of the queue. */
  function Scheduled<J>(p: Pool<J>, job: J): (r: Pool<J>)
    ensures Pushed(r) == Pushed(p) + [Run(job)]
    ensures r.taken == p.taken && r.workers == p.workers && r.size == p.size
  {
    p.(queue := p.queue + [Run(job)])
  }

  /** The first half of `shutdown`: one exit entry per thread, at the back of the queue. */
  function PostExits<J>(p: Pool<J>): (r: Pool<J>)
    ensures Pushed(r) == Pushed(p) + Exits(|p.workers|)
    ensures r.taken == p.taken && r.workers == p.workers && r.size == p.size
  {
    p.(queue := p.queue + Exits(|p.workers|))
  }

  /**
   * One turn of a worker's loop: `queue.pop` takes the front entry, then `job.call`.
   * None when the worker is not running or the queue is empty (`pop` would block).
   * An exit entry ends the worker; a job that raises ends it too.
   */
  function Pop<J>(p: Pool<J>, w: nat, fails: J -> bool): (r: Option<Pool<J>>)
    ensures r.Some? <==> w < |p.workers| && p.workers[w] == Running && p.queue != []
    ensures r.Some? ==> r.value.taken == p.taken + [p.queue[0]] && r.value.queue == p.queue[1..]
    ensures r.Some? ==> |r.value.workers| == |p.workers| && r.value.size == p.size
    ensures r.Some? ==> forall k :: 0 <= k < |p.workers| && k != w ==> r.value.workers[k] == p.workers[k]
    ensures r.Some? ==> (r.value.workers[w] == Exited <==> p.queue[0] == Exit)
    ensures r.Some? ==> (r.value.workers[w] == Died <==> p.queue[0].Run? && fails(p.queue[0].job))
  {
    if w < |p.workers| && p.workers[w] == Running && p.queue != [] then
      var e := p.queue[0];
      var state := if e == Exit then Exited else if fails(e.job) then Died else Running;
      Some(p.(queue := p.queue[1..], workers := p.workers[w := state], taken := p.taken + [e]))
    else None
  }

  /** Every entry ever queued, in order: those taken, then those still waiting. */
  function Pushed<J>(p: Pool<J>): seq<Entry<J>>
  {
    p.taken + p.queue
  }

  /** Each exit entry taken has ended exactly one worker. */
  predicate Valid<J>(p: Pool<J>)
  {
    CountWorkers(p.workers, Exited) == CountExits(p.taken)
  }

  /** There are at least as many exit entries waiting as running workers. */
  predicate Drainable<J>(p: Pool<J>)
  {
    CountWorkers(p.workers, Running) <= CountExits(p.queue)
  }

  /** A fresh pool holds no exited worker and has taken nothing. */
  lemma NewValid<J>(size: int)
    ensures Valid(New<J>(size)) && Pushed(New<J>(size)) == []
  {
  }

  /** `start` adds workers without touching the queue, and keeps the exit tally. */
  lemma StartKeepsValid<J>(p: Pool<J>)
    requires Valid(p)
    ensures Valid(Started(p)) && Pushed(Started(p)) == Pushed(p)
    ensures CountWorkers(Started(p).workers, Running) == CountWorkers(p.workers, Running) + Times(p.size)
  {
    CountWorkersAppend(p.workers, Fresh(Times(p.size)), Exited);
    CountWorkersAppend(p.workers, Fresh(Times(p.size)), Running);
    CountFresh(Times(p.size), Exited);
    CountFresh(Times(p.size), Running);
  }

  /** `schedule` appends its job after everything queued so far, earlier entries unchanged and in order. */
  lemma ScheduleAppends<J>(p: Pool<J>, job: J)
    ensures Pushed(Scheduled(p, job)) == Pushed(p) + [Run(job)]
    ensures Scheduled(p, job).taken == p.taken && Scheduled(p, job).workers == p.workers
    ensures Valid(p) ==> Valid(Scheduled(p, job))
    ensures Drainable(p) ==> Drainable(Scheduled(p, job))
    ensures CountExits(Pushed(Scheduled(p, job))) == CountExits(Pushed(p))
  {
    CountExitsAppend(p.queue, [Run(job)]);
    CountExitsAppend(Pushed(p), [Run(job)]);
    assert [Run(job)][..0] == [];
  }

  /** The exit entries go after everything already queued, one per thread, and can stop every running worker. */
  lemma PostExitsAppends<J>(p: Pool<J>)
    ensures Pushed(PostExits(p)) == Pushed(p) + Exits(|p.workers|)
    ensures PostExits(p).taken == p.taken && PostExits(p).workers == p.workers
    ensures |p.workers| == 0 ==> PostExits(p) == p
    ensures Valid(p) ==> Valid(PostExits(p))
    ensures Drainable(PostExits(p))
  {
    CountExitsAppend(p.queue, Exits<J>(|p.workers|));
    CountExitsOfExits<J>(|p.workers|);
    CountWorkersBound(p.workers, Running);
  }

  /** No state counts more workers than there are. */
  lemma {:induction false} CountWorkersBound(ws: seq<Worker>, w: Worker)
    ensures CountWorkers(ws, w) <= |ws|
  {
    if ws != [] {
      CountWorkersBound(ws[..|ws| - 1], w);
    }
  }

  /** How taking the front entry moves the counts: of exited and running workers, and of exits taken and waiting. */
  lemma PopCounts<J>(p: Pool<J>, w: nat, fails: J -> bool)
    requires Pop(p, w, fails).Some?
    ensures var q, exit := Pop(p, w, fails).value, if p.queue[0] == Exit then 1 else 0;
      && CountWorkers(q.workers, Exited) == CountWorkers(p.workers, Exited) + exit
      && CountWorkers(q.workers, Running) + (if q.workers[w] == Running then 0 else 1) == CountWorkers(p.workers, Running)
      && CountExits(q.taken) == CountExits(p.taken) + exit
      && CountExits(q.queue) + exit == CountExits(p.queue)
  {
    var q := Pop(p, w, fails).value;
    var e := p.queue[0];
    assert q.workers == p.workers[w := q.workers[w]];
    CountWorkersUpdate(p.workers, w, q.workers[w], Exited);
    CountWorkersUpdate(p.workers, w, q.workers[w], Running);
    assert [e][..0] == [];
    CountExitsAppend(p.taken, [e]);
    assert p.queue == [e] + q.queue;
    CountExitsAppend([e], q.queue);
  }

  /** Taking an entry loses none and reorders none, and keeps one exited worker per exit taken. */
  lemma PopKeepsValid<J>(p: Pool<J>, w: nat, fails: J -> bool)
    requires Pop(p, w, fails).Some?
    ensures Pushed(Pop(p, w, fails).value) == Pushed(p)
    ensures Valid(p) ==> Valid(Pop(p, w, fails).value)
    ensures Drainable(p) ==> Drainable(Pop(p, w, fails).value)
  {
    var q := Pop(p, w, fails).value;
    assert p.queue == [p.queue[0]] + q.queue;
    PopCounts(p, w, fails);
  }

  /** After `shutdown` queued its exits, a running worker never blocks on an empty queue. */
  lemma RunningWorkerCanTake<J>(p: Pool<J>, w: nat, fails: J -> bool)
    requires Drainable(p)
    requires w < |p.workers| && p.workers[w] == Running
    ensures Pop(p, w, fails).Some?
  {
    if p.queue == [] {
      CountWorkersUpdate(p.workers, w, Exited, Running);
      assert false;
    }
  }

  /** The state after an interleaving of steps, or None if a worker was scheduled that could not take an entry. */
  function Interleave<J>(p: Pool<J>, acts: seq<Action<J>>, fails: J -> bool): (r: Option<Pool<J>>)
    ensures r.Some? ==> |r.value.workers| == |p.workers| && r.value.size == p.size
    ensures r.Some? ==> p.taken <= r.value.taken
    decreases |acts|
  {
    if acts == [] then Some(p)
    else
      match acts[0]
      case Push(job) => Interleave(Scheduled(p, job), acts[1..], fails)
      case Take(w) =>
        match Pop(p, w, fails)
        case None => None
        case Some(q) => Interleave(q, acts[1..], fails)
  }

  /**
   * Over any interleaving, the pool keeps its threads and its exit tally, nothing queued is
   * lost or reordered, only jobs are added, and the exits queued can still stop every running worker.
   */
  lemma {:induction false} InterleaveKeeps<J>(p: Pool<J>, acts: seq<Action<J>>, fails: J -> bool)
    requires Valid(p)
    requires Interleave(p, acts, fails).Some?
    ensures var q := Interleave(p, acts, fails).value;
      && Valid(q)
      && |q.workers| == |p.workers|
      && Pushed(p) <= Pushed(q)
      && CountExits(Pushed(q)) == CountExits(Pushed(p))
      && (Drainable(p) ==> Drainable(q))
    decreases |acts|
  {
    if acts != [] {
      match acts[0]
      case Push(job) =>
        ScheduleAppends(p, job);
        InterleaveKeeps(Scheduled(p, job), acts[1..], fails);
      case Take(w) =>
        PopKeepsValid(p, w, fails);
        InterleaveKeeps(Pop(p, w, fails).value, acts[1..], fails);
    }
  }

  /** When more exits were taken than were queued before some point, everything queued before that point was taken. */
  lemma TakenPastPrefix<J>(before: seq<Entry<J>>, pushed: seq<Entry<J>>, taken: seq<Entry<J>>)
    requires before <= pushed && taken <= pushed
    requires CountExits(taken) > CountExits(before)
    ensures before <= taken
  {
    if |taken| <= |before| {
      assert taken <= before;
      CountExitsPrefix(taken, before);
    }
  }

  /**
   * The FIFO guarantee of `shutdown`: start from a pool where no exit was ever queued, queue
   * the exits, and let workers and schedulers interleave in any way. No exit is taken before
   * every job queued before `shutdown`; once any worker has left through an exit, all those
   * jobs have been taken, so none is left in the queue when the workers have stopped.
   */
  lemma ShutdownDrainsQueue<J>(p: Pool<J>, acts: seq<Action<J>>, fails: J -> bool)
    requires Valid(p) && CountExits(Pushed(p)) == 0
    requires Interleave(PostExits(p), acts, fails).Some?
    ensures var q := Interleave(PostExits(p), acts, fails).value;
      && (forall k :: 0 <= k < |q.taken| && q.taken[k] == Exit ==> k >= |Pushed(p)|)
      && (CountWorkers(q.workers, Exited) > 0 ==> Pushed(p) <= q.taken)
  {
    var p1 := PostExits(p);
    PostExitsAppends(p);
    InterleaveKeeps(p1, acts, fails);
    var q := Interleave(p1, acts, fails).value;
    assert Pushed(p) <= Pushed(q);
    assert q.taken <= Pushed(q);
    forall k | 0 <= k < |q.taken| && q.taken[k] == Exit
      ensures k >= |Pushed(p)|
    {
      if k < |Pushed(p)| {
        ExitCounted(Pushed(p), k);
      }
    }
    if CountWorkers(q.workers, Exited) > 0 {
      TakenPastPrefix(Pushed(p), Pushed(q), q.taken);
    }
  }

  /** A list holding an exit counts it. */
  lemma {:induction false} ExitCounted<J>(s: seq<Entry<J>>, k: nat)
    requires k < |s| && s[k] == Exit
    ensures CountExits(s) > 0
    decreases |s|
  {
    if k < |s| - 1 {
      ExitCounted(s[..|s| - 1], k);
    }
  }

  /** A list of workers of which one is not in state `w` counts fewer than all of them in `w`. */
  lemma {:induction false} CountWorkersMissing(ws: seq<Worker>, w: Worker, k: nat)
    requires k < |ws| && ws[k] != w
    ensures CountWorkers(ws, w) < |ws|
  {
    if k < |ws| - 1 {
      CountWorkersMissing(ws[..|ws| - 1], w, k);
    } else {
      CountWorkersBound(ws[..|ws| - 1], w);
    }
  }

  /**
   * A worker whose job raised never takes its exit entry: after `shutdown`, in every
   * interleaving in which some worker died, an exit entry is still waiting in the queue.
   */
  lemma DeadWorkerStrandsExit<J>(p: Pool<J>, acts: seq<Action<J>>, fails: J -> bool, w: nat)
    requires Valid(p) && CountExits(Pushed(p)) == 0
    requires Interleave(PostExits(p), acts, fails).Some?
    requires w < |Interleave(PostExits(p), acts, fails).value.workers|
    requires Interleave(PostExits(p), acts, fails).value.workers[w] == Died
    ensures CountExits(Interleave(PostExits(p), acts, fails).value.queue) > 0
  {
    var q := Interleave(PostExits(p), acts, fails).value;
    PostExitsAppends(p);
    InterleaveKeeps(PostExits(p), acts, fails);
    CountExitsAppend(Pushed(p), Exits<J>(|p.workers|));
    CountExitsOfExits<J>(|p.workers|);
    CountExitsAppend(q.taken, q.queue);
    CountWorkersMissing(q.workers, Exited, w);
  }

  /** After `shutdown` queued its exits, in any interleaving a running worker can always take an entry. */
  lemma ShutdownNeverStarves<J>(p: Pool<J>, acts: seq<Action<J>>, fails: J -> bool, w: nat)
    requires Valid(p)
    requires Interleave(PostExits(p), acts, fails).Some?
    requires w < |Interleave(PostExits(p), acts, fails).value.workers|
    requires Interleave(PostExits(p), acts, fails).value.workers[w] == Running
    ensures Pop(Interleave(PostExits(p), acts, fails).value, w, fails).Some?
  {
    PostExitsAppends(p);
    InterleaveKeeps(PostExits(p), acts, fails);
    RunningWorkerCanTake(Interleave(PostExits(p), acts, fails).value, w, fails);
  }

  /** The pool object: its size, its queue, its threads, and (for the proofs) what was taken. */
  class ThreadPool<J> {
    const size: int
    var queue: seq<Entry<J>>
    var threads: seq<Worker>
    ghost var taken: seq<Entry<J>>

    ghost function Model(): Pool<J>
      reads this
    {
      Pool(size, queue, threads, taken)
    }

    /** `initialize`. */
    constructor (size: int)
      ensures Model() == New(size)
    {
      this.size := size;
      queue := [];
      threads := [];
      taken := [];
    }

    /** `start`: `size.times` appends a new looping thread. */
    method Start()
      modifies this
      ensures Model() == Started(old(Model()))
    {
      var i := 0;
      while i < size
        invariant size > 0 ==> 0 <= i <= size
        invariant size <= 0 ==> i == 0
        invariant threads == old(threads) + Fresh(i)
        invariant queue == old(queue) && taken == old(taken)
      {
        threads := threads + [Running];
        i := i + 1;
      }
    }

    /** `schedule`: push the job at the back of the queue. */
    method Schedule(job: J)
      modifies this
      ensures Model() == Scheduled(old(Model()), job)
    {
      queue := queue + [Run(job)];
    }

    /** One turn of worker `w`'s loop; `took` is false when it is not running or `pop` would block. */
    method Step(w: nat, fails: J -> bool) returns (took: bool)
      modifies this
      ensures took == Pop(old(Model()), w, fails).Some?
      ensures took ==> Model() == Pop(old(Model()), w, fails).value
      ensures !took ==> Model() == old(Model())
    {
      if w >= |threads| || threads[w] != Running || queue == [] {
        return false;
      }
      var e := queue[0];
      queue := queue[1..];
      taken := taken + [e];
      match e {
        case Exit =>
          threads := threads[w := Exited];
        case Run(job) =>
          if fails(job) {
            threads := threads[w := Died];
          }
      }
      took := true;
    }

    /** The first loop of `shutdown`: `threads.each { schedule { throw :exit } }`. */
    method ScheduleExits()
      modifies this
      ensures Model() == PostExits(old(Model()))
    {
      var i := 0;
      while i < |threads|
        invariant 0 <= i <= |threads|
        invariant queue == old(queue) + Exits(i)
        invariant threads == old(threads) && taken == old(taken)
      {
        queue := queue + [Exit];
        i := i + 1;
      }
    }

    /** `thread.join` for worker `w`: its loop runs until it takes an exit entry or a job raises. */
    method JoinWorker(w: nat, fails: J -> bool)
      requires w < |threads| && Valid(Model()) && Drainable(Model())
      modifies this
      ensures |threads| == |old(threads)| && threads[w] != Running
      ensures forall k :: 0 <= k < |threads| && k != w ==> threads[k] == old(threads[k])
      ensures Valid(Model()) && Drainable(Model()) && Pushed(Model()) == Pushed(old(Model()))
    {
      while threads[w] == Running
        invariant |threads| == |old(threads)|
        invariant forall k :: 0 <= k < |threads| && k != w ==> threads[k] == old(threads[k])
        invariant Valid(Model()) && Drainable(Model()) && Pushed(Model()) == Pushed(old(Model()))
        decreases |queue|
      {
        RunningWorkerCanTake(Model(), w, fails);
        PopKeepsValid(Model(), w, fails);
        var _ := Step(w, fails);
      }
    }

    /**
     * `threads.each(&:join)`: join the threads in order. Joining a thread that died re-raises
     * its exception, which ends the joining there (`raised`).
     */
    method JoinAll(fails: J -> bool) returns (raised: bool)
      requires Valid(Model()) && Drainable(Model())
      modifies this
      ensures |threads| == |old(threads)| && Valid(Model()) && Pushed(Model()) == Pushed(old(Model()))
      ensures !raised ==> forall k :: 0 <= k < |threads| ==> threads[k] == Exited
      ensures raised ==> exists k :: 0 <= k < |threads| && threads[k] == Died
      ensures old(threads) == [] ==> Model() == old(Model()) && !raised
    {
      raised := false;
      var i := 0;
      while i < |threads|
        invariant 0 <= i <= |threads| == |old(threads)|
        invariant Valid(Model()) && Drainable(Model()) && Pushed(Model()) == Pushed(old(Model()))
        invariant forall k :: 0 <= k < i ==> threads[k] == Exited
        invariant old(threads) == [] ==> Model() == old(Model())
      {
        JoinWorker(i, fails);
        if threads[i] == Died {
          return true;
        }
        i := i + 1;
      }
    }

    /**
     * `shutdown`: schedule one exit per thread, then join them all. When it returns normally
     * every thread has left through an exit entry, and, if no exit had been queued before,
     * every entry scheduled before the call has been taken off the queue.
     */
    method Shutdown(fails: J -> bool) returns (raised: bool)
      requires Valid(Model())
      modifies this
      ensures Pushed(Model()) == Pushed(old(Model())) + Exits(|old(threads)|)
      ensures |threads| == |old(threads)| && Valid(Model())
      ensures old(threads) == [] ==> Model() == old(Model()) && !raised
      ensures !raised ==> forall k :: 0 <= k < |threads| ==> threads[k] == Exited
      ensures raised ==> exists k :: 0 <= k < |threads| && threads[k] == Died
      ensures !raised && |threads| > 0 && CountExits(Pushed(old(Model()))) == 0 ==>
        Pushed(old(Model())) <= taken
    {
      ghost var before := Pushed(Model());
      PostExitsAppends(Model());
      ScheduleExits();
      raised := JoinAll(fails);
      if !raised && |threads| > 0 && CountExits(before) == 0 {
        ExitedCounted(threads, 0);
        TakenPastPrefix(before, Pushed(Model()), taken);
      }
    }
  }

  /** A list holding an exited worker counts it. */
  lemma {:induction false} ExitedCounted(ws: seq<Worker>, k: nat)
    requires k < |ws| && ws[k] == Exited
    ensures CountWorkers(ws, Exited) > 0
    decreases |ws|
  {
    if k < |ws| - 1 {
      ExitedCounted(ws[..|ws| - 1], k);
    }
  }
}
