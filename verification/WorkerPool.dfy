/**
 One iteration of the health checker and of the metrics consumer (shared/healthandmetrics/health-checker.go and
 metrics-reader.go): the iteration first puts every object into a bounded queue, then takes one result per object from
 a bounded channel; in between, workers take from the queue and send to the results. Every interleaving is a run.
 */
module WorkerPool {
  /** The capacity of both channels. */
  const CAPACITY: nat := 100

  /** pending is what the iteration has still to queue; busy are the objects in the workers' hands. */
  datatype Pool<T> = Pool(pending: seq<T>, queue: seq<T>, busy: seq<T>, results: seq<T>, handled: seq<T>)

  datatype Step = Put | Take | Report(worker: nat) | Collect

  function Start<T>(objects: seq<T>): Pool<T> {
    Pool(objects, [], [], [], [])
  }

  /** A send needs room, a receive needs a value; results are collected only once all objects are queued. */
  predicate Enabled<T>(workers: nat, s: Pool<T>, step: Step) {
    match step
    case Put => s.pending != [] && |s.queue| < CAPACITY
    case Take => s.queue != [] && |s.busy| < workers
    case Report(i) => i < |s.busy| && |s.results| < CAPACITY
    case Collect => s.pending == [] && s.results != []
  }

  function Apply<T>(workers: nat, s: Pool<T>, step: Step): Pool<T>
    requires Enabled(workers, s, step)
  {
    match step
    case Put => s.(pending := s.pending[1..], queue := s.queue + [s.pending[0]])
    case Take => s.(queue := s.queue[1..], busy := s.busy + [s.queue[0]])
    case Report(i) => s.(busy := s.busy[..i] + s.busy[i + 1..], results := s.results + [s.busy[i]])
    case Collect => s.(results := s.results[1..], handled := s.handled + [s.results[0]])
  }

  predicate Possible<T>(workers: nat, s: Pool<T>, steps: seq<Step>)
    decreases |steps|
  {
    steps == [] || (Enabled(workers, s, steps[0]) && Possible(workers, Apply(workers, s, steps[0]), steps[1..]))
  }

  function Run<T>(workers: nat, s: Pool<T>, steps: seq<Step>): Pool<T>
    requires Possible(workers, s, steps)
    decreases |steps|
  {
    if steps == [] then s else Run(workers, Apply(workers, s, steps[0]), steps[1..])
  }

  ghost predicate Stuck<T>(workers: nat, s: Pool<T>) {
    forall step :: !Enabled(workers, s, step)
  }

  predicate Done<T>(s: Pool<T>) {
    s.pending == [] && s.queue == [] && s.busy == [] && s.results == []
  }

  // ----- nothing is lost, nothing is done twice -----

  ghost function Everything<T>(s: Pool<T>): multiset<T> {
    multiset(s.pending) + multiset(s.queue) + multiset(s.busy) + multiset(s.results) + multiset(s.handled)
  }

  /** Moving one element from one sequence to the end of another. */
  lemma Moved<T>(xs: seq<T>, i: nat, ys: seq<T>)
    requires i < |xs|
    ensures multiset(xs) + multiset(ys) == multiset(xs[..i] + xs[i + 1..]) + multiset(ys + [xs[i]])
  {
    assert xs == xs[..i] + [xs[i]] + xs[i + 1..];
  }

  lemma Exchange<T>(rest: multiset<T>, a: multiset<T>, b: multiset<T>, a': multiset<T>, b': multiset<T>)
    requires a + b == a' + b'
    ensures rest + a + b == rest + a' + b'
  {
    assert rest + a + b == rest + (a + b);
    assert rest + a' + b' == rest + (a' + b');
  }

  lemma PutKeeps<T>(workers: nat, s: Pool<T>, step: Step)
    requires step.Put? && Enabled(workers, s, step)
    ensures Everything(Apply(workers, s, step)) == Everything(s)
  {
    Moved(s.pending, 0, s.queue);
    assert s.pending[..0] + s.pending[1..] == s.pending[1..];
  }

  lemma TakeKeeps<T>(workers: nat, s: Pool<T>, step: Step)
    requires step.Take? && Enabled(workers, s, step)
    ensures Everything(Apply(workers, s, step)) == Everything(s)
  {
    var s' := Apply(workers, s, step);
    Moved(s.queue, 0, s.busy);
    assert s.queue[..0] + s.queue[1..] == s'.queue;
    Exchange(multiset(s.pending), multiset(s.queue), multiset(s.busy), multiset(s'.queue), multiset(s'.busy));
  }

  lemma ReportKeeps<T>(workers: nat, s: Pool<T>, step: Step)
    requires step.Report? && Enabled(workers, s, step)
    ensures Everything(Apply(workers, s, step)) == Everything(s)
  {
    var s' := Apply(workers, s, step);
    var rest := multiset(s.pending) + multiset(s.queue);
    Moved(s.busy, step.worker, s.results);
    Exchange(rest, multiset(s.busy), multiset(s.results), multiset(s'.busy), multiset(s'.results));
  }

  lemma CollectKeeps<T>(workers: nat, s: Pool<T>, step: Step)
    requires step.Collect? && Enabled(workers, s, step)
    ensures Everything(Apply(workers, s, step)) == Everything(s)
  {
    var s' := Apply(workers, s, step);
    var rest := multiset(s.pending) + multiset(s.queue) + multiset(s.busy);
    Moved(s.results, 0, s.handled);
    assert s.results[..0] + s.results[1..] == s'.results;
    Exchange(rest, multiset(s.results), multiset(s.handled), multiset(s'.results), multiset(s'.handled));
  }

  lemma StepKeepsEverything<T>(workers: nat, s: Pool<T>, step: Step)
    requires Enabled(workers, s, step)
    ensures Everything(Apply(workers, s, step)) == Everything(s)
  {
    match step
    case Put => PutKeeps(workers, s, step);
    case Take => TakeKeeps(workers, s, step);
    case Report(_) => ReportKeeps(workers, s, step);
    case Collect => CollectKeeps(workers, s, step);
  }

  // ----- counting -----

  ghost function Total<T>(s: Pool<T>): nat {
    |s.pending| + |s.queue| + |s.busy| + |s.results| + |s.handled|
  }

  /** Channels and workers hold what they can hold, and nothing is collected before all is queued. */
  ghost predicate Within<T>(workers: nat, s: Pool<T>) {
    && |s.queue| <= CAPACITY && |s.busy| <= workers && |s.results| <= CAPACITY
    && (s.pending != [] ==> s.handled == [])
  }

  /** How many steps an iteration has still to make. */
  function Remaining<T>(s: Pool<T>): nat {
    4 * |s.pending| + 3 * |s.queue| + 2 * |s.busy| + |s.results|
  }

  lemma StepCounts<T>(workers: nat, s: Pool<T>, step: Step)
    requires Enabled(workers, s, step) && Within(workers, s)
    ensures Within(workers, Apply(workers, s, step)) && Total(Apply(workers, s, step)) == Total(s)
    ensures Remaining(Apply(workers, s, step)) == Remaining(s) - 1
  {
  }

  lemma {:induction false} RunKeeps<T>(workers: nat, s: Pool<T>, steps: seq<Step>)
    requires Possible(workers, s, steps) && Within(workers, s)
    ensures Within(workers, Run(workers, s, steps)) && Total(Run(workers, s, steps)) == Total(s)
    ensures Everything(Run(workers, s, steps)) == Everything(s)
    ensures Remaining(Run(workers, s, steps)) == Remaining(s) - |steps|
    decreases |steps|
  {
    if steps != [] {
      StepCounts(workers, s, steps[0]);
      StepKeepsEverything(workers, s, steps[0]);
      RunKeeps(workers, Apply(workers, s, steps[0]), steps[1..]);
    }
  }

  // ----- when an iteration completes -----

  /** Every object can be queued while nothing is collected: both channels full and every worker waiting to send. */
  predicate Fits(workers: nat, n: nat) {
    n == 0 || (workers >= 1 && n <= 200 + workers)
  }

  /** A stuck pool that is not done: the iteration cannot put, no worker can take or send, and nothing is collected. */
  lemma StuckShape<T>(workers: nat, s: Pool<T>)
    requires Stuck(workers, s) && Within(workers, s)
    ensures s.pending == [] || |s.queue| == CAPACITY
    ensures s.queue == [] || |s.busy| == workers
    ensures s.busy == [] || |s.results| == CAPACITY
    ensures s.pending != [] || s.results == []
  {
    assert !Enabled(workers, s, Put);
    assert !Enabled(workers, s, Take);
    assert !Enabled(workers, s, Report(0));
    assert !Enabled(workers, s, Collect);
  }

  /** The exact threshold: a run that can go no further has completed the iteration if and only if the objects fit. */
  lemma CompletesIffFits<T>(workers: nat, objects: seq<T>, steps: seq<Step>)
    requires Possible(workers, Start(objects), steps) && Stuck(workers, Run(workers, Start(objects), steps))
    ensures Done(Run(workers, Start(objects), steps)) <==> Fits(workers, |objects|)
  {
    var s := Run(workers, Start(objects), steps);
    RunKeeps(workers, Start(objects), steps);
    StuckShape(workers, s);
    if Fits(workers, |objects|) {
      if s.pending != [] { assert false; }
    } else {
      NeverCollects(workers, objects, steps);
      if Done(s) { assert false; }
    }
  }

  /** Every run is finite, and one that has completed has handled each object exactly once. */
  lemma ExactlyOnce<T>(workers: nat, objects: seq<T>, steps: seq<Step>)
    requires Possible(workers, Start(objects), steps)
    ensures |steps| <= 4 * |objects|
    ensures Done(Run(workers, Start(objects), steps)) <==> |steps| == 4 * |objects|
    ensures Done(Run(workers, Start(objects), steps))
            ==> multiset(Run(workers, Start(objects), steps).handled) == multiset(objects)
  {
    RunKeeps(workers, Start(objects), steps);
    var s := Run(workers, Start(objects), steps);
    if Done(s) {
      assert Everything(s) == multiset(s.handled);
      assert Everything(Start(objects)) == multiset(objects);
    }
  }

  lemma NeverCollects<T>(workers: nat, objects: seq<T>, steps: seq<Step>)
    requires !Fits(workers, |objects|) && Possible(workers, Start(objects), steps)
    ensures Run(workers, Start(objects), steps).handled == []
  {
    if workers == 0 {
      NoWorkersNoResults(Start(objects), steps);
    } else {
      Overfull(workers, Start(objects), steps);
    }
  }

  lemma {:induction false} NoWorkersNoResults<T>(s: Pool<T>, steps: seq<Step>)
    requires Possible(0, s, steps) && s.busy == [] && s.results == [] && s.handled == []
    ensures Run(0, s, steps).handled == []
    decreases |steps|
  {
    if steps != [] { NoWorkersNoResults(Apply(0, s, steps[0]), steps[1..]); }
  }

  /** With more objects than fit, some are always pending, so no result is ever collected. */
  lemma {:induction false} Overfull<T>(workers: nat, s: Pool<T>, steps: seq<Step>)
    requires Possible(workers, s, steps) && Within(workers, s) && s.handled == []
    requires Total(s) > 2 * CAPACITY + workers
    ensures Run(workers, s, steps).handled == [] && Run(workers, s, steps).pending != []
    decreases |steps|
  {
    assert s.pending != [];
    if steps != [] {
      StepCounts(workers, s, steps[0]);
      Overfull(workers, Apply(workers, s, steps[0]), steps[1..]);
    }
  }

  /** Past the threshold every run stops with both channels full, every worker blocked and the rest still to queue. */
  lemma DeadlockShape<T>(workers: nat, objects: seq<T>, steps: seq<Step>)
    requires workers >= 1 && |objects| > 200 + workers
    requires Possible(workers, Start(objects), steps) && Stuck(workers, Run(workers, Start(objects), steps))
    ensures var s := Run(workers, Start(objects), steps);
            && |s.queue| == 100 && |s.busy| == workers && |s.results| == 100 && s.handled == []
            && |s.pending| == |objects| - 200 - workers
  {
    var s := Run(workers, Start(objects), steps);
    RunKeeps(workers, Start(objects), steps);
    StuckShape(workers, s);
    Overfull(workers, Start(objects), steps);
  }
}
