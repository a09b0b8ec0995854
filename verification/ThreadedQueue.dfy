/** The queue of cpp_17/utility/threaded_queue.h between start and stop, as interleaved steps: any
    number of producers calling `enqueue`, one consumer thread repeating `do_work`. Each step is what
    a thread does between two points where another thread can get in; what is done under the mutex is
    one step. The depth check of `enqueue` is not under the mutex, so it is a step of its own. The
    limit on the depth, 10000 in the source, is a parameter. */
module ThreadedQueue {

  datatype Entry<T> = Entry(item: T, notify: bool)

  /** A producer is outside `enqueue`, or past the depth check with an item still to be pushed. */
  datatype Producer<T> = Outside | Admitted(entry: Entry<T>)

  /** Where in `do_work` the consumer is. */
  datatype Consumer<T> =
    | Starting                 // before taking the mutex to look for an item
    | Delivering(item: T)      // has popped an item and is about to call the callback
    | Finishing                // before taking the mutex again to decide whether to wait
    | Parked(notified: bool)   // waiting on the condition variable

  datatype State<T> = State(
    queue: seq<Entry<T>>,
    producers: seq<Producer<T>>,
    consumer: Consumer<T>,
    accepted: seq<T>,          // items pushed so far, in order
    delivered: seq<T>)         // items the callback has been called with, in order

  datatype Step<T> =
    | Admit(p: nat, entry: Entry<T>)   // the depth check passes
    | Refuse(p: nat, entry: Entry<T>)  // the depth check fails: the item is dropped
    | Push(p: nat)
    | Take
    | Deliver
    | Wait
    | Wake
    | WakeSpuriously

  function Init<T>(producers: nat): State<T> {
    State([], seq(producers, _ => Outside), Starting, [], [])
  }

  predicate Enabled<T>(s: State<T>, step: Step<T>, depth: nat) {
    match step
    case Admit(p, _) => p < |s.producers| && s.producers[p].Outside? && |s.queue| <= depth
    case Refuse(p, _) => p < |s.producers| && s.producers[p].Outside? && |s.queue| > depth
    case Push(p) => p < |s.producers| && s.producers[p].Admitted?
    case Take => s.consumer.Starting?
    case Deliver => s.consumer.Delivering?
    case Wait => s.consumer.Finishing?
    case Wake => s.consumer == Parked(true)
    case WakeSpuriously => s.consumer == Parked(false)
  }

  function Apply<T>(s: State<T>, step: Step<T>, depth: nat): State<T>
    requires Enabled(s, step, depth)
  {
    match step
    case Admit(p, entry) => s.(producers := s.producers[p := Admitted(entry)])
    case Refuse(_, _) => s
    case Push(p) =>
      var entry := s.producers[p].entry;
      s.(queue := s.queue + [entry],
         producers := s.producers[p := Outside],
         accepted := s.accepted + [entry.item],
         consumer := if entry.notify && s.consumer.Parked? then Parked(true) else s.consumer)
    case Take =>
      if s.queue != [] then s.(queue := s.queue[1..], consumer := Delivering(s.queue[0].item))
      else s.(consumer := Finishing)
    case Deliver => s.(delivered := s.delivered + [s.consumer.item], consumer := Finishing)
    case Wait => s.(consumer := if s.queue == [] then Parked(false) else Starting)
    case Wake => s.(consumer := Starting)
    case WakeSpuriously => s.(consumer := Starting)
  }

  /** A run in which every step is possible when it is taken. */
  predicate Possible<T>(s: State<T>, steps: seq<Step<T>>, depth: nat)
    decreases |steps|
  {
    steps == [] || (Enabled(s, steps[0], depth) && Possible(Apply(s, steps[0], depth), steps[1..], depth))
  }

  function Run<T>(s: State<T>, steps: seq<Step<T>>, depth: nat): State<T>
    requires Possible(s, steps, depth)
    decreases |steps|
  {
    if steps == [] then s else Run(Apply(s, steps[0], depth), steps[1..], depth)
  }

  // ---------- What every run keeps ----------

  function Items<T>(queue: seq<Entry<T>>): (items: seq<T>)
    ensures |items| == |queue|
  {
    if queue == [] then [] else [queue[0].item] + Items(queue[1..])
  }

  lemma {:induction false} ItemsAppend<T>(queue: seq<Entry<T>>, entry: Entry<T>)
    ensures Items(queue + [entry]) == Items(queue) + [entry.item]
  {
    if queue == [] {
      assert [entry][1..] == [];
    } else {
      ItemsAppend(queue[1..], entry);
      assert (queue + [entry])[1..] == queue[1..] + [entry];
      assert [queue[0].item] + (Items(queue[1..]) + [entry.item]) == ([queue[0].item] + Items(queue[1..])) + [entry.item];
    }
  }

  function InFlight<T>(consumer: Consumer<T>): seq<T> {
    if consumer.Delivering? then [consumer.item] else []
  }

  function AdmittedCount<T>(producers: seq<Producer<T>>): (n: nat)
    ensures n <= |producers|
  {
    if producers == [] then 0 else (if producers[0].Admitted? then 1 else 0) + AdmittedCount(producers[1..])
  }

  lemma {:induction false} CountAfterUpdate<T>(producers: seq<Producer<T>>, p: nat, now: Producer<T>)
    requires p < |producers|
    ensures AdmittedCount(producers[p := now])
            == AdmittedCount(producers) - (if producers[p].Admitted? then 1 else 0) + (if now.Admitted? then 1 else 0)
  {
    if p > 0 {
      CountAfterUpdate(producers[1..], p - 1, now);
      assert producers[p := now][1..] == producers[1..][p - 1 := now];
    } else {
      assert producers[p := now][1..] == producers[1..];
    }
  }

  /** Nothing is lost, duplicated or reordered: delivered, in flight and queued items are the accepted ones. */
  ghost predicate Conserved<T>(s: State<T>) {
    s.delivered + InFlight(s.consumer) + Items(s.queue) == s.accepted
  }

  /** The queue exceeds the depth limit by at most one item per producer. */
  ghost predicate Bounded<T>(s: State<T>, depth: nat) {
    |s.queue| + AdmittedCount(s.producers) <= depth + |s.producers|
  }

  /** A consumer that waits and has not been notified has missed nothing but items enqueued without notification. */
  ghost predicate NothingMissed<T>(s: State<T>) {
    s.consumer == Parked(false) ==> forall i :: 0 <= i < |s.queue| ==> !s.queue[i].notify
  }

  ghost predicate Invariant<T>(s: State<T>, depth: nat) {
    Conserved(s) && Bounded(s, depth) && NothingMissed(s)
  }

  lemma {:induction false} InitKeeps<T>(producers: nat, depth: nat)
    ensures Invariant(Init<T>(producers), depth)
  {}

  lemma StepKeepsOrder<T>(s: State<T>, step: Step<T>, depth: nat)
    requires Enabled(s, step, depth) && Conserved(s)
    ensures Conserved(Apply(s, step, depth))
  {
    match step
    case Push(p) =>
      ItemsAppend(s.queue, s.producers[p].entry);
      assert s.delivered + InFlight(s.consumer) + (Items(s.queue) + [s.producers[p].entry.item])
          == s.accepted + [s.producers[p].entry.item];
    case Take =>
      if s.queue != [] {
        var first := [s.queue[0].item];
        assert Items(s.queue) == first + Items(s.queue[1..]);
        assert s.delivered + [] + (first + Items(s.queue[1..])) == s.delivered + first + Items(s.queue[1..]);
      }
    case Deliver =>
      assert s.delivered + [s.consumer.item] + [] == s.delivered + InFlight(s.consumer);
    case _ =>
  }

  lemma StepKeepsBound<T>(s: State<T>, step: Step<T>, depth: nat)
    requires Enabled(s, step, depth) && Bounded(s, depth)
    ensures Bounded(Apply(s, step, depth), depth)
  {
    match step
    case Admit(p, entry) => CountAfterUpdate(s.producers, p, Admitted(entry));
    case Push(p) => CountAfterUpdate(s.producers, p, Outside);
    case _ =>
  }

  lemma StepKeeps<T>(s: State<T>, step: Step<T>, depth: nat)
    requires Enabled(s, step, depth) && Invariant(s, depth)
    ensures Invariant(Apply(s, step, depth), depth)
    ensures |Apply(s, step, depth).producers| == |s.producers|
  {
    StepKeepsOrder(s, step, depth);
    StepKeepsBound(s, step, depth);
  }

  lemma {:induction false} RunKeeps<T>(s: State<T>, steps: seq<Step<T>>, depth: nat)
    requires Possible(s, steps, depth) && Invariant(s, depth)
    ensures Invariant(Run(s, steps, depth), depth) && |Run(s, steps, depth).producers| == |s.producers|
    decreases |steps|
  {
    if steps != [] {
      StepKeeps(s, steps[0], depth);
      RunKeeps(Apply(s, steps[0], depth), steps[1..], depth);
    }
  }

  /** Safety over all interleavings of any number of producers and the consumer. */
  lemma {:induction false} EveryRunIsSafe<T>(producers: nat, steps: seq<Step<T>>, depth: nat)
    requires Possible(Init<T>(producers), steps, depth)
    ensures var s := Run(Init<T>(producers), steps, depth);
            && s.delivered + InFlight(s.consumer) + Items(s.queue) == s.accepted
            && |s.queue| <= depth + producers
            && NothingMissed(s)
  {
    InitKeeps<T>(producers, depth);
    RunKeeps(Init<T>(producers), steps, depth);
  }

  // ---------- What is refused ----------

  /** The items producers call `enqueue` with, and those that are dropped. */
  function Offered<T>(steps: seq<Step<T>>): seq<T> {
    if steps == [] then [] else OfferedIn(steps[0]) + Offered(steps[1..])
  }

  function Refused<T>(steps: seq<Step<T>>): seq<T> {
    if steps == [] then [] else RefusedIn(steps[0]) + Refused(steps[1..])
  }

  function OfferedIn<T>(step: Step<T>): seq<T> {
    if step.Admit? || step.Refuse? then [step.entry.item] else []
  }

  function RefusedIn<T>(step: Step<T>): seq<T> {
    if step.Refuse? then [step.entry.item] else []
  }

  function Holding<T>(p: Producer<T>): multiset<T> {
    if p.Admitted? then multiset{p.entry.item} else multiset{}
  }

  /** The items of producers that have passed the check. */
  function HeldByProducers<T>(producers: seq<Producer<T>>): multiset<T> {
    if producers == [] then multiset{} else Holding(producers[0]) + HeldByProducers(producers[1..])
  }

  lemma ExchangeFirst<T>(was: multiset<T>, now: multiset<T>, rest: multiset<T>)
    ensures (now + rest) + was == (was + rest) + now
  {}

  lemma ExchangeLater<T>(first: multiset<T>, rest: multiset<T>, rest': multiset<T>, was: multiset<T>, now: multiset<T>)
    requires rest' + was == rest + now
    ensures (first + rest') + was == (first + rest) + now
  {
    assert (first + rest') + was == first + (rest' + was);
    assert (first + rest) + now == first + (rest + now);
  }

  lemma {:induction false} HeldAfterUpdate<T>(producers: seq<Producer<T>>, p: nat, now: Producer<T>)
    requires p < |producers|
    ensures HeldByProducers(producers[p := now]) + Holding(producers[p]) == HeldByProducers(producers) + Holding(now)
  {
    hide Holding;
    if p > 0 {
      HeldAfterUpdate(producers[1..], p - 1, now);
      assert producers[p := now][1..] == producers[1..][p - 1 := now];
      ExchangeLater(Holding(producers[0]), HeldByProducers(producers[1..]), HeldByProducers(producers[p := now][1..]),
                    Holding(producers[p]), Holding(now));
    } else {
      assert producers[p := now][1..] == producers[1..];
      ExchangeFirst(Holding(producers[0]), Holding(now), HeldByProducers(producers[1..]));
    }
  }

  /** The step's own share of the items offered and refused. */
  lemma StepAccounts<T>(s: State<T>, step: Step<T>, depth: nat)
    requires Enabled(s, step, depth)
    ensures var r := Apply(s, step, depth);
            multiset(s.accepted) + HeldByProducers(s.producers) + multiset(OfferedIn(step))
            == multiset(r.accepted) + HeldByProducers(r.producers) + multiset(RefusedIn(step))
  {
    hide HeldByProducers;
    match step
    case Admit(p, entry) =>
      HeldAfterUpdate(s.producers, p, Admitted(entry));
      Admission(multiset(s.accepted), HeldByProducers(s.producers), HeldByProducers(Apply(s, step, depth).producers), entry.item);
    case Push(p) =>
      HeldAfterUpdate(s.producers, p, Outside);
      PushedOne(s.accepted, HeldByProducers(s.producers), HeldByProducers(Apply(s, step, depth).producers), s.producers[p].entry.item);
    case _ =>
  }

  lemma Admission<T>(accepted: multiset<T>, held: multiset<T>, held': multiset<T>, item: T)
    requires held' + multiset{} == held + multiset{item}
    ensures accepted + held + multiset([item]) == accepted + held' + multiset([])
  {
    var none: seq<T> := [];
    assert held' + multiset{} == held' && multiset(none) == multiset{} && multiset([item]) == multiset{item};
    assert (accepted + held) + multiset{item} == accepted + (held + multiset{item});
    assert (accepted + held') + multiset{} == accepted + held';
  }

  lemma PushedOne<T>(accepted: seq<T>, held: multiset<T>, held': multiset<T>, item: T)
    requires held' + multiset{item} == held + multiset{}
    ensures multiset(accepted) + held + multiset([]) == multiset(accepted + [item]) + held' + multiset([])
  {
    var none: seq<T>, a := [], multiset(accepted);
    assert held + multiset{} == held && multiset(none) == multiset{};
    assert multiset(accepted + [item]) == a + multiset{item};
    assert (a + multiset{item}) + held' == a + (held' + multiset{item});
    assert (a + held) + multiset{} == a + held && ((a + multiset{item}) + held') + multiset{} == (a + multiset{item}) + held';
  }

  lemma AccountsAdd<T>(a: multiset<T>, b: multiset<T>, c: multiset<T>, o: seq<T>, o': seq<T>, r: seq<T>, r': seq<T>)
    requires a + multiset(o) == b + multiset(r) && b + multiset(o') == c + multiset(r')
    ensures a + multiset(o + o') == c + multiset(r + r')
  {
    assert multiset(o + o') == multiset(o) + multiset(o') && multiset(r + r') == multiset(r) + multiset(r');
    var p, q, p', q' := multiset(o), multiset(r), multiset(o'), multiset(r');
    assert a + (p + p') == (a + p) + p' == (b + q) + p' == (b + p') + q == (c + q') + q == c + (q + q');
  }

  lemma {:induction false} RunAccounts<T>(s: State<T>, steps: seq<Step<T>>, depth: nat)
    requires Possible(s, steps, depth)
    ensures var r := Run(s, steps, depth);
            multiset(s.accepted) + HeldByProducers(s.producers) + multiset(Offered(steps))
            == multiset(r.accepted) + HeldByProducers(r.producers) + multiset(Refused(steps))
    decreases |steps|
  {
    hide HeldByProducers, Apply, OfferedIn, RefusedIn;
    if steps != [] {
      var next, r := Apply(s, steps[0], depth), Run(s, steps, depth);
      StepAccounts(s, steps[0], depth);
      RunAccounts(next, steps[1..], depth);
      AccountsAdd(multiset(s.accepted) + HeldByProducers(s.producers), multiset(next.accepted) + HeldByProducers(next.producers),
                  multiset(r.accepted) + HeldByProducers(r.producers),
                  OfferedIn(steps[0]), Offered(steps[1..]), RefusedIn(steps[0]), Refused(steps[1..]));
    }
  }

  lemma {:induction false} NobodyHolds<T>(producers: nat)
    ensures HeldByProducers(Init<T>(producers).producers) == multiset{}
  {
    if producers > 0 {
      NobodyHolds<T>(producers - 1);
      assert Init<T>(producers).producers[1..] == Init<T>(producers - 1).producers;
    }
  }

  /** In every run each item offered is accepted, held by a producer that has been admitted, or refused. */
  lemma {:induction false} EveryItemIsAccountedFor<T>(producers: nat, steps: seq<Step<T>>, depth: nat)
    requires Possible(Init<T>(producers), steps, depth)
    ensures var r := Run(Init<T>(producers), steps, depth);
            multiset(Offered(steps)) == multiset(r.accepted) + HeldByProducers(r.producers) + multiset(Refused(steps))
  {
    NobodyHolds<T>(producers);
    RunAccounts(Init<T>(producers), steps, depth);
  }

  lemma {:induction false} PrefixPossible<T>(s: State<T>, steps: seq<Step<T>>, i: nat, depth: nat)
    requires Possible(s, steps, depth) && i <= |steps|
    ensures Possible(s, steps[..i], depth)
    ensures i < |steps| ==> Enabled(Run(s, steps[..i], depth), steps[i], depth)
    decreases i
  {
    if i > 0 {
      assert steps[..i][0] == steps[0] && steps[..i][1..] == steps[1..][..i - 1];
      PrefixPossible(Apply(s, steps[0], depth), steps[1..], i - 1, depth);
    }
  }

  /** An item is refused only while the queue is longer than the limit, and admitted only while it is not. */
  lemma {:induction false} RefusedOnlyWhenOverLimit<T>(s: State<T>, steps: seq<Step<T>>, i: nat, depth: nat)
    requires Possible(s, steps, depth) && i < |steps|
    ensures Possible(s, steps[..i], depth)
    ensures steps[i].Refuse? ==> |Run(s, steps[..i], depth).queue| > depth
    ensures steps[i].Admit? ==> |Run(s, steps[..i], depth).queue| <= depth
  {
    PrefixPossible(s, steps, i, depth);
  }

  /** A producer that calls `enqueue` always gets through the check, one way or the other. */
  lemma EnqueueIsDecided<T>(s: State<T>, p: nat, entry: Entry<T>, depth: nat)
    requires p < |s.producers| && s.producers[p] == Outside
    ensures Enabled(s, Admit(p, entry), depth) <==> |s.queue| <= depth
    ensures Enabled(s, Refuse(p, entry), depth) <==> !(|s.queue| <= depth)
  {}

  lemma {:induction false} NothingRefused<T>(steps: seq<Step<T>>)
    requires forall i :: 0 <= i < |steps| ==> !steps[i].Refuse?
    ensures Refused(steps) == []
  {
    if steps != [] {
      assert !steps[0].Refuse?;
      NothingRefused(steps[1..]);
    }
  }

  /** The queue never exceeds the limit in any state of the run. */
  ghost predicate StaysWithin<T>(s: State<T>, steps: seq<Step<T>>, depth: nat)
    requires Possible(s, steps, depth)
  {
    forall i :: 0 <= i <= |steps| ==> Possible(s, steps[..i], depth) && |Run(s, steps[..i], depth).queue| <= depth
  }

  /** A run whose queue never exceeds the limit loses no item that is offered. */
  lemma {:induction false} NothingIsLostWithinTheLimit<T>(producers: nat, steps: seq<Step<T>>, depth: nat)
    requires Possible(Init<T>(producers), steps, depth) && StaysWithin(Init<T>(producers), steps, depth)
    ensures var r := Run(Init<T>(producers), steps, depth);
            multiset(Offered(steps)) == multiset(r.accepted) + HeldByProducers(r.producers)
  {
    hide Possible, Run, Offered, Refused;
    var s := Init<T>(producers);
    forall i | 0 <= i < |steps| ensures !steps[i].Refuse? {
      RefusedOnlyWhenOverLimit(s, steps, i, depth);
      assert |Run(s, steps[..i], depth).queue| <= depth;
    }
    NothingRefused(steps);
    EveryItemIsAccountedFor(producers, steps, depth);
  }

  // ---------- The bound is reached ----------

  lemma {:induction false} RunAppend<T>(s: State<T>, a: seq<Step<T>>, b: seq<Step<T>>, depth: nat)
    requires Possible(s, a, depth) && Possible(Run(s, a, depth), b, depth)
    ensures Possible(s, a + b, depth) && Run(s, a + b, depth) == Run(Run(s, a, depth), b, depth)
    decreases |a|
  {
    if a == [] {
      assert a + b == b;
    } else {
      RunAppend(Apply(s, a[0], depth), a[1..], b, depth);
      assert (a + b)[0] == a[0] && (a + b)[1..] == a[1..] + b;
    }
  }

  lemma {:induction false} OneStep<T>(s: State<T>, step: Step<T>, depth: nat)
    requires Enabled(s, step, depth)
    ensures Possible(s, [step], depth) && Run(s, [step], depth) == Apply(s, step, depth)
  {
    assert [step][1..] == [];
  }

  /** Producer 0 alone fills the queue up to the limit. */
  lemma {:induction false} Fill<T>(s: State<T>, n: nat, entry: Entry<T>, depth: nat) returns (steps: seq<Step<T>>)
    requires |s.producers| > 0 && (forall p :: 0 <= p < |s.producers| ==> s.producers[p].Outside?)
    requires |s.queue| + n <= depth
    ensures Possible(s, steps, depth)
    ensures var r := Run(s, steps, depth); r.producers == s.producers && |r.queue| == |s.queue| + n
    decreases n
  {
    if n == 0 {
      steps := [];
    } else {
      OneStep(s, Admit(0, entry), depth);
      var a := Apply(s, Admit(0, entry), depth);
      OneStep(a, Push(0), depth);
      var b := Apply(a, Push(0), depth);
      assert b.producers == s.producers;
      RunAppend(s, [Admit(0, entry)], [Push(0)], depth);
      var more := Fill(b, n - 1, entry, depth);
      steps := ([Admit(0, entry)] + [Push(0)]) + more;
      RunAppend(s, [Admit(0, entry)] + [Push(0)], more, depth);
    }
  }

  /** With the queue at the limit, all producers from `p` on can pass the check before any pushes. */
  lemma {:induction false} AdmitAll<T>(s: State<T>, p: nat, entry: Entry<T>, depth: nat) returns (steps: seq<Step<T>>)
    requires p <= |s.producers| && |s.queue| <= depth
    requires forall q :: p <= q < |s.producers| ==> s.producers[q].Outside?
    requires forall q :: 0 <= q < p ==> s.producers[q].Admitted?
    ensures Possible(s, steps, depth)
    ensures var r := Run(s, steps, depth);
            && |r.producers| == |s.producers| && r.queue == s.queue
            && forall q :: 0 <= q < |r.producers| ==> r.producers[q].Admitted?
    decreases |s.producers| - p
  {
    if p == |s.producers| {
      steps := [];
    } else {
      OneStep(s, Admit(p, entry), depth);
      var more := AdmitAll(Apply(s, Admit(p, entry), depth), p + 1, entry, depth);
      steps := [Admit(p, entry)] + more;
      RunAppend(s, [Admit(p, entry)], more, depth);
    }
  }

  lemma {:induction false} PushAll<T>(s: State<T>, p: nat, depth: nat) returns (steps: seq<Step<T>>)
    requires p <= |s.producers| && forall q :: p <= q < |s.producers| ==> s.producers[q].Admitted?
    ensures Possible(s, steps, depth)
    ensures |Run(s, steps, depth).queue| == |s.queue| + |s.producers| - p
    decreases |s.producers| - p
  {
    if p == |s.producers| {
      steps := [];
    } else {
      OneStep(s, Push(p), depth);
      var more := PushAll(Apply(s, Push(p), depth), p + 1, depth);
      steps := [Push(p)] + more;
      RunAppend(s, [Push(p)], more, depth);
    }
  }

  /** The bound is exact: some run overshoots the limit by one item for every producer. */
  lemma BoundIsReached<T>(producers: nat, entry: Entry<T>, depth: nat) returns (steps: seq<Step<T>>)
    requires producers > 0
    ensures Possible(Init<T>(producers), steps, depth)
    ensures |Run(Init<T>(producers), steps, depth).queue| == depth + producers
  {
    var s := Init<T>(producers);
    var a := Fill(s, depth, entry, depth);
    var s1 := Run(s, a, depth);
    var b := AdmitAll(s1, 0, entry, depth);
    var s2 := Run(s1, b, depth);
    var c := PushAll(s2, 0, depth);
    RunAppend(s, a, b, depth);
    steps := (a + b) + c;
    RunAppend(s, a + b, c, depth);
  }

  // ---------- The consumer gets through ----------

  predicate IsConsumerStep<T>(step: Step<T>) {
    step.Take? || step.Deliver? || step.Wait? || step.Wake?
  }

  /** Every item was enqueued with notification. */
  ghost predicate AllNotify<T>(s: State<T>) {
    && (forall i :: 0 <= i < |s.queue| ==> s.queue[i].notify)
    && (forall p :: 0 <= p < |s.producers| && s.producers[p].Admitted? ==> s.producers[p].entry.notify)
  }

  /** Unless it is parked without having been notified, the consumer has a step of its own to take. */
  function ConsumerStep<T>(s: State<T>): Step<T>
    requires s.consumer != Parked(false)
  {
    match s.consumer
    case Starting => Take
    case Delivering(_) => Deliver
    case Finishing => Wait
    case Parked(_) => Wake
  }

  /** How many steps of its own the consumer is away from having delivered everything. */
  function Work<T>(s: State<T>): nat {
    3 * |s.queue| +
    match s.consumer
    case Starting => if s.queue == [] then 0 else 1
    case Delivering(_) => 3
    case Finishing => if s.queue == [] then 0 else 2
    case Parked(_) => if s.queue == [] then 0 else 2
  }

  /** Left to itself, a consumer that has not missed a notification delivers every accepted item. */
  lemma {:induction false} ConsumerDrains<T>(s: State<T>, depth: nat) returns (steps: seq<Step<T>>)
    requires Conserved(s) && (s.consumer == Parked(false) ==> s.queue == [])
    ensures Possible(s, steps, depth) && forall i :: 0 <= i < |steps| ==> IsConsumerStep(steps[i])
    ensures var r := Run(s, steps, depth); r.queue == [] && r.delivered == s.accepted == r.accepted
    decreases Work(s)
  {
    if s.queue == [] && !s.consumer.Delivering? {
      steps := [];
      assert s.delivered + [] + [] == s.delivered;
    } else {
      var step := ConsumerStep(s);
      OneStep(s, step, depth);
      StepKeepsOrder(s, step, depth);
      var more := ConsumerDrains(Apply(s, step, depth), depth);
      steps := [step] + more;
      RunAppend(s, [step], more, depth);
    }
  }

  /** In a run where every item is enqueued with notification no wake-up is ever lost: wherever the
      run has got to, the consumer alone delivers everything that was accepted. */
  lemma NoWakeupIsLost<T>(producers: nat, steps: seq<Step<T>>, depth: nat) returns (more: seq<Step<T>>)
    requires Possible(Init<T>(producers), steps, depth)
    requires forall i :: 0 <= i < |steps| && steps[i].Admit? ==> steps[i].entry.notify
    ensures var s := Run(Init<T>(producers), steps, depth);
            && (s.consumer == Parked(false) ==> s.queue == [])
            && Possible(s, more, depth) && (forall i :: 0 <= i < |more| ==> IsConsumerStep(more[i]))
            && Run(s, more, depth).delivered == s.accepted
  {
    var s := Run(Init<T>(producers), steps, depth);
    EveryRunIsSafe(producers, steps, depth);
    RunNotifies(Init<T>(producers), steps, depth);
    assert s.queue != [] ==> s.queue[0].notify;
    more := ConsumerDrains(s, depth);
  }

  lemma {:induction false} RunNotifies<T>(s: State<T>, steps: seq<Step<T>>, depth: nat)
    requires Possible(s, steps, depth) && AllNotify(s)
    requires forall i :: 0 <= i < |steps| && steps[i].Admit? ==> steps[i].entry.notify
    ensures AllNotify(Run(s, steps, depth))
    decreases |steps|
  {
    if steps != [] {
      assert steps[0].Admit? ==> steps[0].entry.notify;
      RunNotifies(Apply(s, steps[0], depth), steps[1..], depth);
    }
  }

  // ---------- How long an item waits ----------

  function ConsumerSteps<T>(steps: seq<Step<T>>): nat {
    if steps == [] then 0 else (if IsConsumerStep(steps[0]) then 1 else 0) + ConsumerSteps(steps[1..])
  }

  /** How many steps of its own the consumer is away from having delivered `count` items. */
  function Distance<T>(s: State<T>, count: nat): nat {
    if |s.delivered| >= count then 0
    else
      3 * (count - |s.delivered| - 1) +
      match s.consumer
      case Starting => 2
      case Delivering(_) => 1
      case Finishing => 3
      case Parked(_) => 3
  }

  /** A run in which all is well so far: nothing lost, no notification missed, all items with notification. */
  ghost predicate Live<T>(s: State<T>) {
    Conserved(s) && NothingMissed(s) && AllNotify(s)
  }

  lemma StepStaysLive<T>(s: State<T>, step: Step<T>, depth: nat)
    requires Enabled(s, step, depth) && Live(s) && (step.Admit? ==> step.entry.notify)
    ensures Live(Apply(s, step, depth)) && |Apply(s, step, depth).accepted| >= |s.accepted|
  {
    StepKeepsOrder(s, step, depth);
  }

  /** A consumer that still has accepted items to deliver is not waiting in vain. */
  lemma AwakeWhileBehind<T>(s: State<T>)
    requires Live(s) && |s.delivered| < |s.accepted|
    ensures s.consumer != Parked(false)
    ensures !s.consumer.Delivering? ==> s.queue != []
  {
    assert |s.delivered| + |InFlight(s.consumer)| + |s.queue| == |s.accepted|;
    assert s.queue != [] ==> s.queue[0].notify;
  }

  /** A step of the consumer brings it one nearer, and no step takes it further away. */
  lemma StepGetsNearer<T>(s: State<T>, step: Step<T>, depth: nat, count: nat)
    requires Enabled(s, step, depth) && Live(s) && count <= |s.accepted|
    ensures var d, d' := Distance(s, count), Distance(Apply(s, step, depth), count);
            d' == if IsConsumerStep(step) && d > 0 then d - 1 else d
  {
    if |s.delivered| < count {
      AwakeWhileBehind(s);
    }
  }

  /** In any run, whatever the producers do in between, `count` accepted items are delivered once the
      consumer has taken as many steps as it was away from that; until then it always has a step to take. */
  lemma {:induction false} DeliveredWithin<T>(s: State<T>, steps: seq<Step<T>>, depth: nat, count: nat)
    requires Possible(s, steps, depth) && Live(s) && count <= |s.accepted|
    requires forall i :: 0 <= i < |steps| && steps[i].Admit? ==> steps[i].entry.notify
    ensures var r := Run(s, steps, depth);
            && (|r.delivered| >= count <==> ConsumerSteps(steps) >= Distance(s, count))
            && (|r.delivered| < count ==> r.consumer != Parked(false))
            && Live(r) && |r.accepted| >= count
    decreases |steps|
  {
    hide Live;
    if steps == [] {
      if |s.delivered| < count {
        AwakeWhileBehind(s);
      }
    } else {
      var next := Apply(s, steps[0], depth);
      assert steps[0].Admit? ==> steps[0].entry.notify;
      StepStaysLive(s, steps[0], depth);
      StepGetsNearer(s, steps[0], depth, count);
      DeliveredWithin(next, steps[1..], depth, count);
    }
  }

  lemma DistanceOfQueued<T>(s: State<T>, i: nat)
    requires i < |s.queue|
    ensures Distance(s, |s.delivered| + |InFlight(s.consumer)| + i + 1) <= 3 * i + 4
  {}

  /** At any time in any run with notification, the item at position `i` of the queue is delivered, in its
      turn, after at most `3 * i + 4` steps of the consumer, however the producers interleave with them. */
  lemma {:induction false} QueuedItemIsDeliveredWithin<T>(producers: nat, before: seq<Step<T>>, steps: seq<Step<T>>,
                                                          depth: nat, i: nat)
    requires Possible(Init<T>(producers), before, depth)
    requires Possible(Run(Init<T>(producers), before, depth), steps, depth)
    requires forall k :: 0 <= k < |before| && before[k].Admit? ==> before[k].entry.notify
    requires forall k :: 0 <= k < |steps| && steps[k].Admit? ==> steps[k].entry.notify
    requires var s := Run(Init<T>(producers), before, depth);
             i < |s.queue| && ConsumerSteps(steps) >= 3 * i + 4
    ensures var s := Run(Init<T>(producers), before, depth);
            var r, turn := Run(s, steps, depth), |s.delivered| + |InFlight(s.consumer)| + i;
            |r.delivered| > turn && r.delivered[turn] == s.queue[i].item
  {
    hide Possible, Run, Distance, ConsumerSteps;
    var s := Run(Init<T>(producers), before, depth);
    InitKeeps<T>(producers, depth);
    RunKeeps(Init<T>(producers), before, depth);
    RunNotifies(Init<T>(producers), before, depth);
    var turn := |s.delivered| + |InFlight(s.consumer)| + i;
    DistanceOfQueued(s, i);
    DeliveredWithin(s, steps, depth, turn + 1);
    RunExtends(s, steps, depth);
    AcceptedAt(s, i);
    var r := Run(s, steps, depth);
    assert r.delivered[turn] == r.accepted[turn] == s.accepted[turn];
  }

  /** The item at position `i` of the queue among the accepted ones. */
  lemma AcceptedAt<T>(s: State<T>, i: nat)
    requires Conserved(s) && i < |s.queue|
    ensures var turn := |s.delivered| + |InFlight(s.consumer)| + i;
            turn < |s.accepted| && s.accepted[turn] == s.queue[i].item
  {
    ItemAt(s.queue, i);
  }

  lemma {:induction false} ItemAt<T>(queue: seq<Entry<T>>, i: nat)
    requires i < |queue|
    ensures Items(queue)[i] == queue[i].item
  {
    if i > 0 {
      ItemAt(queue[1..], i - 1);
    }
  }

  /** What has been accepted stays accepted, in its place. */
  lemma {:induction false} RunExtends<T>(s: State<T>, steps: seq<Step<T>>, depth: nat)
    requires Possible(s, steps, depth)
    ensures s.accepted <= Run(s, steps, depth).accepted
    decreases |steps|
  {
    if steps != [] {
      RunExtends(Apply(s, steps[0], depth), steps[1..], depth);
    }
  }

  /** Without notification an item can stay in the queue while the consumer waits. */
  lemma {:induction false} QuietItemCanWait<T>(item: T, depth: nat)
    ensures var steps := [Take, Wait, Admit(0, Entry(item, false)), Push(0)];
            && Possible(Init<T>(1), steps, depth)
            && Run(Init<T>(1), steps, depth).consumer == Parked(false)
            && Run(Init<T>(1), steps, depth).queue == [Entry(item, false)]
  {
    var s := Init<T>(1);
    var e := Entry(item, false);
    OneStep(s, Take, depth);
    var s1 := Apply(s, Take, depth);
    OneStep(s1, Wait, depth);
    var s2 := Apply(s1, Wait, depth);
    OneStep(s2, Admit(0, e), depth);
    var s3 := Apply(s2, Admit(0, e), depth);
    OneStep(s3, Push(0), depth);
    RunAppend(s2, [Admit(0, e)], [Push(0)], depth);
    RunAppend(s1, [Wait], [Admit(0, e)] + [Push(0)], depth);
    RunAppend(s, [Take], [Wait] + ([Admit(0, e)] + [Push(0)]), depth);
    assert [Take] + ([Wait] + ([Admit(0, e)] + [Push(0)])) == [Take, Wait, Admit(0, e), Push(0)];
  }
}
