/**
 The producer/consumer queue of flashlight/lib/common/ProducerConsumerQueue.h as a machine
 of atomic steps: what a thread does between acquiring the mutex and releasing it, whether by
 returning or by waiting on a condition variable.

 Producers call add once for every item of their program; consumers loop on get until it
 returns false. `notify_one` wakes any one waiting thread, and waiting threads may also wake
 up spuriously. Safety holds however often and however early `finishAdding` is called; that some
 thread can always move needs the header's rule that all producers have returned by then.
 */
module Queue {

  /** Where a thread stands: about to take the mutex, waiting, woken but without the mutex yet, or gone. */
  datatype Status = Ready | Waiting | Woken | Exited

  datatype Producer<T> = Producer(pending: seq<T>, status: Status)

  datatype State<T> = State(
    maxSize: nat,
    programs: seq<seq<T>>,
    queue: seq<T>,
    finished: bool,
    producers: seq<Producer<T>>,
    consumers: seq<Status>,
    accepted: seq<(nat, T)>,
    delivered: seq<T>)

  // ---------------------------------------------------------------- steps

  ghost predicate Full<T>(s: State<T>) {
    |s.queue| >= s.maxSize
  }

  ghost predicate CanRun(status: Status) {
    status == Ready || status == Woken
  }

  /** notify_one on the producers' condition variable. */
  ghost predicate NotifyProducer<T>(a: seq<Producer<T>>, b: seq<Producer<T>>) {
    || (a == b && forall i | 0 <= i < |a| :: a[i].status != Waiting)
    || exists i :: 0 <= i < |a| && a[i].status == Waiting && b == a[i := a[i].(status := Woken)]
  }

  /** notify_one on the consumers' condition variable. */
  ghost predicate NotifyConsumer(a: seq<Status>, b: seq<Status>) {
    || (a == b && forall i | 0 <= i < |a| :: a[i] != Waiting)
    || exists i :: 0 <= i < |a| && a[i] == Waiting && b == a[i := Woken]
  }

  /** A producer inside add, with the mutex. */
  ghost predicate Adding<T>(s: State<T>, p: nat) {
    p < |s.producers| && s.producers[p].pending != [] && CanRun(s.producers[p].status)
  }

  /** A consumer inside get, with the mutex. */
  ghost predicate Getting<T>(s: State<T>, c: nat) {
    c < |s.consumers| && CanRun(s.consumers[c])
  }

  ghost predicate AddWaits<T>(s: State<T>, t: State<T>, p: nat) {
    && Adding(s, p) && Full(s) && !s.finished
    && t == s.(producers := s.producers[p := s.producers[p].(status := Waiting)])
  }

  /** The call returned: the item has been taken off the program. */
  ghost function Returned<T>(s: State<T>, p: nat): seq<Producer<T>>
    requires Adding(s, p)
  {
    s.producers[p := Producer(s.producers[p].pending[1..], Ready)]
  }

  ghost predicate AddIgnored<T>(s: State<T>, t: State<T>, p: nat) {
    && Adding(s, p) && s.finished
    && t == s.(producers := Returned(s, p))
  }

  ghost predicate AddAccepted<T>(s: State<T>, t: State<T>, p: nat) {
    && Adding(s, p) && !Full(s) && !s.finished
    && var item := s.producers[p].pending[0];
       && t == s.(queue := s.queue + [item], accepted := s.accepted + [(p, item)],
                  producers := t.producers, consumers := t.consumers)
       && (if Full(t) then t.producers == Returned(s, p) else NotifyProducer(Returned(s, p), t.producers))
       && NotifyConsumer(s.consumers, t.consumers)
  }

  ghost predicate GetWaits<T>(s: State<T>, t: State<T>, c: nat) {
    && Getting(s, c) && s.queue == [] && !s.finished
    && t == s.(consumers := s.consumers[c := Waiting])
  }

  /** get returned false, and the consumer leaves its loop. */
  ghost predicate GetEnds<T>(s: State<T>, t: State<T>, c: nat) {
    && Getting(s, c) && s.queue == [] && s.finished
    && t == s.(consumers := s.consumers[c := Exited])
  }

  ghost predicate GetDelivers<T>(s: State<T>, t: State<T>, c: nat) {
    && Getting(s, c) && s.queue != []
    && t == s.(queue := s.queue[1..], delivered := s.delivered + [s.queue[0]],
               producers := t.producers, consumers := t.consumers)
    && (if t.queue == [] then t.consumers == s.consumers[c := Ready]
        else NotifyConsumer(s.consumers[c := Ready], t.consumers))
    && NotifyProducer(s.producers, t.producers)
  }

  ghost predicate AllReturned<T>(s: State<T>) {
    forall p | 0 <= p < |s.producers| :: s.producers[p].pending == []
  }

  ghost function WakeAll(a: seq<Status>): (b: seq<Status>)
    ensures |b| == |a|
  {
    seq(|a|, i requires 0 <= i < |a| => if a[i] == Waiting then Woken else a[i])
  }

  /** finishAdding, for the first time or again. */
  ghost predicate Finishes<T>(s: State<T>, t: State<T>) {
    t == s.(finished := true, consumers := WakeAll(s.consumers))
  }

  ghost predicate SpuriousProducer<T>(s: State<T>, t: State<T>, p: nat) {
    && p < |s.producers| && s.producers[p].status == Waiting
    && t == s.(producers := s.producers[p := s.producers[p].(status := Woken)])
  }

  ghost predicate SpuriousConsumer<T>(s: State<T>, t: State<T>, c: nat) {
    && c < |s.consumers| && s.consumers[c] == Waiting
    && t == s.(consumers := s.consumers[c := Woken])
  }

  ghost predicate ProducerStep<T>(s: State<T>, t: State<T>, p: nat) {
    AddWaits(s, t, p) || AddIgnored(s, t, p) || AddAccepted(s, t, p)
  }

  ghost predicate ConsumerStep<T>(s: State<T>, t: State<T>, c: nat) {
    GetWaits(s, t, c) || GetEnds(s, t, c) || GetDelivers(s, t, c)
  }

  ghost predicate ThreadStep<T>(s: State<T>, t: State<T>) {
    (exists p :: ProducerStep(s, t, p)) || (exists c :: ConsumerStep(s, t, c))
  }

  ghost predicate Spurious<T>(s: State<T>, t: State<T>) {
    (exists p :: SpuriousProducer(s, t, p)) || (exists c :: SpuriousConsumer(s, t, c))
  }

  /** Any program: finishAdding may be called at any time and more than once. */
  ghost predicate LooseStep<T>(s: State<T>, t: State<T>) {
    ThreadStep(s, t) || Finishes(s, t)
  }

  ghost predicate LooseNext<T>(s: State<T>, t: State<T>) {
    LooseStep(s, t) || Spurious(s, t)
  }

  ghost predicate LooseInit<T>(s: State<T>) {
    && |s.producers| == |s.programs|
    && s.queue == [] && !s.finished && s.accepted == [] && s.delivered == []
    && (forall p | 0 <= p < |s.producers| :: s.producers[p] == Producer(s.programs[p], Ready))
    && (forall c | 0 <= c < |s.consumers| :: s.consumers[c] == Ready)
  }

  ghost predicate LooseRun<T>(run: seq<State<T>>) {
    run != [] && LooseInit(run[0]) && forall i | 0 < i < |run| :: LooseNext(run[i - 1], run[i])
  }

  /** A program that keeps the rule: finishAdding is called once, after all producers have returned. */
  ghost predicate Step<T>(s: State<T>, t: State<T>) {
    ThreadStep(s, t) || (AllReturned(s) && !s.finished && Finishes(s, t))
  }

  ghost predicate Next<T>(s: State<T>, t: State<T>) {
    Step(s, t) || Spurious(s, t)
  }

  /** There is room for an item, and somebody to take it. */
  ghost predicate Init<T>(s: State<T>) {
    LooseInit(s) && s.maxSize >= 1 && |s.consumers| >= 1
  }

  ghost predicate Run<T>(run: seq<State<T>>) {
    run != [] && Init(run[0]) && forall i | 0 < i < |run| :: Next(run[i - 1], run[i])
  }

  // ---------------------------------------------------------------- the invariant

  ghost function Items<T>(accepted: seq<(nat, T)>): seq<T> {
    if accepted == [] then [] else Items(accepted[..|accepted| - 1]) + [accepted[|accepted| - 1].1]
  }

  /** The items accepted from producer p, in order. */
  ghost function From<T>(accepted: seq<(nat, T)>, p: nat): seq<T> {
    if accepted == [] then []
    else
      var last := accepted[|accepted| - 1];
      From(accepted[..|accepted| - 1], p) + (if last.0 == p then [last.1] else [])
  }

  ghost predicate AnyWaiting(a: seq<Status>) { exists c :: 0 <= c < |a| && a[c] == Waiting }
  ghost predicate AnyWoken(a: seq<Status>) { exists c :: 0 <= c < |a| && a[c] == Woken }
  ghost predicate ProducerWaiting<T>(a: seq<Producer<T>>) { exists p :: 0 <= p < |a| && a[p].status == Waiting }
  ghost predicate ProducerWoken<T>(a: seq<Producer<T>>) { exists p :: 0 <= p < |a| && a[p].status == Woken }

  /** No wake-up is lost: whoever could go on while another waits, someone has been woken to see it. */
  ghost predicate NoLostWakeup<T>(s: State<T>) {
    && (s.queue != [] && AnyWaiting(s.consumers) ==> AnyWoken(s.consumers))
    && (!s.finished && !Full(s) && ProducerWaiting(s.producers) ==> ProducerWoken(s.producers))
  }

  /** First in, first out: what was accepted is what was delivered, then what is queued. */
  ghost predicate Fifo<T>(s: State<T>) {
    && |s.queue| <= s.maxSize
    && Items(s.accepted) == s.delivered + s.queue
    && |s.producers| == |s.programs|
    && (forall p | 0 <= p < |s.programs| :: From(s.accepted, p) <= s.programs[p])
    && (!s.finished ==>
          forall p | 0 <= p < |s.programs| :: From(s.accepted, p) + s.producers[p].pending == s.programs[p])
  }

  /** Who may be where: only a producer with an item waits, and only after finishing do consumers leave. */
  ghost predicate Orderly<T>(s: State<T>) {
    && (forall p | 0 <= p < |s.producers| ::
         s.producers[p].status != Exited && (s.producers[p].status != Ready ==> s.producers[p].pending != []))
    && (s.finished ==> !AnyWaiting(s.consumers))
    && (forall c | 0 <= c < |s.consumers| && s.consumers[c] == Exited :: s.finished && s.queue == [])
  }

  ghost predicate Invariant<T>(s: State<T>) {
    NoLostWakeup(s) && Fifo(s) && Orderly(s)
  }

  lemma {:induction false} InitEstablishes<T>(s: State<T>)
    requires LooseInit(s)
    ensures Invariant(s)
  {
  }

  // ---------------------------------------------------------------- every step keeps the invariant

  lemma {:induction false} HistoryGrows<T>(accepted: seq<(nat, T)>, p: nat, item: T)
    ensures Items(accepted + [(p, item)]) == Items(accepted) + [item]
    ensures forall q: nat :: From(accepted + [(p, item)], q) == From(accepted, q) + (if p == q then [item] else [])
  {
  }

  /** After notify_one nobody waits, or somebody is woken; and nothing else about the threads changes. */
  lemma {:induction false} NotifiedProducer<T>(a: seq<Producer<T>>, b: seq<Producer<T>>)
    requires NotifyProducer(a, b)
    ensures |a| == |b| && forall i | 0 <= i < |a| ::
              b[i].pending == a[i].pending && (b[i] == a[i] || (a[i].status == Waiting && b[i].status == Woken))
    ensures ProducerWaiting(b) ==> ProducerWoken(b)
  {
  }

  lemma {:induction false} NotifiedConsumer(a: seq<Status>, b: seq<Status>)
    requires NotifyConsumer(a, b)
    ensures |a| == |b| && forall i | 0 <= i < |a| :: b[i] == a[i] || (a[i] == Waiting && b[i] == Woken)
    ensures AnyWaiting(b) ==> AnyWoken(b)
  {
  }

  lemma {:induction false} AcceptedPending<T>(s: State<T>, t: State<T>, p: nat)
    requires AddAccepted(s, t, p)
    ensures |t.producers| == |s.producers|
    ensures forall q | 0 <= q < |s.producers| ::
      && t.producers[q].pending == (if q == p then s.producers[p].pending[1..] else s.producers[q].pending)
      && (t.producers[q] == Returned(s, p)[q]
          || (q != p && s.producers[q].status == Waiting && t.producers[q].status == Woken))
  {
    if !Full(t) { NotifiedProducer(Returned(s, p), t.producers); }
  }

  lemma {:induction false} AcceptedFifo<T>(s: State<T>, t: State<T>, p: nat)
    requires Fifo(s) && AddAccepted(s, t, p)
    ensures Fifo(t)
  {
    var item := s.producers[p].pending[0];
    HistoryGrows(s.accepted, p, item);
    AcceptedPending(s, t, p);
    assert Items(t.accepted) == t.delivered + t.queue;
    forall q | 0 <= q < |t.programs| ensures From(t.accepted, q) + t.producers[q].pending == t.programs[q] {
      assert From(s.accepted, q) + s.producers[q].pending == s.programs[q];
      if p == q { assert s.producers[p].pending == [item] + s.producers[p].pending[1..]; }
    }
  }

  lemma {:induction false} AcceptedKeeps<T>(s: State<T>, t: State<T>, p: nat)
    requires Invariant(s) && AddAccepted(s, t, p)
    ensures Invariant(t)
  {
    AcceptedFifo(s, t, p);
    AcceptedPending(s, t, p);
    NotifiedConsumer(s.consumers, t.consumers);
    if !Full(t) { NotifiedProducer(Returned(s, p), t.producers); }
  }

  lemma {:induction false} DeliveredKeeps<T>(s: State<T>, t: State<T>, c: nat)
    requires Invariant(s) && GetDelivers(s, t, c)
    ensures Invariant(t)
  {
    NotifiedProducer(s.producers, t.producers);
    var freed := s.consumers[c := Ready];
    if t.queue != [] { NotifiedConsumer(freed, t.consumers); }
    assert s.queue == [s.queue[0]] + t.queue;
    assert Items(t.accepted) == t.delivered + t.queue;
    assert forall d | 0 <= d < |t.consumers| && t.consumers[d] == Exited :: s.consumers[d] == Exited;
    assert forall d | 0 <= d < |t.consumers| && t.consumers[d] == Waiting :: s.consumers[d] == Waiting;
  }

  /** A producer that waits, or returns without its item because adding is finished. */
  lemma {:induction false} NotAcceptedKeeps<T>(s: State<T>, t: State<T>, p: nat)
    requires Invariant(s) && (AddWaits(s, t, p) || AddIgnored(s, t, p))
    ensures Invariant(t)
  {
    assert forall q | 0 <= q < |t.producers| && q != p :: t.producers[q] == s.producers[q];
  }

  /** A consumer that waits, or leaves because adding is finished and the queue empty. */
  lemma {:induction false} NotDeliveredKeeps<T>(s: State<T>, t: State<T>, c: nat)
    requires Invariant(s) && (GetWaits(s, t, c) || GetEnds(s, t, c))
    ensures Invariant(t)
  {
    assert forall d | 0 <= d < |t.consumers| && d != c :: t.consumers[d] == s.consumers[d];
    assert AnyWaiting(t.consumers) ==> !s.finished;
  }

  lemma {:induction false} SpuriousKeeps<T>(s: State<T>, t: State<T>)
    requires Invariant(s) && Spurious(s, t)
    ensures Invariant(t)
  {
    if p: nat :| SpuriousProducer(s, t, p) {
      assert t.producers[p].status == Woken;
      assert forall q | 0 <= q < |t.producers| :: t.producers[q].pending == s.producers[q].pending;
    } else {
      var c: nat :| SpuriousConsumer(s, t, c);
      assert t.consumers[c] == Woken;
      assert forall d | 0 <= d < |t.consumers| && d != c :: t.consumers[d] == s.consumers[d];
    }
  }

  lemma {:induction false} FinishKeeps<T>(s: State<T>, t: State<T>)
    requires Invariant(s) && Finishes(s, t)
    ensures Invariant(t)
  {
  }

  /** Every step of any program, wanted or spurious, keeps the invariant. */
  lemma {:induction false} NextKeeps<T>(s: State<T>, t: State<T>)
    requires Invariant(s) && LooseNext(s, t)
    ensures Invariant(t)
  {
    if p: nat :| ProducerStep(s, t, p) {
      if AddAccepted(s, t, p) { AcceptedKeeps(s, t, p); } else { NotAcceptedKeeps(s, t, p); }
    } else if c: nat :| ConsumerStep(s, t, c) {
      if GetDelivers(s, t, c) { DeliveredKeeps(s, t, c); } else { NotDeliveredKeeps(s, t, c); }
    } else if Spurious(s, t) {
      SpuriousKeeps(s, t);
    } else {
      FinishKeeps(s, t);
    }
  }

  /** Every state of every run of any program satisfies the invariant. */
  lemma {:induction false} RunsKeep<T>(run: seq<State<T>>, i: nat)
    requires LooseRun(run) && i < |run|
    ensures Invariant(run[i])
    decreases i
  {
    if i == 0 {
      InitEstablishes(run[0]);
    } else {
      RunsKeep(run, i - 1);
      assert LooseNext(run[i - 1], run[i]);
      NextKeeps(run[i - 1], run[i]);
    }
  }

  /** In any program get returns false only once adding is finished and all that was accepted has been delivered. */
  lemma {:induction false} FalseMeansDone<T>(run: seq<State<T>>, i: nat, t: State<T>, c: nat)
    requires LooseRun(run) && i < |run| && GetEnds(run[i], t, c)
    ensures run[i].finished && run[i].delivered == Items(run[i].accepted)
  {
    RunsKeep(run, i);
    assert run[i].delivered + run[i].queue == run[i].delivered;
  }

  // ---------------------------------------------------------------- the capacity

  /** A producer waits only when the queue holds exactly maxSize items. */
  lemma {:induction false} WaitsOnlyAtCapacity<T>(run: seq<State<T>>, i: nat, t: State<T>, p: nat)
    requires LooseRun(run) && i < |run| && AddWaits(run[i], t, p)
    ensures |run[i].queue| == run[i].maxSize
  {
    RunsKeep(run, i);
  }

  /** While there is room and adding goes on, add accepts the item: it can, and it does nothing else. */
  lemma {:induction false} RoomIsUsed<T(!new)>(s: State<T>, p: nat) returns (t: State<T>)
    requires Adding(s, p) && |s.queue| < s.maxSize && !s.finished
    ensures AddAccepted(s, t, p)
    ensures forall u :: ProducerStep(s, u, p) ==>
      && u.queue == s.queue + [s.producers[p].pending[0]]
      && u.accepted == s.accepted + [(p, s.producers[p].pending[0])]
  {
    t := ProducerMoves(s, p);
  }

  /** At capacity add waits, and once adding is finished it returns without the item; it can do nothing else. */
  lemma {:induction false} NoRoom<T(!new)>(s: State<T>, p: nat) returns (t: State<T>)
    requires Adding(s, p) && (|s.queue| >= s.maxSize || s.finished)
    ensures ProducerStep(s, t, p)
    ensures forall u :: ProducerStep(s, u, p) ==>
      && u.queue == s.queue && u.accepted == s.accepted
      && u.producers[p] == if s.finished then Producer(s.producers[p].pending[1..], Ready)
                           else Producer(s.producers[p].pending, Waiting)
  {
    t := ProducerMoves(s, p);
  }

  /** get takes the oldest item when there is one, otherwise leaves or waits, as adding is finished or not. */
  lemma {:induction false} GetDoes<T(!new)>(s: State<T>, c: nat) returns (t: State<T>)
    requires Getting(s, c)
    ensures ConsumerStep(s, t, c)
    ensures forall u :: ConsumerStep(s, u, c) ==>
      if s.queue != [] then u.queue == s.queue[1..] && u.delivered == s.delivered + [s.queue[0]]
      else
        && u.queue == [] && u.delivered == s.delivered
        && u.consumers == s.consumers[c := if s.finished then Exited else Waiting]
  {
    t := ConsumerMoves(s, c);
  }

  ghost function Zeros(n: nat): (r: seq<int>)
    ensures |r| == n
  {
    seq(n, _ => 0)
  }

  /** One producer with n more items to add, and nobody to take them. */
  ghost predicate Filling(s: State<int>, maxSize: nat, n: nat) {
    && s.maxSize == maxSize && !s.finished && |s.producers| == 1 && s.consumers == []
    && |s.producers[0].pending| == n && s.producers[0].status == Ready && |s.queue| + n == maxSize
  }

  lemma {:induction false} FillingGoesOn(s: State<int>, maxSize: nat, n: nat) returns (t: State<int>)
    requires Filling(s, maxSize, n) && n > 0
    ensures LooseNext(s, t) && Filling(t, maxSize, n - 1)
  {
    t := RoomIsUsed(s, 0);
    assert ProducerStep(s, t, 0);
    if !Full(t) { NotifiedProducer(Returned(s, 0), t.producers); }
    NotifiedConsumer(s.consumers, t.consumers);
  }

  lemma {:induction false} FillFrom(run: seq<State<int>>, maxSize: nat, n: nat) returns (longer: seq<State<int>>)
    requires LooseRun(run) && Filling(run[|run| - 1], maxSize, n)
    ensures LooseRun(longer) && Filling(longer[|longer| - 1], maxSize, 0)
    decreases n
  {
    longer := run;
    if n > 0 {
      var t := FillingGoesOn(run[|run| - 1], maxSize, n);
      var more := run + [t];
      forall i | 0 < i < |more| ensures LooseNext(more[i - 1], more[i]) {
        if i < |run| { assert LooseNext(run[i - 1], run[i]); }
      }
      longer := FillFrom(more, maxSize, n - 1);
    }
  }

  /** Every capacity is used to the full by some run. */
  lemma {:induction false} CapacityIsReached(maxSize: nat) returns (run: seq<State<int>>)
    ensures LooseRun(run) && run[|run| - 1].maxSize == maxSize && |run[|run| - 1].queue| == maxSize
  {
    var items := Zeros(maxSize);
    var s := State(maxSize, [items], [], false, [Producer(items, Ready)], [], [], []);
    run := FillFrom([s], maxSize, maxSize);
  }

  // ---------------------------------------------------------------- programs that keep the rule

  /** By the time adding is finished, the producers have returned and all their items were accepted. */
  ghost predicate RuleKept<T>(s: State<T>) {
    && s.maxSize >= 1 && |s.consumers| >= 1
    && (s.finished ==> AllReturned(s) && forall p | 0 <= p < |s.programs| :: From(s.accepted, p) == s.programs[p])
  }

  /** Producers only ever get items off their programs, and nothing is accepted after finishing. */
  lemma {:induction false} NextShrinks<T>(s: State<T>, t: State<T>)
    requires LooseNext(s, t) && AllReturned(s)
    ensures AllReturned(t) && t.accepted == s.accepted
  {
    if c: nat :| GetDelivers(s, t, c) {
      NotifiedProducer(s.producers, t.producers);
    }
  }

  lemma {:induction false} NextSizes<T>(s: State<T>, t: State<T>)
    requires LooseNext(s, t)
    ensures t.maxSize == s.maxSize && t.programs == s.programs && |t.consumers| == |s.consumers|
    ensures s.finished ==> t.finished
    ensures t.finished && !s.finished ==> Finishes(s, t)
  {
    if p: nat :| AddAccepted(s, t, p) {
      NotifiedConsumer(s.consumers, t.consumers);
    } else if c: nat :| GetDelivers(s, t, c) {
      if t.queue != [] { NotifiedConsumer(s.consumers[c := Ready], t.consumers); }
    }
  }

  lemma {:induction false} RuleStays<T>(s: State<T>, t: State<T>)
    requires Invariant(s) && RuleKept(s) && Next(s, t)
    ensures RuleKept(t) && LooseNext(s, t)
  {
    NextSizes(s, t);
    if s.finished {
      NextShrinks(s, t);
    } else if t.finished {
      assert AllReturned(s);
      forall p | 0 <= p < |s.programs| ensures From(s.accepted, p) == s.programs[p] {
        assert From(s.accepted, p) + [] == From(s.accepted, p);
      }
    }
  }

  /** Such a run is a run, and every state of it keeps the rule. */
  lemma {:induction false} RunsObey<T>(run: seq<State<T>>, i: nat)
    requires Run(run) && i < |run|
    ensures Invariant(run[i]) && RuleKept(run[i])
    decreases i
  {
    if i == 0 {
      InitEstablishes(run[0]);
    } else {
      RunsObey(run, i - 1);
      assert Next(run[i - 1], run[i]);
      RuleStays(run[i - 1], run[i]);
      NextKeeps(run[i - 1], run[i]);
    }
  }

  /** Under the rule get returns false only once every item of every producer has been delivered. */
  lemma {:induction false} FalseMeansAll<T>(run: seq<State<T>>, i: nat, t: State<T>, c: nat)
    requires Run(run) && i < |run| && GetEnds(run[i], t, c)
    ensures run[i].finished && run[i].delivered == Items(run[i].accepted)
    ensures forall p | 0 <= p < |run[i].programs| :: From(run[i].accepted, p) == run[i].programs[p]
  {
    RunsObey(run, i);
    assert run[i].delivered + run[i].queue == run[i].delivered;
  }

  // ---------------------------------------------------------------- somebody can always move

  ghost function WakeProducer<T>(a: seq<Producer<T>>): (b: seq<Producer<T>>)
    ensures NotifyProducer(a, b)
  {
    if i :| 0 <= i < |a| && a[i].status == Waiting then a[i := a[i].(status := Woken)] else a
  }

  ghost function WakeConsumer(a: seq<Status>): (b: seq<Status>)
    ensures NotifyConsumer(a, b)
  {
    if i :| 0 <= i < |a| && a[i] == Waiting then a[i := Woken] else a
  }

  lemma {:induction false} ProducerMoves<T>(s: State<T>, p: nat) returns (t: State<T>)
    requires Adding(s, p)
    ensures ProducerStep(s, t, p)
  {
    if s.finished {
      t := s.(producers := Returned(s, p));
      assert AddIgnored(s, t, p);
    } else if Full(s) {
      t := s.(producers := s.producers[p := s.producers[p].(status := Waiting)]);
      assert AddWaits(s, t, p);
    } else {
      var item := s.producers[p].pending[0];
      var q := s.queue + [item];
      var ps := if |q| >= s.maxSize then Returned(s, p) else WakeProducer(Returned(s, p));
      t := s.(queue := q, accepted := s.accepted + [(p, item)], producers := ps,
          consumers := WakeConsumer(s.consumers));
      assert AddAccepted(s, t, p);
    }
  }

  lemma {:induction false} ConsumerMoves<T>(s: State<T>, c: nat) returns (t: State<T>)
    requires Getting(s, c)
    ensures ConsumerStep(s, t, c)
  {
    if s.queue != [] {
      var freed := s.consumers[c := Ready];
      var cs := if s.queue[1..] == [] then freed else WakeConsumer(freed);
      t := s.(queue := s.queue[1..], delivered := s.delivered + [s.queue[0]],
              producers := WakeProducer(s.producers), consumers := cs);
      assert GetDelivers(s, t, c);
    } else if s.finished {
      t := s.(consumers := s.consumers[c := Exited]);
      assert GetEnds(s, t, c);
    } else {
      t := s.(consumers := s.consumers[c := Waiting]);
      assert GetWaits(s, t, c);
    }
  }

  ghost predicate AllExited<T>(s: State<T>) {
    forall c | 0 <= c < |s.consumers| :: s.consumers[c] == Exited
  }

  /** Until all consumers have left, some thread can take a step without any spurious wake-up. */
  lemma {:induction false} SomeoneMoves<T>(s: State<T>) returns (t: State<T>)
    requires Invariant(s) && RuleKept(s) && !AllExited(s)
    ensures Step(s, t)
  {
    if p: nat :| Adding(s, p) {
      t := ProducerMoves(s, p);
    } else if c: nat :| Getting(s, c) {
      t := ConsumerMoves(s, c);
    } else {
      NobodyRuns(s);
      t := s.(finished := true, consumers := WakeAll(s.consumers));
      assert Finishes(s, t);
    }
  }

  /** When no thread can run, all producers have returned and nobody has said so yet. */
  lemma {:induction false} NobodyRuns<T>(s: State<T>)
    requires Invariant(s) && RuleKept(s) && !AllExited(s)
    requires forall p: nat :: !Adding(s, p)
    requires forall c: nat :: !Getting(s, c)
    ensures AllReturned(s) && !s.finished
  {
    var c :| 0 <= c < |s.consumers| && s.consumers[c] != Exited;
    assert !Getting(s, c);
    assert s.consumers[c] == Waiting;
    assert AnyWaiting(s.consumers) && !s.finished;
    assert !AnyWoken(s.consumers) by {
      if AnyWoken(s.consumers) {
        var d :| 0 <= d < |s.consumers| && s.consumers[d] == Woken;
        assert Getting(s, d);
        assert false;
      }
    }
    assert s.queue == [];
    forall p | 0 <= p < |s.producers| ensures s.producers[p].status == Waiting || s.producers[p].pending == [] {
      assert !Adding(s, p);
    }
    assert !ProducerWoken(s.producers);
    assert !ProducerWaiting(s.producers);
  }

  // ---------------------------------------------------------------- the machine comes to an end

  ghost function Energy(status: Status): nat {
    if CanRun(status) then 1 else 0
  }

  ghost function ProducerEnergy<T>(p: Producer<T>): nat {
    8 * |p.pending| + Energy(p.status)
  }

  ghost function ProducersEnergy<T>(a: seq<Producer<T>>): nat {
    if a == [] then 0 else ProducersEnergy(a[..|a| - 1]) + ProducerEnergy(a[|a| - 1])
  }

  ghost function ConsumersEnergy(a: seq<Status>): nat {
    if a == [] then 0 else ConsumersEnergy(a[..|a| - 1]) + Energy(a[|a| - 1])
  }

  ghost function Measure<T>(s: State<T>): nat {
    ProducersEnergy(s.producers) + ConsumersEnergy(s.consumers) + 4 * |s.queue|
    + (if s.finished then 0 else |s.consumers| + 1)
  }

  lemma {:induction false} ProducersUpdate<T>(a: seq<Producer<T>>, i: nat, x: Producer<T>)
    requires i < |a|
    ensures ProducersEnergy(a[i := x]) == ProducersEnergy(a) - ProducerEnergy(a[i]) + ProducerEnergy(x)
    decreases |a|
  {
    var b := a[i := x];
    if i == |a| - 1 {
      assert b[..|b| - 1] == a[..|a| - 1];
    } else {
      ProducersUpdate(a[..|a| - 1], i, x);
      assert b[..|b| - 1] == a[..|a| - 1][i := x];
    }
  }

  lemma {:induction false} ConsumersUpdate(a: seq<Status>, i: nat, x: Status)
    requires i < |a|
    ensures ConsumersEnergy(a[i := x]) == ConsumersEnergy(a) - Energy(a[i]) + Energy(x)
    decreases |a|
  {
    var b := a[i := x];
    if i == |a| - 1 {
      assert b[..|b| - 1] == a[..|a| - 1];
    } else {
      ConsumersUpdate(a[..|a| - 1], i, x);
      assert b[..|b| - 1] == a[..|a| - 1][i := x];
    }
  }

  lemma {:induction false} NotifyProducerCost<T>(a: seq<Producer<T>>, b: seq<Producer<T>>)
    requires NotifyProducer(a, b)
    ensures ProducersEnergy(b) <= ProducersEnergy(a) + 1
  {
    if !(a == b && forall i | 0 <= i < |a| :: a[i].status != Waiting) {
      var i :| 0 <= i < |a| && a[i].status == Waiting && b == a[i := a[i].(status := Woken)];
      ProducersUpdate(a, i, a[i].(status := Woken));
    }
  }

  lemma {:induction false} NotifyConsumerCost(a: seq<Status>, b: seq<Status>)
    requires NotifyConsumer(a, b)
    ensures ConsumersEnergy(b) <= ConsumersEnergy(a) + 1
  {
    if !(a == b && forall i | 0 <= i < |a| :: a[i] != Waiting) {
      var i :| 0 <= i < |a| && a[i] == Waiting && b == a[i := Woken];
      ConsumersUpdate(a, i, Woken);
    }
  }

  lemma {:induction false} WakeAllCost(a: seq<Status>)
    ensures ConsumersEnergy(WakeAll(a)) <= ConsumersEnergy(a) + |a|
    decreases |a|
  {
    if a != [] {
      WakeAllCost(a[..|a| - 1]);
      assert WakeAll(a)[..|a| - 1] == WakeAll(a[..|a| - 1]);
    }
  }

  lemma {:induction false} ProducerSpends<T>(s: State<T>, t: State<T>, p: nat)
    requires ProducerStep(s, t, p)
    ensures Measure(t) < Measure(s)
  {
    if AddWaits(s, t, p) {
      ProducersUpdate(s.producers, p, s.producers[p].(status := Waiting));
    } else {
      ProducersUpdate(s.producers, p, Producer(s.producers[p].pending[1..], Ready));
      if AddAccepted(s, t, p) {
        NotifyConsumerCost(s.consumers, t.consumers);
        NotifiedConsumer(s.consumers, t.consumers);
        if !Full(t) { NotifyProducerCost(Returned(s, p), t.producers); }
      }
    }
  }

  lemma {:induction false} ConsumerSpends<T>(s: State<T>, t: State<T>, c: nat)
    requires ConsumerStep(s, t, c)
    ensures Measure(t) < Measure(s)
  {
    if GetDelivers(s, t, c) {
      ConsumersUpdate(s.consumers, c, Ready);
      NotifyProducerCost(s.producers, t.producers);
      if t.queue != [] {
        NotifyConsumerCost(s.consumers[c := Ready], t.consumers);
        NotifiedConsumer(s.consumers[c := Ready], t.consumers);
      }
    } else if GetWaits(s, t, c) {
      ConsumersUpdate(s.consumers, c, Waiting);
    } else {
      ConsumersUpdate(s.consumers, c, Exited);
    }
  }

  /** A step spends measure; a spurious wake-up gives back one unit. */
  lemma {:induction false} NextSpends<T>(s: State<T>, t: State<T>)
    requires Next(s, t)
    ensures Step(s, t) ==> Measure(t) < Measure(s)
    ensures !Step(s, t) ==> Measure(t) == Measure(s) + 1
  {
    if p: nat :| ProducerStep(s, t, p) {
      ProducerSpends(s, t, p);
    } else if c: nat :| ConsumerStep(s, t, c) {
      ConsumerSpends(s, t, c);
    } else if AllReturned(s) && !s.finished && Finishes(s, t) {
      WakeAllCost(s.consumers);
    } else if p: nat :| SpuriousProducer(s, t, p) {
      ProducersUpdate(s.producers, p, s.producers[p].(status := Woken));
    } else {
      var c: nat :| SpuriousConsumer(s, t, c);
      ConsumersUpdate(s.consumers, c, Woken);
    }
  }

  /** The number of spurious wake-ups in a run. */
  ghost function Wakeups<T>(run: seq<State<T>>): nat {
    if |run| <= 1 then 0
    else Wakeups(run[..|run| - 1]) + (if Step(run[|run| - 2], run[|run| - 1]) then 0 else 1)
  }

  /** A run is no longer than the initial measure allows, plus two steps for each spurious wake-up. */
  lemma {:induction false} RunsEnd<T>(run: seq<State<T>>)
    requires Run(run)
    ensures |run| - 1 + Measure(run[|run| - 1]) <= Measure(run[0]) + 2 * Wakeups(run)
    decreases |run|
  {
    if |run| > 1 {
      var front := run[..|run| - 1];
      assert Run(front) by {
        forall i | 0 < i < |front| ensures Next(front[i - 1], front[i]) { assert Next(run[i - 1], run[i]); }
      }
      RunsEnd(front);
      assert Next(run[|run| - 2], run[|run| - 1]);
      NextSpends(run[|run| - 2], run[|run| - 1]);
    }
  }

  /** Where a run cannot go on, every item of every program was delivered, in acceptance order. */
  lemma {:induction false} EndIsComplete<T>(run: seq<State<T>>, s: State<T>)
    requires Run(run) && s == run[|run| - 1] && !(exists t :: Step(s, t))
    ensures AllExited(s) && s.finished && AllReturned(s) && s.queue == []
    ensures s.delivered == Items(s.accepted)
    ensures forall p | 0 <= p < |s.programs| :: From(s.accepted, p) == s.programs[p]
  {
    RunsObey(run, |run| - 1);
    if !AllExited(s) {
      var t := SomeoneMoves(s);
      assert false;
    }
    assert s.consumers[0] == Exited;
    assert s.delivered + [] == s.delivered;
  }

  // ---------------------------------------------------------------- why finishing must come last

  /** Nothing that can still happen changes anything. */
  ghost predicate Stuck<T(!new)>(s: State<T>) {
    forall t :: LooseStep(s, t) ==> t == s
  }

  /** A producer is left waiting for ever, with an item in hand and nobody to wake it. */
  ghost predicate Stranded<T(!new)>(s: State<T>) {
    Stuck(s) && ProducerWaiting(s.producers)
  }

  lemma {:induction false} ProducerUnsticks<T(!new)>(s: State<T>, p: nat)
    requires Adding(s, p)
    ensures !Stuck(s)
  {
    var t := ProducerMoves(s, p);
    ProducerSpends(s, t, p);
    assert LooseStep(s, t);
  }

  lemma {:induction false} ConsumerUnsticks<T(!new)>(s: State<T>, c: nat)
    requires Getting(s, c)
    ensures !Stuck(s)
  {
    var t := ConsumerMoves(s, c);
    ConsumerSpends(s, t, c);
    assert LooseStep(s, t);
  }

  /** In a stuck state adding is finished and all consumers have left. */
  lemma {:induction false} StuckMeans<T(!new)>(s: State<T>)
    requires Invariant(s) && Stuck(s)
    ensures s.finished && AllExited(s)
    ensures forall p | 0 <= p < |s.producers| :: s.producers[p].pending == [] || s.producers[p].status == Waiting
  {
    assert LooseStep(s, s.(finished := true, consumers := WakeAll(s.consumers)));
    forall c | 0 <= c < |s.consumers| ensures s.consumers[c] == Exited {
      if Getting(s, c) {
        ConsumerUnsticks(s, c);
      }
    }
    forall p | 0 <= p < |s.producers| ensures s.producers[p].pending == [] || s.producers[p].status == Waiting {
      if Adding(s, p) {
        ProducerUnsticks(s, p);
      }
    }
  }

  /** A step of any program that changes something spends measure, so without spurious wake-ups a run gets stuck. */
  lemma {:induction false} LooseSpends<T>(s: State<T>, t: State<T>)
    requires Invariant(s) && LooseStep(s, t) && t != s
    ensures Measure(t) < Measure(s)
  {
    if p: nat :| ProducerStep(s, t, p) {
      ProducerSpends(s, t, p);
    } else if c: nat :| ConsumerStep(s, t, c) {
      ConsumerSpends(s, t, c);
    } else {
      WakeAllCost(s.consumers);
      assert s.finished ==> WakeAll(s.consumers) == s.consumers;
    }
  }

  /** How many producers wait without having been woken. */
  ghost function Waiters<T>(a: seq<Producer<T>>): nat {
    if a == [] then 0 else Waiters(a[..|a| - 1]) + (if a[|a| - 1].status == Waiting then 1 else 0)
  }

  lemma {:induction false} WaitersUpdate<T>(a: seq<Producer<T>>, i: nat, x: Producer<T>)
    requires i < |a|
    ensures Waiters(a[i := x])
         == Waiters(a) - (if a[i].status == Waiting then 1 else 0) + (if x.status == Waiting then 1 else 0)
    decreases |a|
  {
    var b := a[i := x];
    if i == |a| - 1 {
      assert b[..|b| - 1] == a[..|a| - 1];
    } else {
      WaitersUpdate(a[..|a| - 1], i, x);
      assert b[..|b| - 1] == a[..|a| - 1][i := x];
    }
  }

  lemma {:induction false} WaitersAny<T>(a: seq<Producer<T>>)
    ensures Waiters(a) > 0 <==> ProducerWaiting(a)
    decreases |a|
  {
    if a != [] {
      WaitersAny(a[..|a| - 1]);
      var n := |a| - 1;
      if ProducerWaiting(a) && a[n].status != Waiting {
        var p :| 0 <= p < |a| && a[p].status == Waiting;
        assert a[..n][p].status == Waiting;
      }
    }
  }

  lemma {:induction false} WaitersNotified<T>(a: seq<Producer<T>>, b: seq<Producer<T>>)
    requires NotifyProducer(a, b)
    ensures Waiters(b) == if Waiters(a) == 0 then 0 else Waiters(a) - 1
  {
    WaitersAny(a);
    if ProducerWaiting(a) {
      var i :| 0 <= i < |a| && a[i].status == Waiting && b == a[i := a[i].(status := Woken)];
      WaitersUpdate(a, i, a[i].(status := Woken));
    }
  }

  /** The waiting producers that the queued items will not suffice to wake. */
  ghost function Excess<T>(s: State<T>): nat {
    var wakes := if s.consumers == [] then 0 else |s.queue|;
    if Waiters(s.producers) <= wakes then 0 else Waiters(s.producers) - wakes
  }

  /** Once adding is finished no step changes the excess. */
  lemma {:induction false} ExcessStays<T>(s: State<T>, t: State<T>)
    requires s.finished && LooseStep(s, t)
    ensures t.finished && Excess(t) == Excess(s)
  {
    if p: nat :| ProducerStep(s, t, p) {
      WaitersUpdate(s.producers, p, Producer(s.producers[p].pending[1..], Ready));
    } else if c: nat :| ConsumerStep(s, t, c) {
      if GetDelivers(s, t, c) {
        WaitersNotified(s.producers, t.producers);
        if t.queue != [] { NotifiedConsumer(s.consumers[c := Ready], t.consumers); }
      }
    }
  }

  /** A spurious wake-up can only lower it. */
  lemma {:induction false} ExcessWoken<T>(s: State<T>, t: State<T>)
    requires s.finished && Spurious(s, t)
    ensures t.finished && Excess(t) <= Excess(s)
  {
    if p: nat :| SpuriousProducer(s, t, p) {
      WaitersUpdate(s.producers, p, s.producers[p].(status := Woken));
    }
  }

  /** Between states f and i nobody wakes up spuriously. */
  ghost predicate Undisturbed<T>(run: seq<State<T>>, f: nat, i: nat)
    requires i < |run|
  {
    forall k | f < k <= i :: LooseStep(run[k - 1], run[k])
  }

  /** From the moment adding is finished, the excess never grows, and stays what it is without spurious wake-ups. */
  lemma {:induction false} ExcessAlong<T>(run: seq<State<T>>, f: nat, i: nat)
    requires LooseRun(run) && f <= i < |run| && run[f].finished
    ensures run[i].finished && Excess(run[i]) <= Excess(run[f])
    ensures Undisturbed(run, f, i) ==> Excess(run[i]) == Excess(run[f])
    decreases i
  {
    if f < i {
      ExcessAlong(run, f, i - 1);
      assert LooseNext(run[i - 1], run[i]);
      if LooseStep(run[i - 1], run[i]) {
        ExcessStays(run[i - 1], run[i]);
      } else {
        ExcessWoken(run[i - 1], run[i]);
      }
    }
  }

  /** The first finishAdding changes neither the waiting producers nor the queue. */
  lemma {:induction false} ExcessAtFinish<T>(s: State<T>, t: State<T>)
    requires LooseNext(s, t) && !s.finished && t.finished
    ensures Finishes(s, t) && Excess(t) == Excess(s)
  {
  }

  /** In a stuck state exactly the excess is left waiting. */
  lemma {:induction false} StuckExcess<T(!new)>(s: State<T>)
    requires Invariant(s) && Stuck(s)
    ensures Waiters(s.producers) == Excess(s)
  {
    StuckMeans(s);
    if s.consumers != [] {
      assert s.consumers[0] == Exited;
    }
  }

  /**
   In a run that has got stuck, as many producers are stranded as, when finishAdding was called,
   waited beyond the number of queued items (all that waited, when there is no consumer); with
   spurious wake-ups there may be fewer.
   */
  lemma {:induction false} StrandedCount<T(!new)>(run: seq<State<T>>, f: nat)
    requires LooseRun(run) && 0 < f < |run| && !run[f - 1].finished && run[f].finished
    requires Stuck(run[|run| - 1])
    ensures Waiters(run[|run| - 1].producers) <= Excess(run[f - 1])
    ensures Undisturbed(run, f, |run| - 1) ==>
      Waiters(run[|run| - 1].producers) == Excess(run[f - 1])
  {
    var last := |run| - 1;
    assert LooseNext(run[f - 1], run[f]);
    ExcessAtFinish(run[f - 1], run[f]);
    ExcessAlong(run, f, last);
    RunsKeep(run, last);
    StuckExcess(run[last]);
  }

  /**
   The exact condition: without spurious wake-ups after finishAdding, a run that has got stuck strands
   a producer if and only if more producers waited than items were queued when it was called.
   */
  lemma {:induction false} StrandedIff<T(!new)>(run: seq<State<T>>, f: nat)
    requires LooseRun(run) && 0 < f < |run| && !run[f - 1].finished && run[f].finished
    requires Stuck(run[|run| - 1]) && run[0].consumers != []
    requires Undisturbed(run, f, |run| - 1)
    ensures Stranded(run[|run| - 1]) <==> Waiters(run[f - 1].producers) > |run[f - 1].queue|
  {
    StrandedCount(run, f);
    WaitersAny(run[|run| - 1].producers);
    ConsumersStay(run, f - 1);
  }

  lemma {:induction false} ConsumersStay<T>(run: seq<State<T>>, i: nat)
    requires LooseRun(run) && i < |run|
    ensures |run[i].consumers| == |run[0].consumers|
    decreases i
  {
    if i > 0 {
      ConsumersStay(run, i - 1);
      NextSizes(run[i - 1], run[i]);
    }
  }

  /** A stuck run has called finishAdding, so the condition always has its moment. */
  lemma {:induction false} StuckHasFinished<T(!new)>(run: seq<State<T>>) returns (f: nat)
    requires LooseRun(run) && Stuck(run[|run| - 1])
    ensures 0 < f < |run| && !run[f - 1].finished && run[f].finished
  {
    RunsKeep(run, |run| - 1);
    StuckMeans(run[|run| - 1]);
    f := |run| - 1;
    while run[f - 1].finished
      invariant 0 < f < |run| && run[f].finished
      decreases f
    {
      f := f - 1;
    }
  }

  /** With the rule kept nobody waits when adding is finished, so nobody is stranded. */
  lemma {:induction false} RuleStrandsNobody<T(!new)>(run: seq<State<T>>, f: nat)
    requires LooseRun(run) && 0 < f < |run| && !run[f - 1].finished && run[f].finished
    requires Stuck(run[|run| - 1]) && AllReturned(run[f - 1])
    ensures !Stranded(run[|run| - 1])
  {
    StrandedCount(run, f);
    RunsKeep(run, f - 1);
    WaitersAny(run[f - 1].producers);
    WaitersAny(run[|run| - 1].producers);
  }

  /** Three producers with one item each, one consumer and room for one item. */
  ghost function Scene(queue: seq<int>, finished: bool, a: Producer<int>, b: Producer<int>, c: Producer<int>,
                       consumer: Status, accepted: seq<(nat, int)>, delivered: seq<int>): State<int>
  {
    State(1, [[1], [2], [3]], queue, finished, [a, b, c], [consumer], accepted, delivered)
  }

  /** The first is accepted and the second has to wait. */
  lemma {:induction false} OneWaits() returns (s0: State<int>, s1: State<int>, s2: State<int>)
    ensures Init(s0) && LooseStep(s0, s1) && LooseStep(s1, s2)
    ensures s2 == Scene([1], false, Producer([], Ready), Producer([2], Waiting), Producer([3], Ready), Ready,
        [(0, 1)], [])
  {
    var idle := Producer([], Ready);
    s0 := Scene([], false, Producer([1], Ready), Producer([2], Ready), Producer([3], Ready), Ready, [], []);
    s1 := Scene([1], false, idle, Producer([2], Ready), Producer([3], Ready), Ready, [(0, 1)], []);
    s2 := Scene([1], false, idle, Producer([2], Waiting), Producer([3], Ready), Ready, [(0, 1)], []);
    assert s0.producers[0].pending[1..] == [] && Returned(s0, 0) == s1.producers;
    assert AddAccepted(s0, s1, 0) && ProducerStep(s0, s1, 0);
    assert AddWaits(s1, s2, 1) && ProducerStep(s1, s2, 1);
  }

  /** The third waits too, and adding is declared finished. */
  lemma {:induction false} TwoWaitAtFinish(s2: State<int>) returns (s3: State<int>, s4: State<int>)
    requires s2 == Scene([1], false, Producer([], Ready), Producer([2], Waiting), Producer([3], Ready), Ready,
        [(0, 1)], [])
    ensures LooseStep(s2, s3) && LooseStep(s3, s4)
    ensures s4 == Scene([1], true, Producer([], Ready), Producer([2], Waiting), Producer([3], Waiting), Ready,
        [(0, 1)], [])
  {
    s3 := Scene([1], false, Producer([], Ready), Producer([2], Waiting), Producer([3], Waiting), Ready, [(0, 1)], []);
    s4 := s3.(finished := true);
    assert AddWaits(s2, s3, 2) && ProducerStep(s2, s3, 2);
    assert WakeAll(s3.consumers) == s3.consumers;
    assert Finishes(s3, s4);
  }

  /** The one producer woken by the last get returns without waking the other. */
  lemma {:induction false} OneIsLeft(s4: State<int>) returns (s5: State<int>, s6: State<int>, s7: State<int>)
    requires s4 == Scene([1], true, Producer([], Ready), Producer([2], Waiting), Producer([3], Waiting), Ready,
        [(0, 1)], [])
    ensures LooseStep(s4, s5) && LooseStep(s5, s6) && LooseStep(s6, s7) && Stranded(s7)
  {
    var idle := Producer([], Ready);
    s5 := Scene([], true, idle, Producer([2], Woken), Producer([3], Waiting), Ready, [(0, 1)], [1]);
    s6 := Scene([], true, idle, idle, Producer([3], Waiting), Ready, [(0, 1)], [1]);
    s7 := s6.(consumers := [Exited]);
    assert s5.producers == s4.producers[1 := s4.producers[1].(status := Woken)];
    assert GetDelivers(s4, s5, 0) && ConsumerStep(s4, s5, 0);
    assert s5.producers[1].pending[1..] == [] && Returned(s5, 1) == s6.producers;
    assert AddIgnored(s5, s6, 1) && ProducerStep(s5, s6, 1);
    assert GetEnds(s6, s7, 0) && ConsumerStep(s6, s7, 0);
    assert s7.producers[2].status == Waiting;
    assert WakeAll(s7.consumers) == s7.consumers;
    forall p: nat ensures !Adding(s7, p) { }
    forall c: nat ensures !Getting(s7, c) { }
  }

  /** With finishAdding called early, a run of seven steps strands a producer. */
  lemma {:induction false} EarlyFinishStrands()
    returns (s0: State<int>, s1: State<int>, s2: State<int>, s3: State<int>,
             s4: State<int>, s5: State<int>, s6: State<int>, s7: State<int>)
    ensures Init(s0) && LooseStep(s0, s1) && LooseStep(s1, s2) && LooseStep(s2, s3) && LooseStep(s3, s4)
    ensures LooseStep(s4, s5) && LooseStep(s5, s6) && LooseStep(s6, s7) && Stranded(s7)
  {
    s0, s1, s2 := OneWaits();
    s3, s4 := TwoWaitAtFinish(s2);
    s5, s6, s7 := OneIsLeft(s4);
  }
}
