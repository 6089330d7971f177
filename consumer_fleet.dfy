/** `PulsarBootService.createConsumers`: one subscription per topic, then,
    in pull mode, the per-worker consumer lists, the limiter list and the
    arguments handed to each pull thread. */
module ConsumerFleet {
  import opened JavaInt
  import RoundRobin

  datatype Option<T> = None | Some(value: T)

  /** `ConsumeMode.LISTEN`, or any other mode, all of which pull. */
  datatype ConsumeMode = Listen | Pull

  /** An entry of `semaphores`: `null`, or a fresh `Semaphore` with that
      many permits. */
  datatype Limiter = Unbounded | Bounded(permits: int)

  /** A consumer handle; `subscription` stands for its random subscription
      name and is the ordinal of the `subscribe` call that made it. */
  datatype Consumer = Consumer(topic: string, subscription: nat)

  /** One `subscribe()` call the broker accepted. */
  datatype Subscription = Subscription(topic: string, subscription: nat, listener: bool)

  /** The arguments of `new PulsarPullThread(i, actionService, semaphores,
      consumerListList.get(i), pulsarConfig)`. */
  datatype PullThread = PullThread(index: nat, limiters: seq<Limiter>, consumers: seq<Consumer>)

  datatype Failure =
    | ClientBuildFailed              // IllegalArgumentException from boot
    | SubscribeRefused(topic: string) // PulsarClientException from subscribe()
    | DivisionByZero                 // ArithmeticException from aux % 0
    | IndexOutOfBounds(index: int)   // consumerListList.get(index) past its end

  /** What a call leaves behind: the subscriptions it opened, the pull
      threads it started and the exception it ended with, if any. */
  datatype Outcome = Outcome(subscriptions: seq<Subscription>, threads: seq<PullThread>, failure: Option<Failure>)

  /** The limiter entry built for one topic. */
  function LimiterFor(receiveLimiter: int32): (l: Limiter)
    ensures l == Unbounded <==> receiveLimiter == -1
    ensures l.Bounded? ==> l.permits == receiveLimiter as int
  {
    if receiveLimiter == -1 then Unbounded else Bounded(receiveLimiter as int)
  }

  /** The subscriptions of a run that reaches every topic, in topic order. */
  function Subscriptions(topics: seq<string>, listener: bool): seq<Subscription>
  {
    seq(|topics|, i requires 0 <= i < |topics| => Subscription(topics[i], i, listener))
  }

  /** The pull-mode consumer handles, in topic order. */
  function Consumers(topics: seq<string>): seq<Consumer>
  {
    seq(|topics|, i requires 0 <= i < |topics| => Consumer(topics[i], i))
  }

  /** The threads a complete pull-mode run starts: thread k owns the
      consumers of the topics whose index is k modulo the thread count, and
      every thread is given the whole limiter list, one entry per topic. */
  function Threads(topics: seq<string>, pullThreads: int32, receiveLimiter: int32): (ts: seq<PullThread>)
    ensures |ts| == Workers(pullThreads)
    ensures forall k :: 0 <= k < |ts| ==> ts[k].index == k && |ts[k].limiters| == |topics| && |ts[k].consumers| <= |topics|
  {
    if pullThreads <= 0 then []
    else
      var w := pullThreads as int;
      seq(w, k requires 0 <= k < w => PullThread(k, Limiters(|topics|, receiveLimiter), RoundRobin.Bucket(Consumers(topics), w, k)))
  }

  /** The `semaphores` list after n topics: one entry per topic. */
  function Limiters(n: nat, receiveLimiter: int32): (ls: seq<Limiter>)
    ensures |ls| == n
    ensures forall i :: 0 <= i < |ls| ==> (ls[i] == Unbounded <==> receiveLimiter == -1)
    ensures forall i :: 0 <= i < |ls| ==> ls[i] == LimiterFor(receiveLimiter)
  {
    seq(n, _ => LimiterFor(receiveLimiter))
  }

  /** How many `subscribe()` calls succeed when the broker refuses call
      number `firstRefused` (counting from 0) and every call before it. */
  function Accepted(topics: seq<string>, firstRefused: Option<nat>): (n: nat)
    ensures n <= |topics|
    ensures n < |topics| <==> firstRefused.Some? && firstRefused.value < |topics|
  {
    if firstRefused.Some? && firstRefused.value < |topics| then firstRefused.value else |topics|
  }

  /** The number of lists `consumerListList` gets and of threads started:
      the counting loops run `pullThreads` times, so not at all for a count
      that is not positive. */
  function Workers(pullThreads: int32): nat
  {
    if pullThreads <= 0 then 0 else pullThreads as int
  }

  /** The reference outcome of the listen-mode branch: one listener
      subscription per topic, in topic order, and no thread. A refused
      subscription stops the loop where it happens. */
  function ListenPlan(topics: seq<string>, firstRefused: Option<nat>): (o: Outcome)
    ensures o.threads == [] && |o.subscriptions| <= |topics|
    ensures o.failure == None <==> |o.subscriptions| == |topics|
    ensures o.failure != None ==> |o.subscriptions| < |topics| && o.failure == Some(SubscribeRefused(topics[|o.subscriptions|]))
  {
    var n := Accepted(topics, firstRefused);
    Outcome(Subscriptions(topics, true)[..n], [], if n < |topics| then Some(SubscribeRefused(topics[n])) else None)
  }

  /** The exception the pull-mode branch ends with: with a thread count that
      is not positive the first topic fails right after its subscription
      (`aux % 0` divides by zero; `aux % pullThreads` is 0 for a negative
      count and the list of lists is empty); otherwise only a refused
      subscription stops it. */
  function PullFailure(topics: seq<string>, pullThreads: int32, firstRefused: Option<nat>): (f: Option<Failure>)
    ensures f == None <==> Accepted(topics, firstRefused) == |topics| && (pullThreads <= 0 ==> topics == [])
    ensures f.Some? && f.value.SubscribeRefused? ==> firstRefused.Some? && firstRefused.value < |topics|
  {
    var n := Accepted(topics, firstRefused);
    if pullThreads <= 0 && 0 < n then Some(if pullThreads == 0 then DivisionByZero else IndexOutOfBounds(0))
    else if n < |topics| then Some(SubscribeRefused(topics[n]))
    else None
  }

  /** How many topics the pull-mode branch subscribes before it stops. */
  function PullSubscribed(topics: seq<string>, pullThreads: int32, firstRefused: Option<nat>): (n: nat)
    ensures n <= |topics|
  {
    var n := Accepted(topics, firstRefused);
    if pullThreads <= 0 && 0 < n then 1 else n
  }

  /** The reference outcome of the pull-mode branch: the subscriptions it
      opened, and the threads only when it reached the end of the topics. */
  function PullPlan(topics: seq<string>, pullThreads: int32, receiveLimiter: int32, firstRefused: Option<nat>): (o: Outcome)
    ensures |o.subscriptions| <= |topics|
    ensures o.failure == None <==> |o.subscriptions| == |topics| && (pullThreads <= 0 ==> topics == [])
    ensures o.threads != [] ==> o.failure == None && 0 < pullThreads
    ensures o.failure == None ==> |o.threads| == Workers(pullThreads)
  {
    var failure := PullFailure(topics, pullThreads, firstRefused);
    Outcome(Subscriptions(topics, false)[..PullSubscribed(topics, pullThreads, firstRefused)],
            if failure.None? then Threads(topics, pullThreads, receiveLimiter) else [],
            failure)
  }

  /** The reference outcome of `createConsumers(topics)`. */
  function Plan(mode: ConsumeMode, topics: seq<string>, pullThreads: int32, receiveLimiter: int32,
                firstRefused: Option<nat>): (o: Outcome)
    ensures |o.subscriptions| <= |topics|
    ensures forall i :: 0 <= i < |o.subscriptions| ==>
      o.subscriptions[i] == Subscription(topics[i], i, mode == Listen)
    ensures o.failure == None <==> |o.subscriptions| == |topics| && (mode == Pull && pullThreads <= 0 ==> topics == [])
    ensures o.threads != [] ==> mode == Pull && o.failure == None && 0 < pullThreads
  {
    match mode
    case Listen => ListenPlan(topics, firstRefused)
    case Pull => PullPlan(topics, pullThreads, receiveLimiter, firstRefused)
  }

  /** `createConsumers`: the listen-mode loop with its early return, or the
      pull-mode loops that fill `consumerListList` and `semaphores` in place
      and then start one thread per list. `firstRefused` stands for the
      broker: the ordinal of the first `subscribe()` call it refuses. */
  method CreateConsumers(mode: ConsumeMode, topics: seq<string>, pullThreads: int32, receiveLimiter: int32,
                         firstRefused: Option<nat>)
    returns (outcome: Outcome)
    ensures outcome == Plan(mode, topics, pullThreads, receiveLimiter, firstRefused)
  {
    if mode == Listen {
      outcome := SubscribeListeners(topics, firstRefused);
      return;
    }
    var consumerListList := NewConsumerLists(pullThreads);
    var subscriptions, semaphores, failure;
    subscriptions, consumerListList, semaphores, failure :=
      FillConsumerLists(topics, pullThreads, receiveLimiter, firstRefused, consumerListList);
    if failure.Some? {
      return Outcome(subscriptions, [], failure);
    }
    var threads := StartThreads(pullThreads, semaphores, consumerListList);
    ThreadsMatch(topics, pullThreads, receiveLimiter, consumerListList, threads);
    outcome := Outcome(subscriptions, threads, None);
  }

  /** The pull-mode loop over the topics: subscribes each one, appends its
      consumer to list `aux % pullThreads` and one limiter entry to
      `semaphores`. It stops at the first exception and returns it. */
  method FillConsumerLists(topics: seq<string>, pullThreads: int32, receiveLimiter: int32, firstRefused: Option<nat>,
                           emptyLists: seq<seq<Consumer>>)
    returns (subscriptions: seq<Subscription>, consumerListList: seq<seq<Consumer>>, semaphores: seq<Limiter>,
             failure: Option<Failure>)
    requires |emptyLists| == Workers(pullThreads)
    requires forall k :: 0 <= k < |emptyLists| ==> emptyLists[k] == []
    ensures failure == PullFailure(topics, pullThreads, firstRefused)
    ensures subscriptions == Subscriptions(topics, false)[..PullSubscribed(topics, pullThreads, firstRefused)]
    ensures failure.None? ==>
      && semaphores == Limiters(|topics|, receiveLimiter)
      && |consumerListList| == Workers(pullThreads)
      && (0 < pullThreads ==> consumerListList == RoundRobin.Assign(Consumers(topics), pullThreads as int))
  {
    consumerListList, semaphores, subscriptions, failure := emptyLists, [], [], None;
    ghost var w := if pullThreads <= 0 then 1 else pullThreads as int;
    assert 0 < pullThreads ==> consumerListList == RoundRobin.Assign([], w);

    var aux := 0;
    while aux < |topics|
      invariant 0 <= aux <= |topics|
      invariant |consumerListList| == Workers(pullThreads)
      invariant pullThreads <= 0 ==> aux == 0
      invariant 0 < pullThreads ==> consumerListList == RoundRobin.Assign(Consumers(topics)[..aux], w)
      invariant semaphores == Limiters(aux, receiveLimiter)
      invariant subscriptions == Subscriptions(topics, false)[..aux]
      invariant aux <= Accepted(topics, firstRefused)
      invariant failure == None
    {
      SubscriptionsStep(topics, false, aux);
      if 0 < pullThreads {
        ConsumersStep(topics, aux, w);
      }
      LimitersStep(aux, receiveLimiter);
      PullStep(topics, pullThreads, firstRefused, aux);
      subscriptions, consumerListList, semaphores, failure :=
        AddTopic(topics[aux], aux, pullThreads, receiveLimiter, firstRefused, subscriptions, consumerListList, semaphores);
      if failure.Some? {
        return;
      }
      aux := aux + 1;
    }
    PullComplete(topics, pullThreads, firstRefused);
    assert Consumers(topics)[..aux] == Consumers(topics);
  }

  /** A loop that reaches the end of the topics ends without exception. */
  lemma PullComplete(topics: seq<string>, pullThreads: int32, firstRefused: Option<nat>)
    requires Accepted(topics, firstRefused) == |topics| && (pullThreads <= 0 ==> topics == [])
    ensures PullFailure(topics, pullThreads, firstRefused) == None
    ensures PullSubscribed(topics, pullThreads, firstRefused) == |topics|
  {
  }

  /** The exception the loop body raises for the topic at position `aux`. */
  function TopicFailure(topic: string, aux: nat, pullThreads: int32, firstRefused: Option<nat>): (f: Option<Failure>)
    ensures f == None <==> firstRefused != Some(aux) && 0 < pullThreads
    ensures firstRefused == Some(aux) ==> f == Some(SubscribeRefused(topic))
    ensures f.Some? && f.value.IndexOutOfBounds? ==> pullThreads < 0 && 0 <= f.value.index < -(pullThreads as int)
  {
    if firstRefused == Some(aux) then Some(SubscribeRefused(topic))
    else if pullThreads == 0 then Some(DivisionByZero)
    else if pullThreads < 0 then Some(IndexOutOfBounds(aux % pullThreads as int))
    else None
  }

  /** How one pass of the loop body relates to the pull-mode plan: an
      exception at position aux is the plan's exception, and a pass without
      one keeps the loop within the accepted subscriptions. */
  lemma PullStep(topics: seq<string>, pullThreads: int32, firstRefused: Option<nat>, aux: nat)
    requires aux < |topics| && aux <= Accepted(topics, firstRefused) && (pullThreads <= 0 ==> aux == 0)
    ensures var failure := TopicFailure(topics[aux], aux, pullThreads, firstRefused);
      && (failure.Some? ==> PullFailure(topics, pullThreads, firstRefused) == failure)
      && (failure.Some? ==> PullSubscribed(topics, pullThreads, firstRefused) == if firstRefused == Some(aux) then aux else aux + 1)
      && (failure.None? ==> aux + 1 <= Accepted(topics, firstRefused) && 0 < pullThreads)
  {
  }

  /** One pass of the loop body for the topic at position `aux`: subscribe,
      compute `aux % pullThreads`, append the consumer to that list and one
      entry to `semaphores`; an exception at any step ends the pass. */
  method AddTopic(topic: string, aux: nat, pullThreads: int32, receiveLimiter: int32, firstRefused: Option<nat>,
                  subscriptions: seq<Subscription>, consumerListList: seq<seq<Consumer>>, semaphores: seq<Limiter>)
    returns (subscriptions': seq<Subscription>, consumerListList': seq<seq<Consumer>>, semaphores': seq<Limiter>,
             failure: Option<Failure>)
    requires |consumerListList| == Workers(pullThreads)
    ensures failure == TopicFailure(topic, aux, pullThreads, firstRefused)
    ensures subscriptions' == if firstRefused == Some(aux) then subscriptions
                              else subscriptions + [Subscription(topic, aux, false)]
    ensures failure.None? ==>
      && consumerListList' == consumerListList[aux % pullThreads as int := consumerListList[aux % pullThreads as int] + [Consumer(topic, aux)]]
      && semaphores' == semaphores + [LimiterFor(receiveLimiter)]
  {
    subscriptions', consumerListList', semaphores' := subscriptions, consumerListList, semaphores;
    if firstRefused == Some(aux) {
      return subscriptions', consumerListList', semaphores', Some(SubscribeRefused(topic));
    }
    var consumer := Consumer(topic, aux);
    subscriptions' := subscriptions' + [Subscription(topic, aux, false)];
    if pullThreads == 0 {
      return subscriptions', consumerListList', semaphores', Some(DivisionByZero);
    }
    // aux is never negative, so Java's truncating % and Dafny's Euclidean % agree
    var index := aux % pullThreads as int;
    if index >= |consumerListList'| {
      return subscriptions', consumerListList', semaphores', Some(IndexOutOfBounds(index));
    }
    consumerListList' := consumerListList'[index := consumerListList'[index] + [consumer]];
    if receiveLimiter == -1 {
      semaphores' := semaphores' + [Unbounded];
    } else {
      semaphores' := semaphores' + [Bounded(receiveLimiter as int)];
    }
    failure := None;
  }

  lemma ThreadsMatch(topics: seq<string>, pullThreads: int32, receiveLimiter: int32,
                     consumerListList: seq<seq<Consumer>>, threads: seq<PullThread>)
    requires |consumerListList| == Workers(pullThreads) == |threads|
    requires 0 < pullThreads ==> consumerListList == RoundRobin.Assign(Consumers(topics), pullThreads as int)
    requires forall k :: 0 <= k < |threads| ==>
      threads[k] == PullThread(k, Limiters(|topics|, receiveLimiter), consumerListList[k])
    ensures threads == Threads(topics, pullThreads, receiveLimiter)
  {
  }

  lemma LimitersStep(n: nat, receiveLimiter: int32)
    ensures Limiters(n + 1, receiveLimiter) == Limiters(n, receiveLimiter) + [LimiterFor(receiveLimiter)]
  {
  }

  lemma SubscriptionsStep(topics: seq<string>, listener: bool, aux: nat)
    requires aux < |topics|
    ensures Subscriptions(topics, listener)[..aux + 1]
         == Subscriptions(topics, listener)[..aux] + [Subscription(topics[aux], aux, listener)]
  {
  }

  lemma ConsumersStep(topics: seq<string>, aux: nat, w: nat)
    requires aux < |topics| && 0 < w
    ensures RoundRobin.Assign(Consumers(topics)[..aux + 1], w)
         == var before := RoundRobin.Assign(Consumers(topics)[..aux], w);
            before[aux % w := before[aux % w] + [Consumer(topics[aux], aux)]]
  {
    assert Consumers(topics)[..aux + 1] == Consumers(topics)[..aux] + [Consumer(topics[aux], aux)];
    RoundRobin.AssignAppend(Consumers(topics)[..aux], Consumer(topics[aux], aux), w);
  }

  /** The listen-mode loop: subscribes a listener for each topic in turn. */
  method SubscribeListeners(topics: seq<string>, firstRefused: Option<nat>) returns (outcome: Outcome)
    ensures outcome == ListenPlan(topics, firstRefused)
  {
    var subscriptions: seq<Subscription> := [];
    var aux := 0;
    while aux < |topics|
      invariant 0 <= aux <= |topics|
      invariant subscriptions == Subscriptions(topics, true)[..aux]
      invariant aux <= Accepted(topics, firstRefused)
    {
      if firstRefused == Some(aux) {
        return Outcome(subscriptions, [], Some(SubscribeRefused(topics[aux])));
      }
      subscriptions := subscriptions + [Subscription(topics[aux], aux, true)];
      aux := aux + 1;
    }
    assert subscriptions == Subscriptions(topics, true);
    return Outcome(subscriptions, [], None);
  }

  /** The loop that adds `pullThreads` empty lists to `consumerListList`. */
  method NewConsumerLists(pullThreads: int32) returns (consumerListList: seq<seq<Consumer>>)
    ensures |consumerListList| == Workers(pullThreads)
    ensures forall k :: 0 <= k < |consumerListList| ==> consumerListList[k] == []
  {
    consumerListList := [];
    var i := 0;
    while i < pullThreads as int
      invariant 0 <= i <= Workers(pullThreads) && |consumerListList| == i
      invariant forall k :: 0 <= k < i ==> consumerListList[k] == []
    {
      consumerListList := consumerListList + [[]];
      i := i + 1;
    }
  }

  /** The loop that starts thread i, for i below `pullThreads`, with list i
      and the whole limiter list. */
  method StartThreads(pullThreads: int32, semaphores: seq<Limiter>, consumerListList: seq<seq<Consumer>>)
    returns (threads: seq<PullThread>)
    requires |consumerListList| == Workers(pullThreads)
    ensures |threads| == |consumerListList|
    ensures forall k :: 0 <= k < |threads| ==> threads[k] == PullThread(k, semaphores, consumerListList[k])
  {
    threads := [];
    var i := 0;
    while i < pullThreads as int
      invariant 0 <= i <= |consumerListList| && |threads| == i
      invariant forall k :: 0 <= k < i ==> threads[k] == PullThread(k, semaphores, consumerListList[k])
    {
      threads := threads + [PullThread(i, semaphores, consumerListList[i])];
      i := i + 1;
    }
  }
}
