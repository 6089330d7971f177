/** What `createConsumers` promises, stated over its reference outcome
    `ConsumerFleet.Plan` (which `ConsumerFleet.CreateConsumers` is proved
    to produce). */
module FleetProperties {
  import opened JavaInt
  import opened ConsumerFleet
  import RoundRobin

  /** The consumer lists the threads of an outcome own, thread by thread. */
  function Owned(threads: seq<PullThread>): (ls: seq<seq<Consumer>>)
    ensures |ls| == |threads|
  {
    seq(|threads|, k requires 0 <= k < |threads| => threads[k].consumers)
  }

  /** In a complete pull-mode run, thread k holds bucket k of the consumers. */
  lemma ThreadConsumers(topics: seq<string>, pullThreads: int32, receiveLimiter: int32, k: nat)
    requires 0 < pullThreads && k < pullThreads as int
    ensures var o := Plan(Pull, topics, pullThreads, receiveLimiter, None);
      |o.threads| == pullThreads as int
      && o.threads[k].consumers == RoundRobin.Bucket(Consumers(topics), pullThreads as int, k)
  {
  }

  /** Listen mode with a broker that accepts every call it receives (none
      refused, or the first refusal past the last topic): one listener
      subscription per topic, in topic order, no pull thread and no
      exception. */
  lemma ListenSubscribesEachTopicOnce(topics: seq<string>, pullThreads: int32, receiveLimiter: int32,
                                      firstRefused: Option<nat>)
    requires firstRefused.None? || |topics| <= firstRefused.value
    ensures var o := Plan(Listen, topics, pullThreads, receiveLimiter, firstRefused);
      && o.failure == None
      && o.threads == []
      && |o.subscriptions| == |topics|
      && (forall i :: 0 <= i < |topics| ==>
            o.subscriptions[i].topic == topics[i] && o.subscriptions[i].listener && o.subscriptions[i].subscription == i)
  {
  }

  /** Listen mode returns before anything pull-specific happens: its outcome
      is the same for every thread count and limiter setting. */
  lemma ListenIgnoresPullSettings(topics: seq<string>, firstRefused: Option<nat>,
                                  p1: int32, l1: int32, p2: int32, l2: int32)
    ensures Plan(Listen, topics, p1, l1, firstRefused) == Plan(Listen, topics, p2, l2, firstRefused)
    ensures Plan(Listen, topics, p1, l1, firstRefused).threads == []
  {
  }

  /** Pull mode with a positive thread count: every topic is subscribed
      once, exactly `pullThreads` threads start (idle ones included), thread
      k has index k, and each thread gets the whole limiter list, one entry
      per topic, unbounded exactly when `receiveLimiter` is -1. */
  lemma PullFleetShape(topics: seq<string>, pullThreads: int32, receiveLimiter: int32)
    requires 0 < pullThreads
    ensures var o := Plan(Pull, topics, pullThreads, receiveLimiter, None);
      && o.failure == None
      && |o.subscriptions| == |topics|
      && (forall i :: 0 <= i < |topics| ==>
            o.subscriptions[i].topic == topics[i] && !o.subscriptions[i].listener)
      && |o.threads| == pullThreads as int
      && (forall k :: 0 <= k < |o.threads| ==> o.threads[k].index == k && |o.threads[k].limiters| == |topics|)
      && (forall k, j :: 0 <= k < |o.threads| && 0 <= j < |o.threads[k].limiters| ==>
            (o.threads[k].limiters[j] == Unbounded <==> receiveLimiter == -1)
            && (receiveLimiter != -1 ==> o.threads[k].limiters[j] == Bounded(receiveLimiter as int)))
  {
  }

  /** Thread k exists and its entry j is consumer c. */
  predicate HoldsAt(threads: seq<PullThread>, k: nat, j: nat, c: Consumer)
  {
    k < |threads| && j < |threads[k].consumers| && threads[k].consumers[j] == c
  }

  /** The consumer of topic i is the (i / pullThreads)-th entry of thread
      i % pullThreads. */
  lemma {:induction false} PullPlacement(topics: seq<string>, pullThreads: int32, receiveLimiter: int32, i: nat)
    requires 0 < pullThreads && i < |topics|
    ensures HoldsAt(Plan(Pull, topics, pullThreads, receiveLimiter, None).threads,
                    i % pullThreads as int, i / pullThreads as int, Consumer(topics[i], i))
  {
    var w := pullThreads as int;
    PlacedAt(topics, pullThreads, receiveLimiter, i, i % w, i / w);
  }

  lemma PlacedAt(topics: seq<string>, pullThreads: int32, receiveLimiter: int32, i: nat, k: nat, j: nat)
    requires 0 < pullThreads && i < |topics| && k == i % pullThreads as int && j == i / pullThreads as int
    ensures HoldsAt(Plan(Pull, topics, pullThreads, receiveLimiter, None).threads, k, j, Consumer(topics[i], i))
  {
    var cs := Consumers(topics);
    ThreadConsumers(topics, pullThreads, receiveLimiter, k);
    RoundRobin.Placement(cs, pullThreads as int, i);
    assert cs[i] == Consumer(topics[i], i);
  }

  /** Entry j of thread k is the consumer of topic k + j * pullThreads, so
      each thread serves its topics in their input order. */
  lemma {:induction false} PullOrderKept(topics: seq<string>, pullThreads: int32, receiveLimiter: int32, k: nat, j: nat)
    requires 0 < pullThreads && k < pullThreads as int
    requires j < |Plan(Pull, topics, pullThreads, receiveLimiter, None).threads[k].consumers|
    ensures var o := Plan(Pull, topics, pullThreads, receiveLimiter, None);
      var i := k + j * pullThreads as int;
      i < |topics| && o.threads[k].consumers[j] == Consumer(topics[i], i)
  {
    var cs := Consumers(topics);
    var w := pullThreads as int;
    ThreadConsumers(topics, pullThreads, receiveLimiter, k);
    RoundRobin.BucketAt(cs, w, k, j);
    var i := k + j * w;
    assert cs[i] == Consumer(topics[i], i);
  }

  /** Every consumer belongs to exactly one thread: thread k owns the
      consumer of topic i exactly when k == i % pullThreads. */
  lemma {:induction false} PullExactlyOneOwner(topics: seq<string>, pullThreads: int32, receiveLimiter: int32, i: nat, k: nat)
    requires 0 < pullThreads && i < |topics| && k < pullThreads as int
    ensures var o := Plan(Pull, topics, pullThreads, receiveLimiter, None);
      Consumer(topics[i], i) in o.threads[k].consumers <==> k == i % pullThreads as int
  {
    var cs := Consumers(topics);
    assert cs[i] == Consumer(topics[i], i);
    ThreadConsumers(topics, pullThreads, receiveLimiter, k);
    RoundRobin.ExactlyOneBucket(cs, pullThreads as int, i, k);
  }

  /** The threads' consumer lists together hold one entry per topic, and
      any two of them differ in length by at most one. */
  lemma {:induction false} PullPartition(topics: seq<string>, pullThreads: int32, receiveLimiter: int32)
    requires 0 < pullThreads
    ensures var o := Plan(Pull, topics, pullThreads, receiveLimiter, None);
      && RoundRobin.SumLengths(Owned(o.threads)) == |topics|
      && (forall j, k :: 0 <= j < |o.threads| && 0 <= k < |o.threads| ==>
            |o.threads[j].consumers| <= |o.threads[k].consumers| + 1)
  {
    var o := Plan(Pull, topics, pullThreads, receiveLimiter, None);
    var w := pullThreads as int;
    assert Owned(o.threads) == RoundRobin.Assign(Consumers(topics), w);
    RoundRobin.AssignCoversAll(Consumers(topics), w);
    forall j, k | 0 <= j < |o.threads| && 0 <= k < |o.threads|
      ensures |o.threads[j].consumers| <= |o.threads[k].consumers| + 1
    {
      RoundRobin.Balanced(Consumers(topics), w, j, k);
    }
  }

  /** Bucket sizes: thread k owns |topics| / pullThreads consumers, plus one
      when k < |topics| % pullThreads. */
  lemma {:induction false} PullThreadLoad(topics: seq<string>, pullThreads: int32, receiveLimiter: int32, k: nat)
    requires 0 < pullThreads && k < pullThreads as int
    ensures var o := Plan(Pull, topics, pullThreads, receiveLimiter, None);
      var w := pullThreads as int;
      |o.threads[k].consumers| == |topics| / w + (if k < |topics| % w then 1 else 0)
  {
    ThreadConsumers(topics, pullThreads, receiveLimiter, k);
    RoundRobin.BucketLength(Consumers(topics), pullThreads as int, k);
  }

  /** Pull mode with no topic and a positive thread count: the call succeeds
      and `pullThreads` idle threads start, each with an empty consumer list
      and an empty limiter list. */
  lemma PullIdleFleet(pullThreads: int32, receiveLimiter: int32)
    requires 0 < pullThreads
    ensures var o := Plan(Pull, [], pullThreads, receiveLimiter, None);
      && o.failure == None
      && o.subscriptions == []
      && |o.threads| == pullThreads as int
      && (forall k :: 0 <= k < |o.threads| ==> o.threads[k] == PullThread(k, [], []))
  {
  }

  /** Pull mode with a thread count that is not positive, for any broker
      behaviour: no thread starts. No topic means nothing happens at all.
      Otherwise the first call is made: if the broker refuses it the call
      ends there with nothing subscribed; if not, the first topic is
      subscribed and then `aux % pullThreads` (division by zero) or `get(0)`
      on the empty list of lists fails, so no later call is made. */
  lemma PullWithoutThreads(topics: seq<string>, pullThreads: int32, receiveLimiter: int32, firstRefused: Option<nat>)
    requires pullThreads <= 0
    ensures var o := Plan(Pull, topics, pullThreads, receiveLimiter, firstRefused);
      && o.threads == []
      && (topics == [] ==> o.subscriptions == [] && o.failure == None)
      && (topics != [] && firstRefused == Some(0) ==>
            o.subscriptions == [] && o.failure == Some(SubscribeRefused(topics[0])))
      && (topics != [] && firstRefused != Some(0) ==>
            && o.subscriptions == [Subscription(topics[0], 0, false)]
            && o.failure == Some(if pullThreads == 0 then DivisionByZero else IndexOutOfBounds(0)))
  {
  }

  /** A refused subscription of topic k aborts the call right there: the k
      earlier subscriptions stay open, and no thread starts. */
  lemma RefusedSubscriptionAborts(mode: ConsumeMode, topics: seq<string>, pullThreads: int32, receiveLimiter: int32, k: nat)
    requires k < |topics| && (mode == Pull && pullThreads <= 0 ==> k == 0)
    ensures var o := Plan(mode, topics, pullThreads, receiveLimiter, Some(k));
      && o.failure == Some(SubscribeRefused(topics[k]))
      && |o.subscriptions| == k
      && (forall i :: 0 <= i < k ==> o.subscriptions[i].topic == topics[i])
      && o.threads == []
  {
  }

  /** Subscription ordinals, which stand for the random subscription names,
      are never reused within one call. */
  lemma SubscriptionsDistinct(mode: ConsumeMode, topics: seq<string>, pullThreads: int32, receiveLimiter: int32,
                              firstRefused: Option<nat>)
    ensures var s := Plan(mode, topics, pullThreads, receiveLimiter, firstRefused).subscriptions;
      forall i, j :: 0 <= i < |s| && 0 <= j < |s| && i != j ==> s[i].subscription != s[j].subscription
  {
  }
}
