/** `PulsarBootService.boot`: build the client, enumerate the topics, then
    create the consumers for them. */
module PulsarBoot {
  import opened JavaInt
  import opened TopicEnumeration
  import opened ConsumerFleet
  import FleetProperties
  import RoundRobin

  /** The `PulsarConfig` fields the topic layout depends on. */
  datatype PulsarConfig = PulsarConfig(tenant: string, namespace: string, topic: string,
                                       topicSuffixNum: int32, receiveLimiter: int32)

  /** The `CommonConfig` fields the topic layout depends on. */
  datatype CommonConfig = CommonConfig(consumeMode: ConsumeMode, pullThreads: int32)

  /** `boot`. `clientBuilds` stands for the outcome of building the Pulsar
      client; when it fails, `boot` throws before any topic is listed.
      Otherwise the result is that of `createConsumers` on the topic list. */
  method Boot(pc: PulsarConfig, cc: CommonConfig, clientBuilds: bool, firstRefused: Option<nat>)
    returns (outcome: Outcome)
    ensures !clientBuilds ==> outcome == Outcome([], [], Some(ClientBuildFailed))
    ensures clientBuilds ==>
      outcome == Plan(cc.consumeMode, TopicList(pc.tenant, pc.namespace, pc.topic, pc.topicSuffixNum), cc.pullThreads, pc.receiveLimiter, firstRefused)
  {
    if !clientBuilds {
      return Outcome([], [], Some(ClientBuildFailed));
    }
    var topics := EnumerateTopics(pc.tenant, pc.namespace, pc.topic, pc.topicSuffixNum);
    outcome := CreateConsumers(cc.consumeMode, topics, cc.pullThreads, pc.receiveLimiter, firstRefused);
  }

  /** In pull mode with a positive thread count and a broker that accepts
      every subscription, no configured topic is consumed twice: two
      different slots of the fleet, in the same thread or not, hold consumers
      of different topics. */
  lemma {:induction false} BootNoTopicTwice(pc: PulsarConfig, cc: CommonConfig, j: nat, a: nat, k: nat, b: nat)
    requires cc.consumeMode == Pull && 0 < cc.pullThreads
    requires j < cc.pullThreads as int && k < cc.pullThreads as int
    requires var o := Plan(Pull, TopicList(pc.tenant, pc.namespace, pc.topic, pc.topicSuffixNum), cc.pullThreads, pc.receiveLimiter, None);
      a < |o.threads[j].consumers| && b < |o.threads[k].consumers|
    requires j != k || a != b
    ensures var o := Plan(Pull, TopicList(pc.tenant, pc.namespace, pc.topic, pc.topicSuffixNum), cc.pullThreads, pc.receiveLimiter, None);
      o.threads[j].consumers[a].topic != o.threads[k].consumers[b].topic
  {
    var ts := TopicList(pc.tenant, pc.namespace, pc.topic, pc.topicSuffixNum);
    var w := cc.pullThreads as int;
    FleetProperties.PullOrderKept(ts, cc.pullThreads, pc.receiveLimiter, j, a);
    FleetProperties.PullOrderKept(ts, cc.pullThreads, pc.receiveLimiter, k, b);
    var x, y := j + a * w, k + b * w;
    assert x != y by {
      if x == y {
        RoundRobin.DivModUnique(x, w, a, j);
        RoundRobin.DivModUnique(y, w, b, k);
      }
    }
    TopicListDistinct(pc.tenant, pc.namespace, pc.topic, pc.topicSuffixNum);
  }

  /** `topicSuffixNum = 0` gives the base name alone. */
  lemma BareNameExample()
    ensures TopicList("t", "ns", "orders", 0) == ["persistent://t/ns/orders"]
  {
    assert "persistent://" + "t" == "persistent://t";
    assert "persistent://t" + "/" == "persistent://t/";
    assert "persistent://t/" + "ns" == "persistent://t/ns";
    assert "persistent://t/ns" + "/" == "persistent://t/ns/";
    assert "persistent://t/ns/" + "orders" == "persistent://t/ns/orders";
  }

  /** `topicSuffixNum = 2` for base name `orders` gives `orders0`, then
      `orders1`. */
  lemma SuffixedNamesExample()
    ensures TopicList("t", "ns", "orders", 2) == ["persistent://t/ns/orders0", "persistent://t/ns/orders1"]
  {
    var p := "persistent://t/ns/";
    assert NamespacePrefix("t", "ns") == p by {
      assert "persistent://" + "t" == "persistent://t";
      assert "persistent://t" + "/" == "persistent://t/";
      assert "persistent://t/" + "ns" == "persistent://t/ns";
      assert "persistent://t/ns" + "/" == p;
    }
    assert Decimal(0) == "0" && Decimal(1) == "1";
    assert TopicFn("t", "ns", "orders" + "0") == p + ("orders" + "0");
    assert TopicFn("t", "ns", "orders" + "1") == p + ("orders" + "1");
    assert p + ("orders" + "0") == "persistent://t/ns/orders0";
    assert p + ("orders" + "1") == "persistent://t/ns/orders1";
  }

  /** Six topics over four pull threads: threads 0 and 1 get two consumers
      (topics 0, 4 and 1, 5), threads 2 and 3 one each. */
  lemma {:induction false} SixOverFourExample(ts: seq<string>)
    requires |ts| == 6
    ensures var o := Plan(Pull, ts, 4, -1, None);
      && |o.threads| == 4
      && o.threads[0].consumers == [Consumer(ts[0], 0), Consumer(ts[4], 4)]
      && o.threads[1].consumers == [Consumer(ts[1], 1), Consumer(ts[5], 5)]
      && o.threads[2].consumers == [Consumer(ts[2], 2)]
      && o.threads[3].consumers == [Consumer(ts[3], 3)]
  {
    var o := Plan(Pull, ts, 4, -1, None);
    forall k | 0 <= k < 4
      ensures |o.threads[k].consumers| == (if k < 2 then 2 else 1)
    {
      FleetProperties.PullThreadLoad(ts, 4, -1, k);
    }
    FleetProperties.PullOrderKept(ts, 4, -1, 0, 0);
    FleetProperties.PullOrderKept(ts, 4, -1, 0, 1);
    FleetProperties.PullOrderKept(ts, 4, -1, 1, 0);
    FleetProperties.PullOrderKept(ts, 4, -1, 1, 1);
    FleetProperties.PullOrderKept(ts, 4, -1, 2, 0);
    FleetProperties.PullOrderKept(ts, 4, -1, 3, 0);
  }
}
