/** The topic list `PulsarBootService.boot` builds before it creates any
    consumer: one fully qualified name per topic, in suffix order. */
module TopicEnumeration {
  import opened JavaInt

  /** The prefix every name under one tenant and namespace shares: the
      format string of `topicFn` up to its last placeholder. */
  function NamespacePrefix(tenant: string, namespace: string): string
  {
    "persistent://" + tenant + "/" + namespace + "/"
  }

  /** `topicFn`: `String.format("persistent://%s/%s/%s", tenant, namespace, topic)`.
      The name starts with the namespace prefix and what follows it is the
      topic name. */
  function TopicFn(tenant: string, namespace: string, topic: string): (name: string)
    ensures var p := NamespacePrefix(tenant, namespace);
      |name| == |p| + |topic| && name[..|p|] == p && name[|p|..] == topic
  {
    NamespacePrefix(tenant, namespace) + topic
  }

  /** A generated name is the namespace prefix followed by the topic name,
      so for a fixed tenant and namespace different topic names give
      different fully qualified names. */
  lemma TopicFnInjective(tenant: string, namespace: string, a: string, b: string)
    ensures TopicFn(tenant, namespace, a) == TopicFn(tenant, namespace, b) <==> a == b
  {
    var p := NamespacePrefix(tenant, namespace);
    assert TopicFn(tenant, namespace, a) == p + a;
    assert TopicFn(tenant, namespace, b) == p + b;
    PrefixCancel(p, a, b);
  }

  lemma PrefixCancel(p: string, a: string, b: string)
    ensures p + a == p + b <==> a == b
  {
    if p + a == p + b {
      assert a == (p + a)[|p|..];
      assert b == (p + b)[|p|..];
    }
  }

  /** The list `boot` builds from `topicSuffixNum`: the bare base name when
      the count is 0, otherwise `base + i` for i = 0 .. count-1 in that
      order (no name at all for a negative count, since the counting loop
      does not run). */
  function TopicList(tenant: string, namespace: string, topic: string, topicSuffixNum: int32): (ts: seq<string>)
    ensures |ts| == (if topicSuffixNum == 0 then 1 else if topicSuffixNum < 0 then 0 else topicSuffixNum as int)
  {
    if topicSuffixNum == 0 then [TopicFn(tenant, namespace, topic)]
    else if topicSuffixNum < 0 then []
    else seq(topicSuffixNum as int, i requires 0 <= i => TopicFn(tenant, namespace, topic + Decimal(i)))
  }

  /** How many names there are and what each one is: the namespace prefix,
      the base name, then the decimal digits of the suffix, which read back
      as the name's position in the list. */
  lemma {:induction false} TopicListShape(tenant: string, namespace: string, topic: string, topicSuffixNum: int32)
    ensures var ts := TopicList(tenant, namespace, topic, topicSuffixNum);
      && |ts| == (if topicSuffixNum == 0 then 1 else if topicSuffixNum < 0 then 0 else topicSuffixNum as int)
      && (topicSuffixNum == 0 ==> ts[0] == NamespacePrefix(tenant, namespace) + topic)
      && (forall i :: 0 < topicSuffixNum && 0 <= i < |ts| ==> SuffixedName(tenant, namespace, topic, ts[i], i))
  {
    var ts := TopicList(tenant, namespace, topic, topicSuffixNum);
    forall i | 0 < topicSuffixNum && 0 <= i < |ts|
      ensures SuffixedName(tenant, namespace, topic, ts[i], i)
    {
      NameAt(tenant, namespace, topic, i);
    }
  }

  /** `name` is the base name with suffix i under the namespace prefix, the
      suffix being a non-empty run of decimal digits, without a leading zero
      unless it is the single digit 0, whose value is i. */
  ghost predicate SuffixedName(tenant: string, namespace: string, topic: string, name: string, i: nat)
  {
    var head := NamespacePrefix(tenant, namespace) + topic;
    && |head| < |name|
    && name[..|head|] == head
    && AllDigits(name[|head|..])
    && (|name| > |head| + 1 ==> name[|head|] != '0')
    && DigitsValue(name[|head|..]) == i
  }

  lemma NameAt(tenant: string, namespace: string, topic: string, i: nat)
    ensures SuffixedName(tenant, namespace, topic, TopicFn(tenant, namespace, topic + Decimal(i)), i)
  {
    var head := NamespacePrefix(tenant, namespace) + topic;
    var name := TopicFn(tenant, namespace, topic + Decimal(i));
    assert name == head + Decimal(i);
    assert name[..|head|] == head;
    assert name[|head|..] == Decimal(i);
    DecimalRoundTrip(i);
  }

  /** No name occurs twice in the list. */
  lemma {:induction false} TopicListDistinct(tenant: string, namespace: string, topic: string, topicSuffixNum: int32)
    ensures var ts := TopicList(tenant, namespace, topic, topicSuffixNum);
      forall i, j :: 0 <= i < |ts| && 0 <= j < |ts| && i != j ==> ts[i] != ts[j]
  {
    var ts := TopicList(tenant, namespace, topic, topicSuffixNum);
    forall i, j | 0 <= i < |ts| && 0 <= j < |ts| && i != j
      ensures ts[i] != ts[j]
    {
      TopicFnInjective(tenant, namespace, topic + Decimal(i), topic + Decimal(j));
      PrefixCancel(topic, Decimal(i), Decimal(j));
      DecimalInjective(i, j);
    }
  }

  /** The loop at the start of `boot`: appends one name per suffix to an
      initially empty list. */
  method EnumerateTopics(tenant: string, namespace: string, topic: string, topicSuffixNum: int32)
    returns (topics: seq<string>)
    ensures topics == TopicList(tenant, namespace, topic, topicSuffixNum)
  {
    topics := [];
    if topicSuffixNum == 0 {
      topics := topics + [TopicFn(tenant, namespace, topic)];
    } else {
      // i never overflows: it stops at topicSuffixNum, itself an int32
      ghost var all := TopicList(tenant, namespace, topic, topicSuffixNum);
      var i: int := 0;
      while i < topicSuffixNum as int
        invariant 0 <= i <= |all|
        invariant topics == all[..i]
      {
        topics := topics + [TopicFn(tenant, namespace, topic + Decimal(i))];
        i := i + 1;
      }
      assert topics == all;
    }
  }
}
