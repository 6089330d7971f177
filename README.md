# Pulsar consumer fleet layout

This project models the part of `PulsarBootService` (the Pulsar flavour of the
performance consumer) that decides which consumers exist and how they are laid
out over the pull threads. The properties are proved in Dafny.

- **Topic enumeration.** `boot` builds the topics from `tenant`, `namespace`,
  `topic` and `topicSuffixNum`. Each name has the form
  `persistent://<tenant>/<namespace>/<name>` (`topicFn`).
  - A count of 0 gives the bare base name.
  - A positive count n gives `base0 … base(n-1)`.
  - A negative count gives no topic, because the counting loop never runs.
- **Mode selection.** In `LISTEN` mode, `createConsumers` subscribes one
  listener consumer per topic and returns. No consumer list, limiter or thread
  is built.
- **Round-robin layout.** In every other mode, `createConsumers` works in four
  steps:
  - it builds `pullThreads` empty consumer lists;
  - it subscribes each topic in turn;
  - it appends topic `aux`'s consumer to list `aux % pullThreads`, and appends
    one limiter entry to `semaphores`;
  - it starts thread i with the whole `semaphores` list and consumer list i.

  A limiter entry is `null` (unbounded) when `receiveLimiter == -1` and a
  semaphore with `receiveLimiter` permits otherwise.

There is one limiter entry per topic, not one per worker, and every thread
receives the whole list. A design that gives each worker a limiter of its own
does not match this code. The model follows the code.

Error paths are modelled as outcomes, not excluded by preconditions:

- **Client build fails.** `boot` stops before listing any topic.
- **The broker refuses a subscription.** The parameter `firstRefused` gives the
  ordinal of the first refused `subscribe()` call. The call stops there, the
  earlier subscriptions stay open, and no thread starts.
- **`pullThreads == 0` with at least one topic.** `aux % 0` throws right after
  the first subscription.
- **`pullThreads < 0` with at least one topic.** `0 % pullThreads` is 0, so
  `get(0)` on the empty list of lists throws.
- **Empty topic list.** The call succeeds. In `LISTEN` mode, or with a thread
  count that is not positive, no thread starts. Otherwise `pullThreads` idle
  threads start, each with an empty consumer list and an empty `semaphores`
  list.

Modules:

- `JavaInt`: Java's `int` and `Integer.toString` on non-negative values, with
  its inverse.
- `TopicEnumeration`: `topicFn` and the topic loop of `boot`.
- `RoundRobin`: the bucket-by-index-modulo-w specification and its lemmas.
- `ConsumerFleet`: `createConsumers` as methods with loops. They are proved
  equal to the reference outcome `Plan`.
- `FleetProperties`: what the layout promises, stated over `Plan`.
- `PulsarBoot`: `boot` itself, plus properties and examples of the whole.

## Model

| member | source | states |
|---|---|---|
| JavaInt.Decimal | performance-consumer-pulsar/src/main/java/com/github/shoothzj/pf/consumer/pulsar/PulsarBootService.java:60 | The text `topic + i` appends for a non-negative int i: a non-empty run of decimal digits. It starts with '0' only for 0 and has one digit exactly when i < 10. |
| JavaInt.DecimalRoundTrip | performance-consumer-pulsar/src/main/java/com/github/shoothzj/pf/consumer/pulsar/PulsarBootService.java:60 | Reading the appended digits back as a decimal number gives the suffix i. |
| JavaInt.DecimalInjective | performance-consumer-pulsar/src/main/java/com/github/shoothzj/pf/consumer/pulsar/PulsarBootService.java:60 | Two suffixes are written the same exactly when they are equal. |
| TopicEnumeration.TopicFn | performance-consumer-pulsar/src/main/java/com/github/shoothzj/pf/consumer/pulsar/PulsarBootService.java:112-114 | `topicFn`: the name is the namespace prefix `persistent://<tenant>/<namespace>/` followed by exactly the topic name. `TopicFnInjective` proves that distinct topic names give distinct names. |
| TopicEnumeration.TopicList | performance-consumer-pulsar/src/main/java/com/github/shoothzj/pf/consumer/pulsar/PulsarBootService.java:55-62 | The list `boot` builds: the bare name for a count of 0, none for a negative count, and otherwise the base name with suffixes 0 to n-1 in order. Its contract gives the length (1, 0 or n). `TopicListShape` states each entry, `TopicListDistinct` that no name repeats, and `EnumerateTopics` that the loop builds exactly this list. |
| TopicEnumeration.TopicFnInjective | performance-consumer-pulsar/src/main/java/com/github/shoothzj/pf/consumer/pulsar/PulsarBootService.java:112-114 | For a fixed tenant and namespace, two formatted names are equal exactly when the topic names are. |
| TopicEnumeration.TopicListShape | performance-consumer-pulsar/src/main/java/com/github/shoothzj/pf/consumer/pulsar/PulsarBootService.java:55-62 | Length: 1 for a count of 0, none for a negative count, n for a count n > 0. For a count of 0 the one name is the namespace prefix plus the bare base name. For n > 0, entry i is the prefix, the base name and a digit run whose value is i, with no leading zero unless it is the single digit 0: the `Integer.toString` form. |
| TopicEnumeration.NameAt | performance-consumer-pulsar/src/main/java/com/github/shoothzj/pf/consumer/pulsar/PulsarBootService.java:60 | The name built for suffix i is the namespace prefix and base name followed by digits that read back as i, with no leading zero. |
| TopicEnumeration.TopicListDistinct | performance-consumer-pulsar/src/main/java/com/github/shoothzj/pf/consumer/pulsar/PulsarBootService.java:55-62 | No name occurs twice in the topic list. |
| TopicEnumeration.EnumerateTopics | performance-consumer-pulsar/src/main/java/com/github/shoothzj/pf/consumer/pulsar/PulsarBootService.java:55-62 | The list-appending loop produces exactly the reference list `TopicList`, whose shape and distinctness the two lemmas above state. |
| RoundRobin.Bucket | performance-consumer-pulsar/src/main/java/com/github/shoothzj/pf/consumer/pulsar/PulsarBootService.java:81-82 | The round-robin rule: list k holds the items whose index is k modulo w, in input order. Its contract says the list is no longer than the input. Its contents are stated by `BucketAt`, `Placement` and `ExactlyOneBucket`, its size by `BucketLength`. |
| RoundRobin.Assign | performance-consumer-pulsar/src/main/java/com/github/shoothzj/pf/consumer/pulsar/PulsarBootService.java:75-77 | There are exactly w worker lists, some of them possibly empty. |
| RoundRobin.AssignAppend | performance-consumer-pulsar/src/main/java/com/github/shoothzj/pf/consumer/pulsar/PulsarBootService.java:81-82 | Adding the next item puts it at the end of list `count % w`. Every other list is unchanged. |
| RoundRobin.BucketLength | performance-consumer-pulsar/src/main/java/com/github/shoothzj/pf/consumer/pulsar/PulsarBootService.java:78-88 | List k holds `count / w` items, plus one when `k < count % w`. |
| RoundRobin.Balanced | performance-consumer-pulsar/src/main/java/com/github/shoothzj/pf/consumer/pulsar/PulsarBootService.java:78-88 | Any two list sizes differ by at most one. |
| RoundRobin.AssignCoversAll | performance-consumer-pulsar/src/main/java/com/github/shoothzj/pf/consumer/pulsar/PulsarBootService.java:78-88 | The list sizes add up to the number of items. |
| RoundRobin.BucketAt | performance-consumer-pulsar/src/main/java/com/github/shoothzj/pf/consumer/pulsar/PulsarBootService.java:78-88 | Entry j of list k is input item `k + j*w`, so each list keeps the input order. |
| RoundRobin.BucketAtEarlier | performance-consumer-pulsar/src/main/java/com/github/shoothzj/pf/consumer/pulsar/PulsarBootService.java:82 | Appending to a list leaves its earlier entries in place. |
| RoundRobin.BucketAtLast | performance-consumer-pulsar/src/main/java/com/github/shoothzj/pf/consumer/pulsar/PulsarBootService.java:81-82 | The entry a list just gained is the last item added, at position `k + j*w`. |
| RoundRobin.Placement | performance-consumer-pulsar/src/main/java/com/github/shoothzj/pf/consumer/pulsar/PulsarBootService.java:81-82 | Item i sits in list `i % w`, at position `i / w`. |
| RoundRobin.ExactlyOneBucket | performance-consumer-pulsar/src/main/java/com/github/shoothzj/pf/consumer/pulsar/PulsarBootService.java:81-82 | The items are distinct, so item i is in list k exactly when `k == i % w`. Every item is in one list and only one. |
| ConsumerFleet.LimiterFor | performance-consumer-pulsar/src/main/java/com/github/shoothzj/pf/consumer/pulsar/PulsarBootService.java:83-87 | The limiter entry is unbounded (`null`) exactly when `receiveLimiter == -1`. Otherwise it is bounded with `receiveLimiter` permits. |
| ConsumerFleet.Limiters | performance-consumer-pulsar/src/main/java/com/github/shoothzj/pf/consumer/pulsar/PulsarBootService.java:83-87 | The `semaphores` list after n topics. It has exactly n entries, and each is the entry `LimiterFor(receiveLimiter)` builds: unbounded (`null`) exactly when `receiveLimiter` is -1, otherwise a `Semaphore` with `receiveLimiter` permits. `LimitersStep` shows that each pass appends one entry. `FillConsumerLists` and `PullFleetShape` show that a complete pull run hands this list to every thread. |
| ConsumerFleet.Threads | performance-consumer-pulsar/src/main/java/com/github/shoothzj/pf/consumer/pulsar/PulsarBootService.java:90-92 | The arguments of the threads a complete pull run starts. There is one thread per worker, that is `pullThreads` of them or none for a count that is not positive. Thread k has index k, one limiter entry per topic, and no more consumers than there are topics. `PullExactlyOneOwner` shows that no topic has two consumers in any thread. `ThreadsMatch` and `StartThreads` show that the start loop produces it. `ThreadConsumers`, `PullPlacement`, `PullOrderKept` and `PullThreadLoad` state which consumers each thread holds. |
| ConsumerFleet.ListenPlan | performance-consumer-pulsar/src/main/java/com/github/shoothzj/pf/consumer/pulsar/PulsarBootService.java:67-72 | The reference outcome of the `LISTEN` branch. It starts no thread and never opens more subscriptions than there are topics. It ends without exception exactly when every topic is subscribed. Otherwise the exception is the refusal of the first topic not subscribed. `SubscribeListeners` is proved to produce it, and `ListenSubscribesEachTopicOnce` and `ListenIgnoresPullSettings` state its properties. |
| ConsumerFleet.Accepted | performance-consumer-pulsar/src/main/java/com/github/shoothzj/pf/consumer/pulsar/PulsarBootService.java:80 | At most all topics are subscribed. Fewer are subscribed exactly when the broker refuses a call within the list. |
| ConsumerFleet.PullSubscribed | performance-consumer-pulsar/src/main/java/com/github/shoothzj/pf/consumer/pulsar/PulsarBootService.java:79-82 | The pull loop never subscribes more topics than it is given. |
| ConsumerFleet.PullPlan | performance-consumer-pulsar/src/main/java/com/github/shoothzj/pf/consumer/pulsar/PulsarBootService.java:73-92 | The reference outcome of the pull branch. An exception occurs exactly when some topic is left unsubscribed, or when there are topics but the thread count is not positive. Threads start only without exception and with a positive count. Without exception there is one thread per worker. `FillConsumerLists` and `StartThreads` are proved to produce it. `PullFleetShape`, `PullPartition`, `PullWithoutThreads` and `RefusedSubscriptionAborts` state its properties. |
| ConsumerFleet.PullFailure | performance-consumer-pulsar/src/main/java/com/github/shoothzj/pf/consumer/pulsar/PulsarBootService.java:79-88 | The exception the pull branch ends with. There is none exactly when every topic is accepted and, for a thread count that is not positive, there is no topic. A refusal is reported only for a refused call within the list. `PullStep` proves it is the exception of the first failing pass, in Java's order: refusal first, then `% 0` or `get` out of range. |
| ConsumerFleet.Plan | performance-consumer-pulsar/src/main/java/com/github/shoothzj/pf/consumer/pulsar/PulsarBootService.java:66-92 | The reference outcome of `createConsumers`. Subscription i is for topic i, a listener exactly in `LISTEN` mode, and there are never more subscriptions than topics. The call ends without exception exactly when every topic is subscribed and, in pull mode with a thread count that is not positive, there is no topic. Threads are started only in pull mode, with a positive count and no exception. `CreateConsumers` is proved to produce it, and the `FleetProperties` lemmas state the rest. |
| ConsumerFleet.CreateConsumers | performance-consumer-pulsar/src/main/java/com/github/shoothzj/pf/consumer/pulsar/PulsarBootService.java:66-92 | The method's outcome (subscriptions, started threads and their arguments, exception) equals the reference outcome `Plan` for every mode, topic list, thread count, limiter setting and broker refusal. |
| ConsumerFleet.SubscribeListeners | performance-consumer-pulsar/src/main/java/com/github/shoothzj/pf/consumer/pulsar/PulsarBootService.java:67-72 | The listen loop gives one listener subscription per topic, in order, up to a refused call. It starts no thread. |
| ConsumerFleet.NewConsumerLists | performance-consumer-pulsar/src/main/java/com/github/shoothzj/pf/consumer/pulsar/PulsarBootService.java:75-77 | The loop builds `pullThreads` empty lists, or none for a count that is not positive. |
| ConsumerFleet.FillConsumerLists | performance-consumer-pulsar/src/main/java/com/github/shoothzj/pf/consumer/pulsar/PulsarBootService.java:78-89 | The loop over the topics ends with the plan's exception and subscriptions. When no exception occurs, `semaphores` has one entry per topic and the lists are the round-robin assignment of the consumers. |
| ConsumerFleet.AddTopic | performance-consumer-pulsar/src/main/java/com/github/shoothzj/pf/consumer/pulsar/PulsarBootService.java:80-88 | One loop pass: refusal, division by zero or index out of range, in that order. Otherwise the consumer is appended to list `aux % pullThreads` (and only there), and one limiter entry is appended. |
| ConsumerFleet.PullStep | performance-consumer-pulsar/src/main/java/com/github/shoothzj/pf/consumer/pulsar/PulsarBootService.java:80-82 | An exception in the pass for topic `aux` is the exception of the whole call, with exactly the subscriptions made so far. A pass without one happens only with a positive thread count. |
| ConsumerFleet.PullComplete | performance-consumer-pulsar/src/main/java/com/github/shoothzj/pf/consumer/pulsar/PulsarBootService.java:79-89 | A loop that reaches the end of the topics ends without exception, with every topic subscribed. |
| ConsumerFleet.TopicFailure | performance-consumer-pulsar/src/main/java/com/github/shoothzj/pf/consumer/pulsar/PulsarBootService.java:80-82 | The exception of one pass, in Java's order. A pass raises nothing exactly when its subscription is accepted and the thread count is positive. A refusal takes precedence over the `%` and `get` failures. An index failure happens only for a negative count, and then at an index in [0, -pullThreads), which is past the end of the empty list of lists. `AddTopic` is proved to raise exactly it, and `PullStep` ties it to the exception of the whole call. |
| ConsumerFleet.StartThreads | performance-consumer-pulsar/src/main/java/com/github/shoothzj/pf/consumer/pulsar/PulsarBootService.java:90-92 | Thread k for each k below `pullThreads` gets index k, the full `semaphores` list and consumer list k. |
| ConsumerFleet.ThreadsMatch | performance-consumer-pulsar/src/main/java/com/github/shoothzj/pf/consumer/pulsar/PulsarBootService.java:90-92 | The threads started from the filled lists are the reference threads of the plan. |
| ConsumerFleet.LimitersStep | performance-consumer-pulsar/src/main/java/com/github/shoothzj/pf/consumer/pulsar/PulsarBootService.java:83-87 | Each pass appends exactly one limiter entry. |
| ConsumerFleet.SubscriptionsStep | performance-consumer-pulsar/src/main/java/com/github/shoothzj/pf/consumer/pulsar/PulsarBootService.java:80 | Each pass adds exactly the subscription of its own topic. |
| ConsumerFleet.ConsumersStep | performance-consumer-pulsar/src/main/java/com/github/shoothzj/pf/consumer/pulsar/PulsarBootService.java:81-82 | The pass for topic `aux` extends the round-robin lists by putting its consumer into list `aux % w`. |
| FleetProperties.ThreadConsumers | performance-consumer-pulsar/src/main/java/com/github/shoothzj/pf/consumer/pulsar/PulsarBootService.java:90-92 | In a complete pull run there are `pullThreads` threads, and thread k holds round-robin list k. |
| FleetProperties.ListenSubscribesEachTopicOnce | performance-consumer-pulsar/src/main/java/com/github/shoothzj/pf/consumer/pulsar/PulsarBootService.java:67-72 | When the broker accepts every call it receives (no refusal, or the first refusal past the last topic), listen mode makes one listener subscription per topic, in order, with no thread and no exception. A refusal within the list is covered by `RefusedSubscriptionAborts`. |
| FleetProperties.ListenIgnoresPullSettings | performance-consumer-pulsar/src/main/java/com/github/shoothzj/pf/consumer/pulsar/PulsarBootService.java:67-72 | Listen mode returns before any pull setting is read. Its outcome is the same for every thread count and limiter setting, and it starts no thread. |
| FleetProperties.PullFleetShape | performance-consumer-pulsar/src/main/java/com/github/shoothzj/pf/consumer/pulsar/PulsarBootService.java:73-92 | With a positive thread count and no refusal: every topic is subscribed once, in order. Exactly `pullThreads` threads start, and thread k has index k. Every thread gets one limiter entry per topic, unbounded exactly when `receiveLimiter == -1` and otherwise bounded with `receiveLimiter` permits. |
| FleetProperties.PullPlacement | performance-consumer-pulsar/src/main/java/com/github/shoothzj/pf/consumer/pulsar/PulsarBootService.java:81-82 | Topic i's consumer is entry `i / pullThreads` of thread `i % pullThreads`. |
| FleetProperties.PlacedAt | performance-consumer-pulsar/src/main/java/com/github/shoothzj/pf/consumer/pulsar/PulsarBootService.java:81-82 | For k = i % pullThreads and j = i / pullThreads: thread k exists, it has an entry j, and that entry is topic i's consumer. |
| FleetProperties.PullOrderKept | performance-consumer-pulsar/src/main/java/com/github/shoothzj/pf/consumer/pulsar/PulsarBootService.java:78-88 | Entry j of thread k is the consumer of topic `k + j*pullThreads`, so each thread keeps the topic order. |
| FleetProperties.PullExactlyOneOwner | performance-consumer-pulsar/src/main/java/com/github/shoothzj/pf/consumer/pulsar/PulsarBootService.java:79-88 | Thread k owns topic i's consumer exactly when `k == i % pullThreads`. |
| FleetProperties.PullPartition | performance-consumer-pulsar/src/main/java/com/github/shoothzj/pf/consumer/pulsar/PulsarBootService.java:79-88 | The threads' consumer lists together hold one entry per topic, and any two differ in length by at most one. |
| FleetProperties.PullThreadLoad | performance-consumer-pulsar/src/main/java/com/github/shoothzj/pf/consumer/pulsar/PulsarBootService.java:75-88 | Thread k owns `|topics| / pullThreads` consumers, plus one when `k < |topics| % pullThreads`. With fewer topics than threads, some threads start with none. |
| FleetProperties.PullIdleFleet | performance-consumer-pulsar/src/main/java/com/github/shoothzj/pf/consumer/pulsar/PulsarBootService.java:73-92 | With no topic and a positive thread count, the pull branch succeeds without subscribing anything. It starts `pullThreads` threads, and thread k has index k, an empty consumer list and an empty `semaphores` list. |
| FleetProperties.PullWithoutThreads | performance-consumer-pulsar/src/main/java/com/github/shoothzj/pf/consumer/pulsar/PulsarBootService.java:75-82 | With a thread count that is not positive, for any broker behaviour, no thread starts. With no topic nothing fails. If the broker refuses the first call, the call ends there with no subscription. Otherwise exactly the first topic is subscribed, followed by a division by zero (count 0) or `get(0)` out of range (negative count), so no later call is made. |
| FleetProperties.RefusedSubscriptionAborts | performance-consumer-pulsar/src/main/java/com/github/shoothzj/pf/consumer/pulsar/PulsarBootService.java:68-80 | If the broker refuses the subscription of topic k, the call ends with that exception. Exactly the k earlier topics are subscribed, in order, and no thread starts. This holds in listen mode and in pull mode with a positive thread count. With a thread count that is not positive, only k = 0 applies: topic 0 already fails at `% 0` or `get(0)`, so call k > 0 is never made. |
| FleetProperties.SubscriptionsDistinct | performance-consumer-pulsar/src/main/java/com/github/shoothzj/pf/consumer/pulsar/PulsarBootService.java:80 | No two subscriptions of one call share a subscription. This follows from the encoding, not from anything the code computes: the random `UUID.randomUUID()` names are modelled as call ordinals, which assumes they are fresh. |
| PulsarBoot.Boot | performance-consumer-pulsar/src/main/java/com/github/shoothzj/pf/consumer/pulsar/PulsarBootService.java:43-63 | A client that fails to build aborts with nothing subscribed. Otherwise the outcome is `Plan` over `TopicList` for the configuration. |
| PulsarBoot.BootNoTopicTwice | performance-consumer-pulsar/src/main/java/com/github/shoothzj/pf/consumer/pulsar/PulsarBootService.java:55-92 | In a complete pull run over the configured topics, two different slots of the fleet never consume the same topic. |
| PulsarBoot.BareNameExample | performance-consumer-pulsar/src/main/java/com/github/shoothzj/pf/consumer/pulsar/PulsarBootService.java:56-57 | Count 0 for `orders` under `t/ns` gives only `persistent://t/ns/orders`. |
| PulsarBoot.SuffixedNamesExample | performance-consumer-pulsar/src/main/java/com/github/shoothzj/pf/consumer/pulsar/PulsarBootService.java:58-61 | Count 2 gives `persistent://t/ns/orders0` then `persistent://t/ns/orders1`. |
| PulsarBoot.SixOverFourExample | performance-consumer-pulsar/src/main/java/com/github/shoothzj/pf/consumer/pulsar/PulsarBootService.java:78-92 | Six topics over four threads give the lists {0, 4}, {1, 5}, {2} and {3}. |

## Left out

- Building the Pulsar client (operation timeout, io threads, service URL from host and port, lines 44-53). Only its failure is modelled, as the `clientBuilds` parameter of `Boot`.
- `createConsumerBuilder` (lines 95-110). It only sets options on the client library's builder: subscription type, partition auto-update and batch receive policy.
- `UUID.randomUUID()` subscription names (lines 69, 80, 97). Each consumer's name is modelled by the ordinal of its `subscribe()` call. The model keeps only that the names are fresh, not their text. The name the builder sets first and the later override are not told apart.
- `subscribe()` and the message listener lambda (lines 69, 80). This is broker input and output. The broker appears only as the parameter `firstRefused`, the first call it refuses. All calls up to that one succeed.
- `PulsarPullThread`: its receive and acknowledge loop, and the acquiring and releasing of the semaphores. Only the arguments each thread receives at lines 90-92 are modelled. `actionService` and `pulsarConfig` are passed unchanged and are not modelled.
- Limiter identity. A semaphore is modelled as a value (`Bounded(permits)`), so the model cannot tell whether two entries are the same object. The code builds a new one per topic.
- Consume modes other than `LISTEN`. That enum is not part of this model. Every other value takes the pull path, as the code's single `equals` test implies.
- `aux` overflow. `boot` passes an `ArrayList` of at most `topicSuffixNum` ≤ 2^31 - 1 names, so `aux` never wraps on that path. `aux` is modelled as an unbounded natural.
- A caller of the public `createConsumers` that passes more than 2^31 - 1 topics. `aux` would wrap to a negative value, `aux % pullThreads` could then be negative, and `get` would throw. The unbounded `aux` of the model does not capture this.
- `String.format` with `null` arguments. Tenant, namespace and topic are modelled as strings.
- Logging and the Spring constructor wiring (lines 37-41, 51).
- Exceptions from `new Semaphore` or from constructing and starting `PulsarPullThread`. That class is not part of this model, so these are not modelled.
