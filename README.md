# Kafka Consumer wrapper: a verified model

This project models the `Consumer` class of a small wrapper around the
`node-rdkafka` client, as its Jest suite `lib/consumer.test.js` pins it
down. The implementation file `lib/consumer.js` is not part of this model,
so the model is built from the test file. Where the tests are silent, it
follows the consumer's documented design. Three parts are modelled:

- **Construction** (`options.dfy`, module `ConsumerOptions`; `connection.dfy`, module `Connection`).
  - The option record is validated in a fixed order: `name`, `host`, `groupId`, `topic`, `mode`, `connectTimeout`, `intervalFetchMessage`, `numMsgFetchPerTime`.
  - Failure yields one exact error message and no consumer.
  - Success resolves the defaults (`non-flowing`, 5000, 1, 10).
  - The client and topic configurations handed to the native client are built from built-in properties, with the caller's mappings spread over them.
  - The same module covers the two failures of the connection itself. A failed `connect` gives the message `Cannot connect to Kafka.\n` followed by the error's stack. An `event.error` is classified: rethrown, warned, or dropped.
- **Non-flowing mode** (`poller.dfy`, module `NonFlowingMode`).
  - On each tick, the consume callback turns one poll result into effects: handler calls, commits and error logs.
  - `Poller.OnPoll` is the imperative callback, appending to an effect log.
  - `SessionOutcome` shows that no outcome stops later ticks from being handled.
- **Flowing mode** (`flowing.dfy`, module `FlowingMode`).
  - The `Consumer` class keeps `flowingCommitQueue`, a map from partition to a queue of `{message, done}` entries.
  - `OnData` queues each delivered message as pending and hands it to the handler.
  - `FlowingCommit` marks the acknowledged entry done, shifts the done entries off the head, and commits the last entry shifted off.
  - The method is proved against the pure function `Acknowledge`. The lemmas about `Acknowledge` state the ordered-commit guarantees:
    - no gap is ever committed;
    - commits on a partition strictly increase;
    - a second acknowledgment is a no-op;
    - the queue left after a run of acknowledgments does not depend on their order.

`wrappers.dfy` holds the `Option` and `Result` types.

## Model

| member | source | states |
|---|---|---|
| ConsumerOptions.CheckPositiveInt | lib/consumer.test.js:163-262 | An undefined setting takes its default. A defined one fails exactly when it is not an integer or is not above 0: "should be integer" for the first, "should greater than 0" for the second. Otherwise it resolves to the given number. |
| ConsumerOptions.Validate | lib/consumer.test.js:46-263 | On success the argument was given and every required option was non-empty. Each field is copied. Mode is `Flowing` exactly when `"flowing"` was given. Every numeric setting is its given value or its default. |
| ConsumerOptions.FirstViolation | lib/consumer.test.js:46-263 | `None` exactly when every rule holds. Otherwise it gives the message of a broken rule with every earlier rule holding. |
| ConsumerOptions.NumericRulesAgree | lib/consumer.test.js:163-262 | The numeric check fails exactly when one of its two rules (integer, then positive) is broken, and with the first such rule's message. |
| ConsumerOptions.ValidateReportsFirstViolation | lib/consumer.test.js:46-263 | Validation fails exactly when some rule in the fixed order is broken, and with the message of the first broken one. A missing argument counts as missing `name`. |
| ConsumerOptions.ValidateRequiredOnly | lib/consumer.test.js:112-131 | With only the four required options, the result is `non-flowing`, 5000, 1, 10, and both native mappings are undefined. |
| ConsumerOptions.MissingOptionScenarios | lib/consumer.test.js:46-110 | No argument, `{}`, `{name}`, `{name, host}`, `{name, host, groupId}` and an empty topic each fail, naming the first missing option. |
| ConsumerOptions.InvalidSettingScenarios | lib/consumer.test.js:146-262 | Mode `"abc"`, a string, and -1 for each numeric setting each fail with the message the tests expect. |
| Connection.Merge | lib/consumer.test.js:266-301 | The keys are the built-in ones plus the caller's. A caller value wins wherever it is given. A built-in value stays wherever it is not overridden. |
| Connection.Create | lib/consumer.test.js:112-143 | Construction fails exactly when validation does, with its message. Otherwise the native client gets the built-in client and topic properties merged with the caller's mappings. |
| Connection.CreateWithoutOverrides | lib/consumer.test.js:132-143 | Without caller mappings, the client configuration is exactly the five built-in properties, and the topic configuration is exactly `auto.offset.reset: earliest`. |
| Connection.CreateWithOverrides | lib/consumer.test.js:266-301 | Caller mappings override even the built-in keys, and their extra keys pass through. |
| Connection.ConnectFailureMessage | lib/consumer.test.js:317-337 | The message is the fixed prefix followed by the stack, unchanged. |
| Connection.Connect | lib/consumer.test.js:317-337 | A connect attempt fails exactly when the callback reports an error, and with that error's failure message. |
| Connection.ConnectFailureKeepsStack | lib/consumer.test.js:336 | Different stacks give different failure messages. |
| Connection.OnEventError | lib/consumer.test.js:339-372 | Rethrown exactly for `Local: Broker transport failure`. Otherwise passed to `warn` exactly when there is a logger. The error is passed on unchanged. |
| NonFlowingMode.BatchActionsAt | lib/consumer.test.js:375-404 | The batch effects are exactly two per message: the handler call at position 2i and its commit at 2i+1. |
| NonFlowingMode.BatchHandledAndCommitted | lib/consumer.test.js:375-404 | A batch hands every message to the handler and commits every message, in array order. |
| NonFlowingMode.PollOutcome | lib/consumer.test.js:375-485 | An error is logged (when there is a logger), with no handler call and no commit. A null, undefined, scalar or empty result has no effect. An array is handled and committed message by message. |
| NonFlowingMode.SessionOutcome | lib/consumer.test.js:375-485 | Over any run of ticks, the handled and committed messages are those of the error-free array results, in order. The logged errors are those of the failed ticks. |
| NonFlowingMode.Poller.OnPoll | lib/consumer.test.js:375-485 | The log grows by exactly the effects of this poll result. |
| NonFlowingMode.TwoBatchesScenario | lib/consumer.test.js:375-404 | Two ticks of two messages each give four handler calls and four commits. |
| NonFlowingMode.FailingPollsScenario | lib/consumer.test.js:406-438 | Two failing ticks log the error twice, with no handler call and no commit. |
| NonFlowingMode.NonArrayScenario | lib/consumer.test.js:440-485 | Null, undefined, a string, a number and `[]` are ignored, and a following one-message array is handled and committed once. |
| FlowingMode.FindOffset | lib/consumer.test.js:546-583 | Gives the first index with the acknowledged offset, or `None` exactly when no entry has it. |
| FlowingMode.DonePrefixLength | lib/consumer.test.js:562-583 | Gives the length of the maximal run of done entries at the head. |
| FlowingMode.AcknowledgeSpec | lib/consumer.test.js:546-583 | An unknown offset changes nothing. Otherwise `k` entries leave the head, each already done or the acknowledged one. The rest stays in order, with the acknowledged entry marked. The new head is pending. Exactly the last entry removed is committed. |
| FlowingMode.AcknowledgeBehindHead | lib/consumer.test.js:546-560 | Acknowledging behind a pending head keeps the length and the head, commits nothing, and flips only the acknowledged entry's flag. |
| FlowingMode.AcknowledgeHead | lib/consumer.test.js:562-583 | Acknowledging the head removes it with the whole run of done entries behind it. The new head is the earliest entry not yet acknowledged, and the last entry removed is committed. |
| FlowingMode.AcknowledgeKeepsShape | lib/consumer.test.js:531-583 | Offsets stay strictly increasing, entries stay on their partition, and the head stays pending. Whatever lay beyond an offset still does. |
| FlowingMode.AcknowledgeNoGap | lib/consumer.test.js:562-583 | A commit is one of the queue's messages. Every entry up to its offset had been acknowledged, and everything left lies beyond it. |
| FlowingMode.AcknowledgeTwice | lib/consumer.test.js:546-583 | Acknowledging the same message again changes nothing and commits nothing. |
| FlowingMode.AcknowledgeEachOrderFree | lib/consumer.test.js:546-583 | After any run of acknowledgments, the queue is the original with every acknowledged offset marked and the done head removed. It depends only on the set of offsets acknowledged. |
| FlowingMode.AcknowledgeSwap | lib/consumer.test.js:546-583 | Two acknowledgments leave the same queue in either order. |
| FlowingMode.DeliverKeepsValid | lib/consumer.test.js:505-520 | Queueing a message delivered in offset order keeps every queue well formed and every commit below its partition's queue. |
| FlowingMode.AcknowledgeKeepsValid | lib/consumer.test.js:531-583 | An acknowledgment keeps the state valid. Commits on each partition stay strictly increasing. |
| FlowingMode.Consumer.OnData | lib/consumer.test.js:505-520 | The message is appended as pending to its own partition's queue only, and handed to the handler. Validity is kept. |
| FlowingMode.Consumer.FlowingCommit | lib/consumer.test.js:522-584 | Only the acknowledged message's partition queue changes, to what `Acknowledge` gives; other partitions are untouched. The commit log grows by its commit. An unknown partition is a no-op. Validity is kept. |
| FlowingMode.Consumer.FindEntry | lib/consumer.test.js:546-583 | The search loop finds exactly what `FindOffset` specifies. |
| FlowingMode.Consumer.TrimDone | lib/consumer.test.js:562-583 | The shifting loop removes exactly the done prefix and returns the last entry removed. |
| FlowingMode.CommitInOrderScenario | lib/consumer.test.js:522-584 | On [1,2,3,4], acknowledging 2 then 3 keeps four entries with 1 pending at the head, and commits nothing. Acknowledging 1 then leaves [4] and commits 3. Likewise [6..9] with 7, 8, then 6 leaves [9]. |

## Left out

- Timers and wall-clock behaviour: the interval between consume calls, and the number of `consume` calls in a given time. A tick is modelled as one poll result, with the sequence of ticks as input.
- The pass-through of arbitrary native events to the consumer's listeners, and the `ready`, `subscribe` and `consume()` wiring of `listen`. This is event plumbing over a library that is not part of this model.
- The `node-rdkafka` client itself: connection, timeouts, and the real commit call. A commit is recorded as an entry in a log.
- Loggers: only "an error was logged" and "a warning was given" are recorded, with their argument.
- Error stacks are opaque strings.
- JavaScript numbers are modelled as exact reals. NaN, infinities and rounding are not modelled, and a string stands for any non-number.
- Required options are modelled as strings. A required option counts as missing when it is undefined or empty.
- Exceptions thrown by the caller's handler are not modelled.
- Connection.Merge: the design description says the consumer's own client properties win over the caller's. The test at lib/consumer.test.js:266-301 shows the caller's values winning, and the model follows the test.
- FlowingMode.Acknowledge: the tests do not check which message is committed when the head is shifted off. The model commits the last entry shifted off, as the design describes. An acknowledgment for an unknown partition or offset is modelled as a no-op, which the tests do not exercise.
- FlowingMode.Consumer.OnData: validity is kept only for messages delivered in increasing offset order on their partition. The model assumes this of the broker and does not check it.
