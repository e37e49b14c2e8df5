/**
 * Construction of the native client and the reactions to the connection's
 * own failures: the two configuration mappings handed to the native client's
 * constructor, the failure of a connect attempt, and the classification of
 * errors reported on the `event.error` channel.
 */
module Connection {
  import opened Wrappers
  import opened ConsumerOptions

  /** The client properties the consumer sets itself. */
  function BuiltinClientConfig(o: Options): Config {
    map[
      "group.id" := JsString(o.groupId),
      "metadata.broker.list" := JsString(o.host),
      "enable.auto.commit" := JsBool(false),
      "socket.keepalive.enable" := JsBool(true),
      "event_cb" := JsBool(true)]
  }

  const BuiltinTopicConfig: Config := map["auto.offset.reset" := JsString("earliest")]

  /** Spreads the caller's mapping, when there is one, over the built-in one. */
  function Merge(builtin: Config, overrides: Option<Config>): (c: Config)
    ensures overrides.None? ==> c == builtin
    ensures overrides.Some? ==> c.Keys == builtin.Keys + overrides.value.Keys
    ensures overrides.Some? ==> forall k :: k in overrides.value ==> c[k] == overrides.value[k]
    ensures forall k :: k in builtin && (overrides.None? || k !in overrides.value) ==> k in c && c[k] == builtin[k]
  {
    match overrides
    case None => builtin
    case Some(m) => builtin + m
  }

  function ClientConfig(o: Options): Config {
    Merge(BuiltinClientConfig(o), o.rdKafkaConfig)
  }

  function TopicConfig(o: Options): Config {
    Merge(BuiltinTopicConfig, o.rdKafkaTopicConfig)
  }

  /** A constructed consumer: its resolved options and the arguments given to the native client. */
  datatype Created = Created(options: Options, clientConfig: Config, topicConfig: Config)

  /**
   * `new Consumer(raw)`: fails, creating nothing, when validation fails;
   * otherwise builds the native client from the merged configurations.
   */
  function Create(raw: Option<RawOptions>): (r: Result<Created, string>)
    ensures r.Err? <==> Validate(raw).Err?
    ensures r.Err? ==> r.error == Validate(raw).error
    ensures r.Ok? ==> r.value.options == Validate(raw).value
    ensures r.Ok? ==> r.value.clientConfig == Merge(BuiltinClientConfig(r.value.options), raw.value.rdKafkaConfig)
    ensures r.Ok? ==> r.value.topicConfig == Merge(BuiltinTopicConfig, raw.value.rdKafkaTopicConfig)
  {
    var o :- Validate(raw);
    Ok(Created(o, ClientConfig(o), TopicConfig(o)))
  }

  /** With no caller mappings the native client gets exactly the built-in properties. */
  lemma CreateWithoutOverrides(raw: RawOptions)
    requires Validate(Some(raw)).Ok?
    requires raw.rdKafkaConfig.None? && raw.rdKafkaTopicConfig.None?
    ensures Create(Some(raw)).Ok?
    ensures Create(Some(raw)).value.clientConfig == map[
      "group.id" := JsString(raw.groupId.value),
      "metadata.broker.list" := JsString(raw.host.value),
      "enable.auto.commit" := JsBool(false),
      "socket.keepalive.enable" := JsBool(true),
      "event_cb" := JsBool(true)]
    ensures Create(Some(raw)).value.topicConfig == map["auto.offset.reset" := JsString("earliest")]
  {
  }

  /**
   * Caller mappings win over the built-in properties, including the five
   * client properties the consumer sets itself and `auto.offset.reset`, and
   * every extra property passes through.
   */
  lemma CreateWithOverrides(raw: RawOptions)
    requires Validate(Some(raw)).Ok?
    requires raw.rdKafkaConfig.Some? && raw.rdKafkaTopicConfig.Some?
    ensures Create(Some(raw)).Ok?
    ensures var c := Create(Some(raw)).value;
      && c.clientConfig.Keys == raw.rdKafkaConfig.value.Keys
           + {"group.id", "metadata.broker.list", "enable.auto.commit", "socket.keepalive.enable", "event_cb"}
      && (forall k :: k in raw.rdKafkaConfig.value ==> c.clientConfig[k] == raw.rdKafkaConfig.value[k])
      && c.topicConfig.Keys == raw.rdKafkaTopicConfig.value.Keys + {"auto.offset.reset"}
      && (forall k :: k in raw.rdKafkaTopicConfig.value ==> c.topicConfig[k] == raw.rdKafkaTopicConfig.value[k])
  {
  }

  // Failures of the connection itself

  const ConnectFailurePrefix := "Cannot connect to Kafka.\n"

  /** The message `listen` fails with when the connect callback reports an error whose stack is `stack`. */
  function ConnectFailureMessage(stack: string): (m: string)
    ensures |m| == |ConnectFailurePrefix| + |stack|
    ensures m[..|ConnectFailurePrefix|] == ConnectFailurePrefix
    ensures m[|ConnectFailurePrefix|..] == stack
  {
    ConnectFailurePrefix + stack
  }

  /** The outcome of the single connect attempt made by `listen`; `failure` is the reported error's stack. */
  function Connect(failure: Option<string>): (r: Result<(), string>)
    ensures r.Ok? <==> failure.None?
    ensures r.Err? ==> r.error == ConnectFailureMessage(failure.value)
  {
    match failure
    case None => Ok(())
    case Some(stack) => Err(ConnectFailureMessage(stack))
  }

  /** The connect failure message keeps the original stack: different stacks give different messages. */
  lemma ConnectFailureKeepsStack(s: string, t: string)
    requires ConnectFailureMessage(s) == ConnectFailureMessage(t)
    ensures s == t
  {
    assert s == ConnectFailureMessage(s)[|ConnectFailurePrefix|..];
  }

  const TransportFailure := "Local: Broker transport failure"

  datatype ErrorReaction = Rethrow(message: string) | Warn(message: string) | Drop

  /**
   * What the consumer does with an error on `event.error`: a broker transport
   * failure is thrown again; any other error goes to the logger's `warn`, or
   * nowhere when no logger was given.
   */
  function OnEventError(message: string, hasLogger: bool): (r: ErrorReaction)
    ensures r.Rethrow? <==> message == TransportFailure
    ensures r.Warn? <==> message != TransportFailure && hasLogger
    ensures !r.Drop? ==> r.message == message
  {
    if message == TransportFailure then Rethrow(message)
    else if hasLogger then Warn(message)
    else Drop
  }
}
