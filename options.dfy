/**
 * Validation and normalisation of the options a Consumer is constructed with.
 *
 * The caller hands over a raw option record (or nothing at all); construction
 * either fails with one exact error message, for the first rule the record
 * breaks, or yields a fully resolved Options record in which every optional
 * setting has its effective value.
 */
module ConsumerOptions {
  import opened Wrappers

  /** The JavaScript values a caller may put in an option or a native config entry. */
  datatype JsValue = JsNumber(n: real) | JsString(s: string) | JsBool(b: bool)

  /** A native-client configuration mapping (librdkafka property name to value). */
  type Config = map<string, JsValue>

  type Positive = x: int | x > 0 witness 1

  datatype Mode = Flowing | NonFlowing

  /** What the caller passes; `None` stands for a field left undefined. */
  datatype RawOptions = RawOptions(
    name: Option<string>,
    host: Option<string>,
    groupId: Option<string>,
    topic: Option<string>,
    mode: Option<string>,
    connectTimeout: Option<JsValue>,
    intervalFetchMessage: Option<JsValue>,
    numMsgFetchPerTime: Option<JsValue>,
    rdKafkaConfig: Option<Config>,
    rdKafkaTopicConfig: Option<Config>,
    hasLogger: bool)

  /** The resolved options: no optional setting is left without its effective value. */
  datatype Options = Options(
    name: string,
    host: string,
    groupId: string,
    topic: string,
    mode: Mode,
    connectTimeout: Positive,
    numMsgFetchPerTime: Positive,
    intervalFetchMessage: Positive,
    rdKafkaConfig: Option<Config>,
    rdKafkaTopicConfig: Option<Config>,
    hasLogger: bool)

  const DefaultConnectTimeout: Positive := 5000
  const DefaultNumMsgFetchPerTime: Positive := 1
  const DefaultIntervalFetchMessage: Positive := 10

  function RequiredMessage(field: string): string {
    "Error: Option '" + field + "' is required"
  }

  const ModeMessage := "Error: Option 'mode' should be set 'flowing' or 'non-flowing'"

  function IntegerMessage(field: string): string {
    "Error: Option '" + field + "' should be integer"
  }

  function PositiveMessage(field: string): string {
    "Error: Option '" + field + "' should greater than 0"
  }

  /** A required string option counts as given when it is defined and not empty. */
  predicate Provided(v: Option<string>) {
    v.Some? && v.value != ""
  }

  predicate ModeAllowed(v: Option<string>) {
    v.None? || v.value == "flowing" || v.value == "non-flowing"
  }

  /** JavaScript's Number.isInteger. */
  predicate IsInteger(v: JsValue) {
    v.JsNumber? && v.n.Floor as real == v.n
  }

  /** True when `value` is what an optional numeric setting resolves to. */
  predicate Resolved(given: Option<JsValue>, value: int, default: int) {
    if given.None? then value == default else given.value == JsNumber(value as real)
  }

  /**
   * One optional numeric setting: the default when it is undefined, otherwise
   * an integer check and then a positivity check, each with its own message.
   */
  function CheckPositiveInt(field: string, given: Option<JsValue>, default: Positive): (r: Result<Positive, string>)
    ensures r.Ok? ==> Resolved(given, r.value, default)
    ensures r.Err? <==> given.Some? && (!IsInteger(given.value) || given.value.n <= 0.0)
    ensures r.Err? && !IsInteger(given.value) ==> r.error == IntegerMessage(field)
    ensures r.Err? && IsInteger(given.value) ==> r.error == PositiveMessage(field)
  {
    match given
    case None => Ok(default)
    case Some(v) =>
      if !IsInteger(v) then Err(IntegerMessage(field))
      else if v.n.Floor <= 0 then Err(PositiveMessage(field))
      else Ok(v.n.Floor)
  }

  /**
   * Validates and normalises the constructor argument. A missing argument
   * counts as a record without `name`.
   */
  function Validate(raw: Option<RawOptions>): (r: Result<Options, string>)
    ensures r.Ok? ==> raw.Some?
    ensures r.Ok? ==>
      var o, v := raw.value, r.value;
      && Provided(o.name) && v.name == o.name.value
      && Provided(o.host) && v.host == o.host.value
      && Provided(o.groupId) && v.groupId == o.groupId.value
      && Provided(o.topic) && v.topic == o.topic.value
      && (v.mode == Flowing <==> o.mode == Some("flowing"))
      && Resolved(o.connectTimeout, v.connectTimeout, DefaultConnectTimeout)
      && Resolved(o.intervalFetchMessage, v.intervalFetchMessage, DefaultIntervalFetchMessage)
      && Resolved(o.numMsgFetchPerTime, v.numMsgFetchPerTime, DefaultNumMsgFetchPerTime)
      && v.rdKafkaConfig == o.rdKafkaConfig
      && v.rdKafkaTopicConfig == o.rdKafkaTopicConfig
      && v.hasLogger == o.hasLogger
  {
    if raw.None? then Err(RequiredMessage("name"))
    else
      var o := raw.value;
      if !Provided(o.name) then Err(RequiredMessage("name"))
      else if !Provided(o.host) then Err(RequiredMessage("host"))
      else if !Provided(o.groupId) then Err(RequiredMessage("groupId"))
      else if !Provided(o.topic) then Err(RequiredMessage("topic"))
      else if !ModeAllowed(o.mode) then Err(ModeMessage)
      else
        var connectTimeout :- CheckPositiveInt("connectTimeout", o.connectTimeout, DefaultConnectTimeout);
        var interval :- CheckPositiveInt("intervalFetchMessage", o.intervalFetchMessage, DefaultIntervalFetchMessage);
        var batch :- CheckPositiveInt("numMsgFetchPerTime", o.numMsgFetchPerTime, DefaultNumMsgFetchPerTime);
        Ok(Options(
          o.name.value, o.host.value, o.groupId.value, o.topic.value,
          if o.mode == Some("flowing") then Flowing else NonFlowing,
          connectTimeout, batch, interval,
          o.rdKafkaConfig, o.rdKafkaTopicConfig, o.hasLogger))
  }

  // The validation rules as a list, in the order they are applied.

  datatype Rule = Rule(holds: bool, message: string)

  function NumericRules(field: string, given: Option<JsValue>): seq<Rule> {
    [ Rule(given.None? || IsInteger(given.value), IntegerMessage(field)),
      Rule(given.None? || (given.value.JsNumber? && given.value.n > 0.0), PositiveMessage(field)) ]
  }

  function Rules(raw: Option<RawOptions>): seq<Rule> {
    match raw
    case None => [Rule(false, RequiredMessage("name"))]
    case Some(o) =>
      [ Rule(Provided(o.name), RequiredMessage("name")),
        Rule(Provided(o.host), RequiredMessage("host")),
        Rule(Provided(o.groupId), RequiredMessage("groupId")),
        Rule(Provided(o.topic), RequiredMessage("topic")),
        Rule(ModeAllowed(o.mode), ModeMessage) ]
      + NumericRules("connectTimeout", o.connectTimeout)
      + NumericRules("intervalFetchMessage", o.intervalFetchMessage)
      + NumericRules("numMsgFetchPerTime", o.numMsgFetchPerTime)
  }

  /** The message of the first rule that does not hold, if any. */
  function FirstViolation(rules: seq<Rule>): (r: Option<string>)
    ensures r.None? <==> forall i :: 0 <= i < |rules| ==> rules[i].holds
    ensures r.Some? ==> exists i :: 0 <= i < |rules| && !rules[i].holds && rules[i].message == r.value
                                    && forall j :: 0 <= j < i ==> rules[j].holds
  {
    if rules == [] then None
    else if !rules[0].holds then Some(rules[0].message)
    else FirstViolation(rules[1..])
  }

  lemma {:induction false} FirstViolationAppend(a: seq<Rule>, b: seq<Rule>)
    ensures FirstViolation(a + b) == if FirstViolation(a).Some? then FirstViolation(a) else FirstViolation(b)
  {
    if a != [] {
      assert (a + b)[1..] == a[1..] + b;
      FirstViolationAppend(a[1..], b);
    } else {
      assert a + b == b;
    }
  }

  lemma FirstViolationCons(r: Rule, rest: seq<Rule>)
    ensures FirstViolation([r] + rest) == if r.holds then FirstViolation(rest) else Some(r.message)
  {
    assert ([r] + rest)[1..] == rest;
  }

  lemma NumericRulesAgree(field: string, given: Option<JsValue>, default: Positive)
    ensures CheckPositiveInt(field, given, default).Err? <==> FirstViolation(NumericRules(field, given)).Some?
    ensures CheckPositiveInt(field, given, default).Err? ==>
              CheckPositiveInt(field, given, default).error == FirstViolation(NumericRules(field, given)).value
  {
    var rules := NumericRules(field, given);
    assert rules[1..][1..] == [];
  }

  /**
   * Validation fails exactly when some rule is broken, and then with the
   * message of the first broken rule in the fixed order: name, host, groupId,
   * topic, mode, then connectTimeout, intervalFetchMessage and
   * numMsgFetchPerTime, each checked for being an integer before being
   * checked for being positive.
   */
  lemma ValidateReportsFirstViolation(raw: Option<RawOptions>)
    ensures Validate(raw).Err? <==> FirstViolation(Rules(raw)).Some?
    ensures Validate(raw).Err? ==> Validate(raw).error == FirstViolation(Rules(raw)).value
  {
    if raw.Some? {
      var o := raw.value;
      var r1 := NumericRules("connectTimeout", o.connectTimeout);
      var r2 := NumericRules("intervalFetchMessage", o.intervalFetchMessage);
      var r3 := NumericRules("numMsgFetchPerTime", o.numMsgFetchPerTime);
      var a := Rule(ModeAllowed(o.mode), ModeMessage);
      var b := Rule(Provided(o.topic), RequiredMessage("topic"));
      var c := Rule(Provided(o.groupId), RequiredMessage("groupId"));
      var d := Rule(Provided(o.host), RequiredMessage("host"));
      var e := Rule(Provided(o.name), RequiredMessage("name"));
      var numeric := r1 + r2 + r3;
      assert Rules(raw) == [e] + ([d] + ([c] + ([b] + ([a] + numeric))));
      FirstViolationCons(e, [d] + ([c] + ([b] + ([a] + numeric))));
      FirstViolationCons(d, [c] + ([b] + ([a] + numeric)));
      FirstViolationCons(c, [b] + ([a] + numeric));
      FirstViolationCons(b, [a] + numeric);
      FirstViolationCons(a, numeric);
      FirstViolationAppend(r1 + r2, r3);
      FirstViolationAppend(r1, r2);
      NumericRulesAgree("connectTimeout", o.connectTimeout, DefaultConnectTimeout);
      NumericRulesAgree("intervalFetchMessage", o.intervalFetchMessage, DefaultIntervalFetchMessage);
      NumericRulesAgree("numMsgFetchPerTime", o.numMsgFetchPerTime, DefaultNumMsgFetchPerTime);
    }
  }

  /** Only the four required options given: every other setting takes its default. */
  lemma ValidateRequiredOnly(name: string, host: string, groupId: string, topic: string, hasLogger: bool)
    requires name != "" && host != "" && groupId != "" && topic != ""
    ensures Validate(Some(RawOptions(Some(name), Some(host), Some(groupId), Some(topic),
                                     None, None, None, None, None, None, hasLogger)))
            == Ok(Options(name, host, groupId, topic, NonFlowing, 5000, 1, 10, None, None, hasLogger))
  {
  }

  /** A record with every field left undefined and no logger. */
  const NoOptions := RawOptions(None, None, None, None, None, None, None, None, None, None, false)

  /** The four required options, each given a non-empty value. */
  const RequiredOptions := NoOptions.(name := Some("name"), host := Some("host"), groupId := Some("groupId"), topic := Some("topic"))

  /** Required options missing one after another: each time the first missing one is named. */
  lemma MissingOptionScenarios()
    ensures Validate(None) == Err(RequiredMessage("name"))
    ensures Validate(Some(NoOptions)) == Err(RequiredMessage("name"))
    ensures Validate(Some(NoOptions.(name := Some("a")))) == Err(RequiredMessage("host"))
    ensures Validate(Some(NoOptions.(name := Some("name"), host := Some("host")))) == Err(RequiredMessage("groupId"))
    ensures Validate(Some(RequiredOptions.(topic := None))) == Err(RequiredMessage("topic"))
    ensures Validate(Some(RequiredOptions.(topic := Some("")))) == Err(RequiredMessage("topic"))
  {
  }

  /** An unknown mode, a non-number and a negative number, each refused with its own message. */
  lemma InvalidSettingScenarios()
    ensures Validate(Some(RequiredOptions.(mode := Some("abc")))) == Err(ModeMessage)
    ensures Validate(Some(RequiredOptions.(connectTimeout := Some(JsString("connectTimeout")))))
            == Err(IntegerMessage("connectTimeout"))
    ensures Validate(Some(RequiredOptions.(connectTimeout := Some(JsNumber(-1.0)))))
            == Err(PositiveMessage("connectTimeout"))
    ensures Validate(Some(RequiredOptions.(intervalFetchMessage := Some(JsString("string")))))
            == Err(IntegerMessage("intervalFetchMessage"))
    ensures Validate(Some(RequiredOptions.(intervalFetchMessage := Some(JsNumber(-1.0)))))
            == Err(PositiveMessage("intervalFetchMessage"))
    ensures Validate(Some(RequiredOptions.(numMsgFetchPerTime := Some(JsString("string")))))
            == Err(IntegerMessage("numMsgFetchPerTime"))
    ensures Validate(Some(RequiredOptions.(numMsgFetchPerTime := Some(JsNumber(-1.0)))))
            == Err(PositiveMessage("numMsgFetchPerTime"))
  {
  }
}
