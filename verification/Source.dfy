/** internal/app/source.go: compiled sources and what one message does to the store. */
module Sources {
  import opened Text
  import opened Library
  import opened Config
  import opened Labels
  import opened Payloads
  import opened Rules
  import opened SeriesStore

  datatype Message = Message(Topic: string, Payload: string)

  datatype CompiledSource = CompiledSource(
    name: string, subscribe: string, qos: uint8, brokerURL: string, lastUpdatedMetric: string,
    labels: LabelRules, rules: seq<CompiledRule>, prefix: string)

  // ------------------------------------------------------------------ ownership

  predicate IsWildcard(c: char) {
    c == '+' || c == '#'
  }

  /** The filter up to its first wildcard. */
  function TopicPrefix(filter: string): (p: string)
    ensures p <= filter
    ensures forall i :: 0 <= i < |p| ==> !IsWildcard(p[i])
    ensures |p| < |filter| ==> IsWildcard(filter[|p|])
  {
    if filter == "" || IsWildcard(filter[0]) then "" else [filter[0]] + TopicPrefix(filter[1..])
  }

  predicate Owns(prefix: string, topic: string) {
    |topic| >= |prefix| && topic[..|prefix|] == prefix
  }

  // ------------------------------------------------------------------- compiling

  datatype SourcesResult =
    | GoodSources(sources: seq<CompiledSource>)
    | BadSource(path: string, index: nat, error: CompileError)

  datatype RulesResult = GoodRules(rules: seq<CompiledRule>) | BadRuleAt(index: nat, error: CompileError)

  /** The rules compiled in order, up to the first that does not compile. */
  ghost function RulesForm(lib: Lib, s: Source, rules: seq<Rule>): RulesResult {
    if rules == [] then GoodRules([]) else
    var n := |rules| - 1;
    var before := RulesForm(lib, s, rules[..n]);
    if before.BadRuleAt? then before else
    match CompiledForm(lib, s, rules[n])
    case Bad(error) => BadRuleAt(n, error)
    case Good(rule) => GoodRules(before.rules + [rule])
  }

  ghost function SourceForm(c: Config, s: Source, rules: seq<CompiledRule>): CompiledSource
    requires c.MQTT.QoS.Some?
  {
    CompiledSource(s.Name, s.Subscribe, s.EffectiveQoS(c.MQTT.QoS.value), s.EffectiveBroker(c.MQTT.Broker),
                   s.LastUpdatedMetric, CompiledLabels(s.Labels), rules, TopicPrefix(s.Subscribe))
  }

  ghost function SourcesForm(lib: Lib, c: Config, sources: seq<Source>): SourcesResult
    requires c.MQTT.QoS.Some?
  {
    if sources == [] then GoodSources([]) else
    var n := |sources| - 1;
    var before := SourcesForm(lib, c, sources[..n]);
    if before.BadSource? then before else
    match RulesForm(lib, sources[n], sources[n].Rules)
    case BadRuleAt(i, error) => BadSource(sources[n].Path, i, error)
    case GoodRules(rules) => GoodSources(before.sources + [SourceForm(c, sources[n], rules)])
  }

  lemma {:induction false} FirstBadRuleStays(lib: Lib, s: Source, rules: seq<Rule>, n: nat)
    requires n <= |rules| && RulesForm(lib, s, rules[..n]).BadRuleAt?
    ensures RulesForm(lib, s, rules) == RulesForm(lib, s, rules[..n])
  {
    if n == |rules| {
      assert rules[..n] == rules;
    } else {
      assert rules[..|rules| - 1][..n] == rules[..n];
      FirstBadRuleStays(lib, s, rules[..|rules| - 1], n);
    }
  }

  lemma {:induction false} FirstBadSourceStays(lib: Lib, c: Config, sources: seq<Source>, n: nat)
    requires c.MQTT.QoS.Some? && n <= |sources| && SourcesForm(lib, c, sources[..n]).BadSource?
    ensures SourcesForm(lib, c, sources) == SourcesForm(lib, c, sources[..n])
  {
    if n == |sources| {
      assert sources[..n] == sources;
    } else {
      assert sources[..|sources| - 1][..n] == sources[..n];
      FirstBadSourceStays(lib, c, sources[..|sources| - 1], n);
    }
  }

  /** The inner loop of compileSources. */
  method CompileRules(lib: Lib, declared: Source) returns (r: RulesResult)
    ensures r == RulesForm(lib, declared, declared.Rules)
  {
    hide CompiledForm;
    var rules: seq<CompiledRule> := [];
    for i := 0 to |declared.Rules|
      invariant RulesForm(lib, declared, declared.Rules[..i]) == GoodRules(rules)
    {
      var compiled := Compile(lib, declared, declared.Rules[i]);
      assert declared.Rules[..i + 1][..i] == declared.Rules[..i];
      if compiled.Bad? {
        FirstBadRuleStays(lib, declared, declared.Rules, i + 1);
        return BadRuleAt(i, compiled.error);
      }
      rules := rules + [compiled.value];
    }
    assert declared.Rules[..|declared.Rules|] == declared.Rules;
    return GoodRules(rules);
  }

  /** Needs the global QoS, which the program dereferences. */
  method CompileSources(lib: Lib, c: Config) returns (r: SourcesResult)
    requires c.MQTT.QoS.Some?
    ensures r == SourcesForm(lib, c, c.SourceList)
  {
    hide RulesForm, CompiledLabels, AllDeclared;
    var out: seq<CompiledSource> := [];
    for i := 0 to |c.SourceList|
      invariant SourcesForm(lib, c, c.SourceList[..i]) == GoodSources(out)
    {
      var declared := c.SourceList[i];
      assert c.SourceList[..i + 1][..i] == c.SourceList[..i];
      var labels := CompileLabels(declared.Labels);
      var rules := CompileRules(lib, declared);
      if rules.BadRuleAt? {
        FirstBadSourceStays(lib, c, c.SourceList, i + 1);
        return BadSource(declared.Path, rules.index, rules.error);
      }
      out := out + [CompiledSource(
                      declared.Name, declared.Subscribe, declared.EffectiveQoS(c.MQTT.QoS.value),
                      declared.EffectiveBroker(c.MQTT.Broker), declared.LastUpdatedMetric,
                      labels, rules.rules, TopicPrefix(declared.Subscribe))];
    }
    assert c.SourceList[..|c.SourceList|] == c.SourceList;
    return GoodSources(out);
  }

  // -------------------------------------------------------------------- applying

  function KindOf(rule: CompiledRule): Kind {
    if rule.Counter then Counter else Gauge
  }

  /** The Set calls, the reported errors, and whether a rule matched. */
  datatype Effect = Effect(writes: seq<Write>, problems: seq<RuleError>, matched: bool)

  ghost predicate ReadyRules(rules: seq<CompiledRule>) {
    forall i :: 0 <= i < |rules| ==> HasGroup(rules[i].value)
  }

  ghost predicate Ready(s: CompiledSource) {
    ReadyRules(s.rules) && AllDeclared(s.labels)
  }

  ghost predicate AllReady(sources: seq<CompiledSource>) {
    forall i :: 0 <= i < |sources| ==> Ready(sources[i])
  }

  /** One rule, evaluated on a payload of its own. */
  function RuleEffect(lib: Lib, r: CompiledRule, now: real, msg: Message): Effect
    requires HasGroup(r.value)
  {
    match Evaluate(lib, r, msg.Topic, msg.Payload)
    case NoMatch => Effect([], [], false)
    case Failed(e) => Effect([], [e], true)
    case Skipped => Effect([], [], true)
    case Produced(labels, value) =>
      var sample := Write(r.MetricName, KindOf(r), r.Help, labels, value);
      var heartbeat := Write(r.LastUpdatedMetric, Gauge, HEARTBEAT_HELP, labels, now);
      Effect(if r.LastUpdatedMetric == "" then [sample] else [sample, heartbeat], [], true)
  }

  function Then(a: Effect, b: Effect): Effect {
    Effect(a.writes + b.writes, a.problems + b.problems, a.matched || b.matched)
  }

  /** All rules, each on its own, in order. */
  function RulesEffect(lib: Lib, rules: seq<CompiledRule>, now: real, msg: Message): Effect
    requires ReadyRules(rules)
  {
    if rules == [] then Effect([], [], false) else
    var n := |rules| - 1;
    Then(RulesEffect(lib, rules[..n], now, msg), RuleEffect(lib, rules[n], now, msg))
  }

  /** The source's own heartbeat. */
  function HeartbeatEffect(lib: Lib, s: CompiledSource, now: real, body: string): (e: Effect)
    ensures !e.matched && (s.lastUpdatedMetric == "" ==> e.writes == [] && e.problems == [])
  {
    if s.lastUpdatedMetric == "" then Effect([], [], false) else
    var labels := ResolvedLabels(lib, s.labels.extractors, s.labels.names, map[], body);
    if labels.Err? then Effect([], [labels.error], false)
    else if labels.value.None? then Effect([], [], false)
    else Effect([Write(s.lastUpdatedMetric, Gauge, HEARTBEAT_HELP, labels.value.value, now)], [], false)
  }

  function SourceEffect(lib: Lib, s: CompiledSource, now: real, msg: Message): Effect
    requires Ready(s)
  {
    var rules := RulesEffect(lib, s.rules, now, msg);
    if rules.matched then Then(rules, HeartbeatEffect(lib, s, now, msg.Payload)) else rules
  }

  /** The Set calls for a produced sample. */
  method Record(samples: Store, r: CompiledRule, labels: map<string, string>, value: real, now: real)
    requires samples.Valid()
    modifies samples`series, samples.series.Values
    ensures samples.Valid() && fresh(samples.series.Values - old(samples.series.Values))
    ensures samples.Model() ==
            PutFrom(samples.round, old(samples.Model()),
                    if r.LastUpdatedMetric == "" then [Write(r.MetricName, KindOf(r), r.Help, labels, value)]
                    else [Write(r.MetricName, KindOf(r), r.Help, labels, value),
                          Write(r.LastUpdatedMetric, Gauge, HEARTBEAT_HELP, labels, now)])
  {
    hide Put, WellKeyed;
    ghost var m := samples.Model();
    ghost var sample := Write(r.MetricName, KindOf(r), r.Help, labels, value);
    ghost var heartbeat := Write(r.LastUpdatedMetric, Gauge, HEARTBEAT_HELP, labels, now);
    PutOne(samples.round, m, sample);
    samples.Set(r.MetricName, KindOf(r), r.Help, labels, value);
    if r.LastUpdatedMetric != "" {
      PutOne(samples.round, samples.Model(), heartbeat);
      PutFromConcat(samples.round, m, [sample], [heartbeat]);
      assert [sample] + [heartbeat] == [sample, heartbeat];
      samples.Set(r.LastUpdatedMetric, Gauge, HEARTBEAT_HELP, labels, now);
    }
  }

  lemma PutOne(round: real -> real, m: Contents, w: Write)
    ensures PutFrom(round, m, [w]) == Put(round, m, w)
  {
    hide Put;
    assert [w][..0] == [];
    assert PutFrom(round, m, []) == m;
  }

  /** The body of the rule loop of apply. */
  method ApplyRule(lib: Lib, r: CompiledRule, samples: Store, now: real, topic: string, payload: Payload)
    returns (o: Outcome)
    requires samples.Valid() && payload.Valid(lib) && HasGroup(r.value)
    modifies samples`series, samples.series.Values, payload
    ensures samples.Valid() && fresh(samples.series.Values - old(samples.series.Values)) && payload.Valid(lib)
    ensures o == Evaluate(lib, r, topic, payload.raw)
    ensures samples.Model() ==
            PutFrom(samples.round, old(samples.Model()), RuleEffect(lib, r, now, Message(topic, payload.raw)).writes)
  {
    hide Put, WellKeyed, Evaluate;
    o := Rules.Apply(lib, r, topic, payload);
    if o.Produced? {
      Record(samples, r, o.labels, o.value, now);
    }
  }

  /** The rule loop of apply. */
  method ApplyRules(lib: Lib, rules: seq<CompiledRule>, samples: Store, now: real, topic: string, payload: Payload)
    returns (problems: seq<RuleError>, matched: bool)
    requires samples.Valid() && payload.Valid(lib) && ReadyRules(rules)
    modifies samples`series, samples.series.Values, payload
    ensures samples.Valid() && fresh(samples.series.Values - old(samples.series.Values)) && payload.Valid(lib)
    ensures problems == RulesEffect(lib, rules, now, Message(topic, payload.raw)).problems
    ensures matched == RulesEffect(lib, rules, now, Message(topic, payload.raw)).matched
    ensures samples.Model() ==
            PutFrom(samples.round, old(samples.Model()),
                    RulesEffect(lib, rules, now, Message(topic, payload.raw)).writes)
  {
    hide Put, WellKeyed, Evaluate;
    ghost var start, round, msg := samples.Model(), samples.round, Message(topic, payload.raw);
    problems, matched := [], false;
    for i := 0 to |rules|
      invariant samples.Valid() && fresh(samples.series.Values - old(samples.series.Values)) && payload.Valid(lib)
      invariant problems == RulesEffect(lib, rules[..i], now, msg).problems
      invariant matched == RulesEffect(lib, rules[..i], now, msg).matched
      invariant samples.Model() == PutFrom(round, start, RulesEffect(lib, rules[..i], now, msg).writes)
    {
      ghost var done, next := RulesEffect(lib, rules[..i], now, msg), RuleEffect(lib, rules[i], now, msg);
      PutFromConcat(round, start, done.writes, next.writes);
      assert rules[..i + 1][..i] == rules[..i];
      var o := ApplyRule(lib, rules[i], samples, now, topic, payload);
      if !o.NoMatch? {
        matched := true;
        if o.Failed? {
          problems := problems + [o.error];
        }
      }
    }
    assert rules[..|rules|] == rules;
  }

  method Apply(lib: Lib, s: CompiledSource, samples: Store, now: real, msg: Message)
    returns (problems: seq<RuleError>, matched: bool)
    requires samples.Valid() && Ready(s)
    modifies samples`series, samples.series.Values
    ensures samples.Valid() && fresh(samples.series.Values - old(samples.series.Values))
    ensures problems == SourceEffect(lib, s, now, msg).problems
    ensures matched == SourceEffect(lib, s, now, msg).matched
    ensures samples.Model() == PutFrom(samples.round, old(samples.Model()), SourceEffect(lib, s, now, msg).writes)
  {
    hide Put, WellKeyed, RulesEffect, HeartbeatEffect;
    ghost var start := samples.Model();
    var payload := new Payload(msg.Payload);
    problems, matched := ApplyRules(lib, s.rules, samples, now, msg.Topic, payload);
    ghost var done := RulesEffect(lib, s.rules, now, msg);
    if matched && s.lastUpdatedMetric != "" {
      PutFromConcat(samples.round, start, done.writes, HeartbeatEffect(lib, s, now, msg.Payload).writes);
      var more := ApplyHeartbeat(lib, s, samples, now, payload);
      problems := problems + more;
    } else {
      assert done.writes + [] == done.writes && done.problems + [] == done.problems;
    }
  }

  /** The source heartbeat at the end of apply. */
  method ApplyHeartbeat(lib: Lib, s: CompiledSource, samples: Store, now: real, payload: Payload)
    returns (problems: seq<RuleError>)
    requires samples.Valid() && payload.Valid(lib) && AllDeclared(s.labels) && s.lastUpdatedMetric != ""
    modifies samples`series, samples.series.Values, payload
    ensures samples.Valid() && fresh(samples.series.Values - old(samples.series.Values))
    ensures problems == HeartbeatEffect(lib, s, now, payload.raw).problems
    ensures samples.Model() ==
            PutFrom(samples.round, old(samples.Model()), HeartbeatEffect(lib, s, now, payload.raw).writes)
  {
    hide Put, WellKeyed, ResolvedLabels;
    var labels := ResolveAll(lib, s.labels, map[], payload);
    if labels.Err? {
      return [labels.error];
    }
    if labels.value.Some? {
      ghost var heartbeat := Write(s.lastUpdatedMetric, Gauge, HEARTBEAT_HELP, labels.value.value, now);
      PutOne(samples.round, samples.Model(), heartbeat);
      samples.Set(s.lastUpdatedMetric, Gauge, HEARTBEAT_HELP, labels.value.value, now);
    }
    return [];
  }

  /** Rules do not influence each other: a split of the list splits the effect. */
  lemma {:induction false} EffectOfConcat(lib: Lib, a: seq<CompiledRule>, b: seq<CompiledRule>, now: real, msg: Message)
    requires ReadyRules(a) && ReadyRules(b)
    ensures ReadyRules(a + b)
    ensures RulesEffect(lib, a + b, now, msg) == Then(RulesEffect(lib, a, now, msg), RulesEffect(lib, b, now, msg))
  {
    hide RuleEffect, HasGroup, Then;
    var x := RulesEffect(lib, a, now, msg);
    if b == [] {
      assert a + b == a;
      ThenNothing(x);
    } else {
      var n := |b| - 1;
      EffectOfConcat(lib, a, b[..n], now, msg);
      assert (a + b)[..|a + b| - 1] == a + b[..n] && (a + b)[|a + b| - 1] == b[n];
      ThenIsAssociative(x, RulesEffect(lib, b[..n], now, msg), RuleEffect(lib, b[n], now, msg));
    }
  }

  lemma ThenNothing(a: Effect)
    ensures Then(a, Effect([], [], false)) == a
  {}

  lemma ThenIsAssociative(a: Effect, b: Effect, c: Effect)
    ensures Then(Then(a, b), c) == Then(a, Then(b, c))
  {}

  /** Taking one rule away takes away its own writes and problems, nothing else,
      whatever that rule did. */
  lemma RemovingARule(lib: Lib, rules: seq<CompiledRule>, k: nat, now: real, msg: Message)
    requires ReadyRules(rules) && k < |rules|
    ensures var before, after := RulesEffect(lib, rules[..k], now, msg), RulesEffect(lib, rules[k + 1..], now, msg);
            && RulesEffect(lib, rules, now, msg) == Then(Then(before, RuleEffect(lib, rules[k], now, msg)), after)
            && ReadyRules(rules[..k] + rules[k + 1..])
            && RulesEffect(lib, rules[..k] + rules[k + 1..], now, msg) == Then(before, after)
  {
    hide RuleEffect;
    EffectOfConcat(lib, rules[..k], rules[k + 1..], now, msg);
    EffectOfConcat(lib, rules[..k + 1], rules[k + 1..], now, msg);
    assert rules[..k + 1] + rules[k + 1..] == rules;
    assert rules[..k + 1][..k] == rules[..k];
  }

  // ---------------------------------------------------------------- metric names

  function MetricNamesOf(s: CompiledSource, rules: seq<CompiledRule>): seq<string> {
    if rules == [] then [] else
    var n := |rules| - 1;
    MetricNamesOf(s, rules[..n]) + [rules[n].MetricName] +
    if rules[n].LastUpdatedMetric == "" then [] else [rules[n].LastUpdatedMetric]
  }

  function AllMetricNames(s: CompiledSource): seq<string> {
    MetricNamesOf(s, s.rules) + if s.lastUpdatedMetric == "" then [] else [s.lastUpdatedMetric]
  }

  method MetricNames(s: CompiledSource) returns (names: seq<string>)
    ensures names == AllMetricNames(s)
  {
    names := [];
    for i := 0 to |s.rules|
      invariant names == MetricNamesOf(s, s.rules[..i])
    {
      assert s.rules[..i + 1][..i] == s.rules[..i];
      names := names + [s.rules[i].MetricName];
      if s.rules[i].LastUpdatedMetric != "" {
        names := names + [s.rules[i].LastUpdatedMetric];
      }
    }
    assert s.rules[..|s.rules|] == s.rules;
    if s.lastUpdatedMetric != "" {
      names := names + [s.lastUpdatedMetric];
    }
  }

  /** The metric names are read off the rules one by one, in order. */
  lemma {:induction false} MetricNamesInOrder(s: CompiledSource, a: seq<CompiledRule>, b: seq<CompiledRule>)
    ensures MetricNamesOf(s, a + b) == MetricNamesOf(s, a) + MetricNamesOf(s, b)
  {
    if b == [] {
      assert a + b == a;
    } else {
      var n := |b| - 1;
      MetricNamesInOrder(s, a, b[..n]);
      assert (a + b)[..|a + b| - 1] == a + b[..n] && (a + b)[|a + b| - 1] == b[n];
      var last := if b[n].LastUpdatedMetric == "" then [] else [b[n].LastUpdatedMetric];
      GroupLeft(MetricNamesOf(s, a), MetricNamesOf(s, b[..n]), [b[n].MetricName]);
      GroupLeft(MetricNamesOf(s, a), MetricNamesOf(s, b[..n]) + [b[n].MetricName], last);
    }
  }

  /** A metric name of the source is that of a rule, of a rule's heartbeat or of the
      source's own heartbeat. */
  lemma MetricNamesExactly(s: CompiledSource, name: string)
    ensures name in AllMetricNames(s) <==>
            || (exists k :: 0 <= k < |s.rules| && s.rules[k].MetricName == name)
            || (exists k :: 0 <= k < |s.rules| && s.rules[k].LastUpdatedMetric == name && name != "")
            || (s.lastUpdatedMetric == name && name != "")
  {
    RuleMetricNames(s, s.rules, name);
  }

  lemma {:induction false} RuleMetricNames(s: CompiledSource, rules: seq<CompiledRule>, name: string)
    ensures name in MetricNamesOf(s, rules) <==>
            || (exists k :: 0 <= k < |rules| && rules[k].MetricName == name)
            || (exists k :: 0 <= k < |rules| && rules[k].LastUpdatedMetric == name && name != "")
  {
    if rules != [] {
      var n := |rules| - 1;
      RuleMetricNames(s, rules[..n], name);
      assert forall k :: 0 <= k < n ==> rules[..n][k] == rules[k];
    }
  }

  lemma {:induction false} RulesWriteTheirMetrics(lib: Lib, s: CompiledSource, rules: seq<CompiledRule>, now: real,
      msg: Message)
    requires ReadyRules(rules)
    ensures forall w :: w in RulesEffect(lib, rules, now, msg).writes ==> w.name in MetricNamesOf(s, rules)
  {
    hide Evaluate;
    if rules != [] { RulesWriteTheirMetrics(lib, s, rules[..|rules| - 1], now, msg); }
  }

  /** A source writes none but its metric names. */
  lemma SourceWritesItsMetrics(lib: Lib, s: CompiledSource, now: real, msg: Message)
    requires Ready(s)
    ensures forall w :: w in SourceEffect(lib, s, now, msg).writes ==> w.name in AllMetricNames(s)
  {
    RulesWriteTheirMetrics(lib, s, s.rules, now, msg);
  }

  // --------------------------------------------------------------------- reasons

  datatype Reason = JsonReason | RegexReason | NotNumericReason | OtherReason

  /** reasonOf: the first sentinel found in the chain of wrapped errors. */
  function ReasonOf(e: RuleError): Reason {
    match e
    case BadJSON => JsonReason
    case RegexNoMatch => RegexReason
    case NotNumeric => NotNumericReason
    case NotALabel => OtherReason
    case InLabel(_, cause) => ReasonOf(cause)
  }
}
