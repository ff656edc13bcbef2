/** What a source is and does, from its declaration: how it compiles, what a message
    makes it write, and which values the writes carry. */
module SourceLaws {
  import opened Text
  import opened Library
  import opened Config
  import opened Labels
  import opened Payloads
  import opened Rules
  import opened RuleLaws
  import opened SeriesStore
  import opened StoreLaws
  import opened Sources

  // ------------------------------------------------------------------ compiling

  /** The declared source, field by field. A source's own quality of service and
      broker go before the global ones. */
  lemma SourceFields(c: Config, s: Source, rules: seq<CompiledRule>)
    requires c.MQTT.QoS.Some?
    ensures var cs := SourceForm(c, s, rules);
            && cs.name == s.Name && cs.subscribe == s.Subscribe && cs.rules == rules
            && cs.lastUpdatedMetric == s.LastUpdatedMetric && cs.prefix == TopicPrefix(s.Subscribe)
            && (s.QoS.Some? ==> cs.qos == s.QoS.value) && (s.QoS.None? ==> cs.qos == c.MQTT.QoS.value)
            && (s.Broker != "" ==> cs.brokerURL == s.Broker) && (s.Broker == "" ==> cs.brokerURL == c.MQTT.Broker)
            && Elements(cs.labels.names) == s.Labels.Keys == cs.labels.extractors.Keys
            && InOrder(cs.labels.names)
            && forall name :: name in s.Labels ==> cs.labels.extractors[name] == NewLabelExtractor(s.Labels[name])
  {
    hide InOrder;
    SortedSeqInOrder(s.Labels.Keys);
  }

  /** Both expressions of the rule are valid. */
  ghost predicate Compiles(lib: Lib, r: Rule) {
    lib.compile(r.Match).Some? && (r.Value.Regex != "" ==> lib.compile(r.Value.Regex).Some?)
  }

  /** Rules compile up to the first that does not, which is reported with its place. */
  lemma {:induction false} RulesCompileInOrder(lib: Lib, s: Source, rules: seq<Rule>)
    ensures match RulesForm(lib, s, rules)
            case GoodRules(compiled) =>
              && |compiled| == |rules|
              && forall k :: 0 <= k < |rules| ==>
                   Compiles(lib, rules[k]) && CompiledForm(lib, s, rules[k]) == Good(compiled[k])
            case BadRuleAt(k, error) =>
              && k < |rules| && !Compiles(lib, rules[k]) && (forall j :: 0 <= j < k ==> Compiles(lib, rules[j]))
              && error == if lib.compile(rules[k].Match).None? then BadMatchRegexp else BadValueRegexp
  {
    hide CompiledForm;
    if rules != [] {
      var n := |rules| - 1;
      RulesCompileInOrder(lib, s, rules[..n]);
      CompiledFields(lib, s, rules[n]);
    }
  }

  ghost predicate AllCompile(lib: Lib, s: Source) {
    forall k :: 0 <= k < |s.Rules| ==> Compiles(lib, s.Rules[k])
  }

  /** The rules of the source compile up to rule `k`, which fails with that error. */
  ghost predicate FailsAt(lib: Lib, s: Source, k: nat, error: CompileError) {
    && k < |s.Rules| && !Compiles(lib, s.Rules[k]) && (forall j :: 0 <= j < k ==> Compiles(lib, s.Rules[j]))
    && error == if lib.compile(s.Rules[k].Match).None? then BadMatchRegexp else BadValueRegexp
  }

  ghost predicate FirstToFail(lib: Lib, sources: seq<Source>, i: nat) {
    i < |sources| && !AllCompile(lib, sources[i]) && forall j :: 0 <= j < i ==> AllCompile(lib, sources[j])
  }

  /** Sources compile up to the first rule that does not, reported with the path of
      its file. */
  lemma {:induction false} SourcesCompileInOrder(lib: Lib, c: Config, sources: seq<Source>)
    requires c.MQTT.QoS.Some?
    ensures var r := SourcesForm(lib, c, sources);
            if r.GoodSources? then
              && |r.sources| == |sources|
              && forall i :: 0 <= i < |sources| ==>
                   && AllCompile(lib, sources[i]) && r.sources[i] == SourceForm(c, sources[i], r.sources[i].rules)
                   && RulesForm(lib, sources[i], sources[i].Rules) == GoodRules(r.sources[i].rules)
            else
              exists i: nat :: FirstToFail(lib, sources, i) && r.path == sources[i].Path &&
                FailsAt(lib, sources[i], r.index, r.error)
  {
    hide RulesForm, CompiledLabels, AllCompile, FailsAt;
    if sources != [] {
      var n := |sources| - 1;
      SourcesCompileInOrder(lib, c, sources[..n]);
      SourceCompiles(lib, sources[n]);
      assert forall i :: 0 <= i < n ==> sources[..n][i] == sources[i];
      forall i: nat | FirstToFail(lib, sources[..n], i) ensures FirstToFail(lib, sources, i) {}
    }
  }

  lemma SourceCompiles(lib: Lib, s: Source)
    ensures var r := RulesForm(lib, s, s.Rules);
            if r.GoodRules? then AllCompile(lib, s) else !AllCompile(lib, s) && FailsAt(lib, s, r.index, r.error)
  {
    hide RulesForm, Compiles;
    RulesCompileInOrder(lib, s, s.Rules);
  }

  // --------------------------------------------------------------------- effects

  /** What a declared rule does for a message: a sample carries the number read, its
      heartbeat the time, both with the sample's labels. */
  lemma RuleDoes(lib: Lib, src: Source, rule: Rule, now: real, msg: Message)
    requires CompiledForm(lib, src, rule).Good? && HasGroup(CompiledForm(lib, src, rule).value.value)
    ensures var cr := CompiledForm(lib, src, rule).value;
            var e, o := RuleEffect(lib, cr, now, msg), Evaluate(lib, cr, msg.Topic, msg.Payload);
            && (e.matched <==> lib.compile(rule.Match).value.find(msg.Topic).Some?)
            && e.problems == (if o.Failed? then [o.error] else [])
            && (!o.Produced? ==> e.writes == [])
            && (o.Produced? ==>
                  var kind := if rule.Type == TYPE_COUNTER then Counter else Gauge;
                  var sample := Write(rule.MetricName, kind, rule.Help, o.labels, o.value);
                  var heartbeat := Write(rule.LastUpdatedMetric, Gauge, HEARTBEAT_HELP, o.labels, now);
                  && Extracted(lib, NewExtractor(lib, rule.Value).value, msg.Payload) == Ok(Some(o.value))
                  && e.writes == if rule.LastUpdatedMetric == "" then [sample] else [sample, heartbeat])
  {
    hide CompiledForm, Extracted;
    CompiledFields(lib, src, rule);
    OutcomeOf(lib, CompiledForm(lib, src, rule).value, msg.Topic, msg.Payload);
  }

  lemma {:induction false} SomeRuleMatches(lib: Lib, rules: seq<CompiledRule>, now: real, msg: Message)
    requires ReadyRules(rules)
    ensures RulesEffect(lib, rules, now, msg).matched <==>
            exists k :: 0 <= k < |rules| && rules[k].re.find(msg.Topic).Some?
  {
    hide Extracted, ResolvedLabels, Captured;
    if rules != [] {
      var n := |rules| - 1;
      SomeRuleMatches(lib, rules[..n], now, msg);
      assert rules == rules[..n] + [rules[n]];
      if k :| 0 <= k < |rules| && rules[k].re.find(msg.Topic).Some? { assert k < n ==> rules[..n][k] == rules[k]; }
      if k :| 0 <= k < n && rules[..n][k].re.find(msg.Topic).Some? { assert rules[k] == rules[..n][k]; }
    }
  }

  /** What a source does beyond its rules: once some rule matched, its own heartbeat,
      with the source's labels and the time, or their error. */
  lemma SourceDoes(lib: Lib, s: CompiledSource, now: real, msg: Message)
    requires Ready(s)
    ensures var e, rules := SourceEffect(lib, s, now, msg), RulesEffect(lib, s.rules, now, msg);
            var hit := exists k :: 0 <= k < |s.rules| && s.rules[k].re.find(msg.Topic).Some?;
            var due := hit && s.lastUpdatedMetric != "";
            var labels := ResolvedLabels(lib, s.labels.extractors, s.labels.names, map[], msg.Payload);
            && e.matched == hit
            && e.problems == rules.problems + (if due && labels.Err? then [labels.error] else [])
            && e.writes == rules.writes +
                 if due && labels.Ok? && labels.value.Some? then
                   [Write(s.lastUpdatedMetric, Gauge, HEARTBEAT_HELP, labels.value.value, now)]
                 else []
  {
    hide RulesEffect, ResolvedLabels, ReadyRules;
    SomeRuleMatches(lib, s.rules, now, msg);
    var rules := RulesEffect(lib, s.rules, now, msg);
    assert rules.writes + [] == rules.writes && rules.problems + [] == rules.problems;
  }

  // ------------------------------------------------------------ the values written

  /** The rule turned the message into this sample. */
  ghost predicate SampleOfRule(lib: Lib, r: CompiledRule, msg: Message, w: Write)
    requires HasGroup(r.value)
  {
    && Evaluate(lib, r, msg.Topic, msg.Payload) == Produced(w.labels, w.value)
    && Extracted(lib, r.value, msg.Payload) == Ok(Some(w.value))
    && w.name == r.MetricName && w.help == r.Help && (w.kind == Counter <==> r.Counter)
  }

  ghost predicate SampleOfSome(lib: Lib, rules: seq<CompiledRule>, msg: Message, w: Write)
    requires ReadyRules(rules)
  {
    exists k :: 0 <= k < |rules| && SampleOfRule(lib, rules[k], msg, w)
  }

  /** A heartbeat: the time, under a heartbeat name. */
  ghost predicate Heartbeat(s: CompiledSource, now: real, w: Write) {
    && w.kind == Gauge && w.help == HEARTBEAT_HELP && w.value == now
    && (w.name == s.lastUpdatedMetric || exists k :: 0 <= k < |s.rules| && w.name == s.rules[k].LastUpdatedMetric)
  }

  lemma {:induction false} RulesWriteSamplesOrHeartbeats(lib: Lib, s: CompiledSource, n: nat, now: real, msg: Message,
      w: Write)
    requires ReadyRules(s.rules) && n <= |s.rules| && w in RulesEffect(lib, s.rules[..n], now, msg).writes
    ensures SampleOfSome(lib, s.rules, msg, w) || Heartbeat(s, now, w)
  {
    hide RuleEffect, SampleOfRule, Heartbeat;
    if n > 0 {
      assert s.rules[..n][..n - 1] == s.rules[..n - 1];
      if w in RulesEffect(lib, s.rules[..n - 1], now, msg).writes {
        RulesWriteSamplesOrHeartbeats(lib, s, n - 1, now, msg, w);
      } else {
        RuleWritesSampleOrHeartbeat(lib, s, n - 1, now, msg, w);
      }
    }
  }

  lemma RuleWritesSampleOrHeartbeat(lib: Lib, s: CompiledSource, k: nat, now: real, msg: Message, w: Write)
    requires k < |s.rules| && HasGroup(s.rules[k].value) && w in RuleEffect(lib, s.rules[k], now, msg).writes
    ensures SampleOfRule(lib, s.rules[k], msg, w) || Heartbeat(s, now, w)
  {
    hide Evaluate, Extracted;
    var r, o := s.rules[k], Evaluate(lib, s.rules[k], msg.Topic, msg.Payload);
    OutcomeOf(lib, r, msg.Topic, msg.Payload);
    var value := Extracted(lib, r.value, msg.Payload);
    assert o.Produced? && value.Ok? && value.value.Some? && value.value.value == o.value;
    if w == Write(r.MetricName, KindOf(r), r.Help, o.labels, o.value) {
      assert SampleOfRule(lib, r, msg, w);
    } else {
      assert w.name == s.rules[k].LastUpdatedMetric;
    }
  }

  /** Every write of a source is a sample with the number its rule read, or a
      heartbeat with the time of the message. */
  lemma WritesAreSamplesOrHeartbeats(lib: Lib, s: CompiledSource, now: real, msg: Message, w: Write)
    requires Ready(s) && w in SourceEffect(lib, s, now, msg).writes
    ensures SampleOfSome(lib, s.rules, msg, w) || Heartbeat(s, now, w)
  {
    hide RulesEffect, ResolvedLabels, SampleOfSome;
    SourceDoes(lib, s, now, msg);
    assert s.rules[..|s.rules|] == s.rules;
    if w in RulesEffect(lib, s.rules, now, msg).writes {
      RulesWriteSamplesOrHeartbeats(lib, s, |s.rules|, now, msg, w);
    }
  }

  // ----------------------------------------------------- the store after a message

  /** A write that no later one of the list covers is what the series holds after. */
  lemma {:induction false} LastWriteStays(round: real -> real, m: Contents, ws: seq<Write>, j: nat)
    requires j < |ws| && forall i :: j < i < |ws| ==> WriteId(ws[i]) != WriteId(ws[j])
    ensures WriteId(ws[j]) in PutFrom(round, m, ws)
    ensures var e := PutFrom(round, m, ws)[WriteId(ws[j])];
            e.last == ws[j].value && e.kind == ws[j].kind && e.help == ws[j].help && e.seen
  {
    hide IdOf, NewEntry;
    if j < |ws| - 1 { LastWriteStays(round, m, ws[..|ws| - 1], j); }
  }

  /** The series was never a counter. */
  ghost predicate GaugeSoFar(m: Contents, id: string) {
    id in m ==> m[id].offset == 0.0
  }

  lemma {:induction false} GaugeStaysPlain(round: real -> real, m: Contents, ws: seq<Write>, id: string)
    requires GaugeSoFar(m, id) && forall i :: 0 <= i < |ws| && WriteId(ws[i]) == id ==> ws[i].kind == Gauge
    ensures GaugeSoFar(PutFrom(round, m, ws), id)
  {
    hide IdOf;
    if ws != [] { GaugeStaysPlain(round, m, ws[..|ws| - 1], id); }
  }

  /** A gauge shows what the message wrote to it last. */
  lemma GaugeShows(round: real -> real, m: Contents, ws: seq<Write>, j: nat)
    requires j < |ws| && forall i :: j < i < |ws| ==> WriteId(ws[i]) != WriteId(ws[j])
    requires GaugeSoFar(m, WriteId(ws[j]))
    requires forall i :: 0 <= i < |ws| && WriteId(ws[i]) == WriteId(ws[j]) ==> ws[i].kind == Gauge
    ensures WriteId(ws[j]) in PutFrom(round, m, ws)
    ensures Exported(round, PutFrom(round, m, ws)[WriteId(ws[j])]) == round(ws[j].value)
  {
    hide WriteId, PutFrom;
    LastWriteStays(round, m, ws, j);
    GaugeStaysPlain(round, m, ws, WriteId(ws[j]));
    assert ws[j].value + 0.0 == ws[j].value;
  }

  /** The place of a rule's sample among the writes of a message, followed by its
      heartbeat. */
  lemma SampleIsWritten(lib: Lib, s: CompiledSource, now: real, msg: Message, k: nat) returns (j: nat)
    requires Ready(s) && k < |s.rules| && Evaluate(lib, s.rules[k], msg.Topic, msg.Payload).Produced?
    ensures var r, o, ws := s.rules[k], Evaluate(lib, s.rules[k], msg.Topic, msg.Payload),
                            SourceEffect(lib, s, now, msg).writes;
            && j < |ws| && ws[j] == Write(r.MetricName, KindOf(r), r.Help, o.labels, o.value)
            && (r.LastUpdatedMetric != "" ==>
                  j + 1 < |ws| && ws[j + 1] == Write(r.LastUpdatedMetric, Gauge, HEARTBEAT_HELP, o.labels, now))
  {
    hide Evaluate, HeartbeatEffect, HasGroup;
    RemovingARule(lib, s.rules, k, now, msg);
    j := |RulesEffect(lib, s.rules[..k], now, msg).writes|;
  }

  /** After a message that a rule turns into a sample, the rule's heartbeat with the
      sample's labels shows the time, unless a later write of the message covers it. */
  lemma HeartbeatShowsTheTime(lib: Lib, s: CompiledSource, now: real, msg: Message, k: nat, m: Contents)
    returns (j: nat)
    requires Ready(s) && k < |s.rules| && Evaluate(lib, s.rules[k], msg.Topic, msg.Payload).Produced?
    requires s.rules[k].LastUpdatedMetric != ""
    ensures var ws := SourceEffect(lib, s, now, msg).writes;
            var id := IdOf(s.rules[k].LastUpdatedMetric, Evaluate(lib, s.rules[k], msg.Topic, msg.Payload).labels);
            && j < |ws| && WriteId(ws[j]) == id
            && ((forall i :: j < i < |ws| ==> WriteId(ws[i]) != id) ==>
                  && id in PutFrom(lib.round, m, ws) && PutFrom(lib.round, m, ws)[id].last == now
                  && (GaugeSoFar(m, id) ==>
                        (forall i :: 0 <= i < |ws| && WriteId(ws[i]) == id ==> ws[i].kind == Gauge) ==>
                        Exported(lib.round, PutFrom(lib.round, m, ws)[id]) == lib.round(now)))
  {
    hide Evaluate, SourceEffect, PutFrom, IdOf, Exported, HasGroup, ReadyRules;
    j := SampleIsWritten(lib, s, now, msg, k);
    j := j + 1;
    var ws := SourceEffect(lib, s, now, msg).writes;
    if forall i :: j < i < |ws| ==> WriteId(ws[i]) != WriteId(ws[j]) {
      LastWriteStays(lib.round, m, ws, j);
      if GaugeSoFar(m, WriteId(ws[j])) &&
         forall i :: 0 <= i < |ws| && WriteId(ws[i]) == WriteId(ws[j]) ==> ws[i].kind == Gauge {
        GaugeShows(lib.round, m, ws, j);
      }
    }
  }

  /** And its metric with those labels has received the number read. */
  lemma SeriesReceivesTheReading(lib: Lib, s: CompiledSource, now: real, msg: Message, k: nat, m: Contents)
    returns (j: nat)
    requires Ready(s) && k < |s.rules| && Evaluate(lib, s.rules[k], msg.Topic, msg.Payload).Produced?
    ensures var ws := SourceEffect(lib, s, now, msg).writes;
            var o := Evaluate(lib, s.rules[k], msg.Topic, msg.Payload);
            var id := IdOf(s.rules[k].MetricName, o.labels);
            && Extracted(lib, s.rules[k].value, msg.Payload) == Ok(Some(o.value))
            && j < |ws| && WriteId(ws[j]) == id
            && ((forall i :: j < i < |ws| ==> WriteId(ws[i]) != id) ==>
                  id in PutFrom(lib.round, m, ws) && PutFrom(lib.round, m, ws)[id].last == o.value)
  {
    assert HasGroup(s.rules[k].value);
    hide Evaluate, SourceEffect, PutFrom, IdOf, HasGroup, ReadyRules, Extracted;
    SampleHasTheReading(lib, s.rules[k], msg.Topic, msg.Payload);
    j := SampleIsWritten(lib, s, now, msg, k);
    var ws := SourceEffect(lib, s, now, msg).writes;
    if forall i :: j < i < |ws| ==> WriteId(ws[i]) != WriteId(ws[j]) { LastWriteStays(lib.round, m, ws, j); }
  }

  lemma SampleHasTheReading(lib: Lib, r: CompiledRule, topic: string, body: string)
    requires HasGroup(r.value) && Evaluate(lib, r, topic, body).Produced?
    ensures Extracted(lib, r.value, body) == Ok(Some(Evaluate(lib, r, topic, body).value))
  {
    hide Extracted, ResolvedLabels, Captured;
  }

  // --------------------------------------------------------------------- reasons

  /** The error a chain of label errors wraps. */
  function Root(e: RuleError): RuleError {
    match e
    case InLabel(_, cause) => Root(cause)
    case _ => e
  }

  /** The reason of an error is that of the error it wraps. */
  lemma {:induction false} ReasonIsOfTheRoot(e: RuleError)
    ensures ReasonOf(e) == JsonReason <==> Root(e) == BadJSON
    ensures ReasonOf(e) == RegexReason <==> Root(e) == RegexNoMatch
    ensures ReasonOf(e) == NotNumericReason <==> Root(e) == NotNumeric
    ensures ReasonOf(e) == OtherReason <==> Root(e) == NotALabel
  {
    if e.InLabel? { ReasonIsOfTheRoot(e.cause); }
  }
}
