/** Which problems Validate reports: each validator appends a list of its own, and
    the list as a whole holds exactly the defects of the configuration, stated here
    on its fields, without the pass that finds them. */
module Report {
  import opened Text
  import opened Library
  import opened Config
  import opened Labels
  import opened Validate
  import opened Acceptance

  // ------------------------------------------------------- what a validator adds

  function Row(cond: bool, site: Where, issue: Issue): Problems {
    if cond then [Problem(site, issue)] else []
  }

  lemma AddIsRow(p: Problems, cond: bool, site: Where, issue: Issue)
    ensures Add(p, cond, site, issue) == p + Row(cond, site, issue)
  {}

  lemma Regroup(p: Problems, a: Problems, b: Problems)
    ensures (p + a) + b == p + (a + b)
  {}

  lemma Group3(p: Problems, a: Problems, b: Problems, c: Problems)
    ensures ((p + a) + b) + c == p + (a + (b + c))
  {
    Regroup(p + a, b, c);
    Regroup(p, a, b + c);
  }

  lemma Group4(p: Problems, a: Problems, b: Problems, c: Problems, d: Problems)
    ensures (((p + a) + b) + c) + d == p + (a + (b + (c + d)))
  {
    Group3(p + a, b, c, d);
    Regroup(p, a, b + (c + d));
  }

  function MQTTReport(m: MQTT): Problems {
    Row(m.Broker == "", MainFile, Required("mqtt.broker")) +
    (Row(m.ClientID == "", MainFile, Required("mqtt.client_id")) +
    (Row(m.Username == "", MainFile, Required("mqtt.username")) +
    (Row(m.Password == "", MainFile, Required("mqtt.password")) +
    ((if m.QoS.None? then [Problem(MainFile, Required("mqtt.qos"))]
      else Row(m.QoS.value > 2, MainFile, BadQoS(m.QoS.value))) +
    Row(m.CleanSession.None?, MainFile, Required("mqtt.clean_session"))))))
  }

  function ProcessReport(c: Config): Problems {
    MQTTReport(c.MQTT) +
    (Row(c.Server.Listen == "", MainFile, Required("server.listen")) +
    ((if c.Log.Level == "" then [Problem(MainFile, Required("log.level"))]
      else Row(c.Log.Level !in LOG_LEVELS, MainFile, BadLogLevel(c.Log.Level))) +
    Row(c.SourceList == [], MainFile, NoSources)))
  }

  lemma MQTTAppends(m: MQTT, p: Problems)
    ensures AddMQTT(p, m) == p + MQTTReport(m)
  {
    hide Add, Row;
    var a := Row(m.Broker == "", MainFile, Required("mqtt.broker"));
    var b := Row(m.ClientID == "", MainFile, Required("mqtt.client_id"));
    var c := Row(m.Username == "", MainFile, Required("mqtt.username"));
    var d := Row(m.Password == "", MainFile, Required("mqtt.password"));
    var e := if m.QoS.None? then [Problem(MainFile, Required("mqtt.qos"))]
             else Row(m.QoS.value > 2, MainFile, BadQoS(m.QoS.value));
    var f := Row(m.CleanSession.None?, MainFile, Required("mqtt.clean_session"));
    var q := (((p + a) + b) + c) + d;
    AddIsRow(p, m.Broker == "", MainFile, Required("mqtt.broker"));
    AddIsRow(p + a, m.ClientID == "", MainFile, Required("mqtt.client_id"));
    AddIsRow((p + a) + b, m.Username == "", MainFile, Required("mqtt.username"));
    AddIsRow(((p + a) + b) + c, m.Password == "", MainFile, Required("mqtt.password"));
    if m.QoS.Some? { AddIsRow(q, m.QoS.value > 2, MainFile, BadQoS(m.QoS.value)); }
    AddIsRow(q + e, m.CleanSession.None?, MainFile, Required("mqtt.clean_session"));
    Regroup(q, e, f);
    Group4(p, a, b, c, d + (e + f));
    Regroup(((p + a) + b) + c, d, e + f);
  }

  lemma ProcessAppends(c: Config, p: Problems)
    ensures AddProcess(p, c) == p + ProcessReport(c)
  {
    hide Add, Row, AddMQTT, MQTTReport;
    MQTTAppends(c.MQTT, p);
    var m := MQTTReport(c.MQTT);
    var a := Row(c.Server.Listen == "", MainFile, Required("server.listen"));
    var b := if c.Log.Level == "" then [Problem(MainFile, Required("log.level"))]
             else Row(c.Log.Level !in LOG_LEVELS, MainFile, BadLogLevel(c.Log.Level));
    AddIsRow(p + m, c.Server.Listen == "", MainFile, Required("server.listen"));
    AddIsRow((p + m) + a, c.Log.Level !in LOG_LEVELS, MainFile, BadLogLevel(c.Log.Level));
    AddIsRow(((p + m) + a) + b, c.SourceList == [], MainFile, NoSources);
    Group4(p, m, a, b, Row(c.SourceList == [], MainFile, NoSources));
  }

  function ValueReport(lib: Lib, v: Value, site: Where): Problems {
    if v.From == "" then [Problem(site, Required("value.from"))]
    else if v.From != FROM_JSON && v.From != FROM_RAW then [Problem(site, BadFrom(v.From))]
    else
      Row(v.From == FROM_JSON && v.Path == "", site, Required("value.path")) +
      (Row(v.From == FROM_RAW && v.Path != "", site, NotAllowed("value.path")) +
      ((if v.Regex == "" then []
        else if lib.compile(v.Regex).None? then [Problem(site, BadValueRegex)]
        else
          var groups := |lib.compile(v.Regex).value.names| - 1;
          Row(groups != 1, site, ValueRegexGroups(groups))) +
      Row(v.Scale == Some(0.0), site, ZeroScale)))
  }

  lemma ValueAppends(lib: Lib, v: Value, site: Where, p: Problems)
    ensures AddValue(p, lib, v, site) == p + ValueReport(lib, v, site)
  {
    hide Add, Row;
    if v.From == FROM_JSON || v.From == FROM_RAW {
      var a := Row(v.From == FROM_JSON && v.Path == "", site, Required("value.path"));
      var b := Row(v.From == FROM_RAW && v.Path != "", site, NotAllowed("value.path"));
      var q := (p + a) + b;
      AddIsRow(p, v.From == FROM_JSON && v.Path == "", site, Required("value.path"));
      AddIsRow(p + a, v.From == FROM_RAW && v.Path != "", site, NotAllowed("value.path"));
      var c: Problems := [];
      if v.Regex == "" {
        assert q + [] == q;
      } else if lib.compile(v.Regex).None? {
        c := [Problem(site, BadValueRegex)];
      } else {
        var groups := |lib.compile(v.Regex).value.names| - 1;
        AddIsRow(q, groups != 1, site, ValueRegexGroups(groups));
        c := Row(groups != 1, site, ValueRegexGroups(groups));
      }
      AddIsRow(q + c, v.Scale == Some(0.0), site, ZeroScale);
      Group4(p, a, b, c, Row(v.Scale == Some(0.0), site, ZeroScale));
    }
  }

  function Times(n: nat, problem: Problem): Problems {
    seq(n, i => problem)
  }

  lemma {:induction false} TimesAppends(p: Problems, n: nat, problem: Problem)
    ensures AddTimes(p, n, problem) == p + Times(n, problem)
  {
    if n > 0 {
      TimesAppends(p, n - 1, problem);
      assert Times(n, problem) == Times(n - 1, problem) + [problem];
    }
  }

  function LabelReport(l: Label, site: Where): Problems {
    if l.From == "" then [Problem(site, Required("from"))]
    else if l.From != FROM_STATIC && l.From != FROM_JSON then [Problem(site, BadFrom(l.From))]
    else
      Row(l.From == FROM_STATIC && l.Value == "", site, Required("value")) +
      (Row(l.From == FROM_STATIC && l.Path != "", site, NotAllowed("path")) +
      (Row(l.From == FROM_JSON && l.Path == "", site, Required("path")) +
      (Row(l.From == FROM_JSON && l.Value != "", site, NotAllowed("value")) +
      if l.Map.None? then []
      else Times(|set k | k in l.Map.value && l.Map.value[k] == ""|, Problem(site, EmptyMapValue)))))
  }

  lemma LabelAppends(l: Label, site: Where, p: Problems)
    ensures AddLabel(p, l, site) == p + LabelReport(l, site)
  {
    hide Add, Row, Times, AddTimes;
    if l.From == FROM_STATIC || l.From == FROM_JSON {
      var a := Row(l.From == FROM_STATIC && l.Value == "", site, Required("value"));
      var b := Row(l.From == FROM_STATIC && l.Path != "", site, NotAllowed("path"));
      var c := Row(l.From == FROM_JSON && l.Path == "", site, Required("path"));
      var d := Row(l.From == FROM_JSON && l.Value != "", site, NotAllowed("value"));
      var q := ((p + a) + b) + c;
      AddIsRow(p, l.From == FROM_STATIC && l.Value == "", site, Required("value"));
      AddIsRow(p + a, l.From == FROM_STATIC && l.Path != "", site, NotAllowed("path"));
      AddIsRow((p + a) + b, l.From == FROM_JSON && l.Path == "", site, Required("path"));
      AddIsRow(q, l.From == FROM_JSON && l.Value != "", site, NotAllowed("value"));
      var e: Problems := [];
      if l.Map.Some? {
        var n := |EmptyValues(l.Map.value)|;
        TimesAppends(q + d, n, Problem(site, EmptyMapValue));
        e := Times(n, Problem(site, EmptyMapValue));
      } else {
        assert (q + d) + [] == q + d;
      }
      Regroup(q, d, e);
      Group4(p, a, b, c, d + e);
    }
  }

  function RefsReport(site: Where, name: string, captures: set<string>, refs: seq<string>): Problems {
    if refs == [] then [] else
    var n := |refs| - 1;
    RefsReport(site, name, captures, refs[..n]) + Row(refs[n] !in captures, site, UnknownReference(name, refs[n]))
  }

  lemma {:induction false} RefsAppend(p: Problems, site: Where, name: string, captures: set<string>, refs: seq<string>)
    ensures AddUnknownRefs(p, site, name, captures, refs) == p + RefsReport(site, name, captures, refs)
  {
    if refs != [] {
      var n := |refs| - 1;
      RefsAppend(p, site, name, captures, refs[..n]);
      Regroup(p, RefsReport(site, name, captures, refs[..n]),
              Row(refs[n] !in captures, site, UnknownReference(name, refs[n])));
    }
  }

  function NamedLabelReport(site: Where, captures: set<string>, name: string, l: Label): Problems {
    Row(!IsLabelName(name), site, BadLabelName(name)) +
    (Row(name in captures, site, CaptureClash(name)) +
    (LabelReport(l, LabelOf(site, name)) +
    RefsReport(site, name, captures, Refs(l.Value))))
  }

  lemma NamedLabelAppends(p: Problems, site: Where, captures: set<string>, name: string, l: Label)
    ensures AddNamedLabel(p, site, captures, name, l) == p + NamedLabelReport(site, captures, name, l)
  {
    hide Add, Row, IsLabelName, Refs, AddLabel, LabelReport, RefsReport, AddUnknownRefs;
    var a := Row(!IsLabelName(name), site, BadLabelName(name));
    var b := Row(name in captures, site, CaptureClash(name));
    var c := LabelReport(l, LabelOf(site, name));
    AddIsRow(p, !IsLabelName(name), site, BadLabelName(name));
    AddIsRow(p + a, name in captures, site, CaptureClash(name));
    LabelAppends(l, LabelOf(site, name), (p + a) + b);
    RefsAppend(((p + a) + b) + c, site, name, captures, Refs(l.Value));
    Group4(p, a, b, c, RefsReport(site, name, captures, Refs(l.Value)));
  }

  function LabelListReport(site: Where, captures: set<string>, labels: map<string, Label>, names: seq<string>): Problems
    requires forall i :: 0 <= i < |names| ==> names[i] in labels
  {
    if names == [] then [] else
    var n := |names| - 1;
    LabelListReport(site, captures, labels, names[..n]) + NamedLabelReport(site, captures, names[n], labels[names[n]])
  }

  lemma {:induction false} LabelListAppends(p: Problems, site: Where, captures: set<string>,
                                            labels: map<string, Label>, names: seq<string>)
    requires forall i :: 0 <= i < |names| ==> names[i] in labels
    ensures AddLabelList(p, site, captures, labels, names) == p + LabelListReport(site, captures, labels, names)
  {
    hide AddNamedLabel, NamedLabelReport;
    if names != [] {
      var n := |names| - 1;
      LabelListAppends(p, site, captures, labels, names[..n]);
      var before := AddLabelList(p, site, captures, labels, names[..n]);
      NamedLabelAppends(before, site, captures, names[n], labels[names[n]]);
      Regroup(p, LabelListReport(site, captures, labels, names[..n]),
              NamedLabelReport(site, captures, names[n], labels[names[n]]));
    }
  }

  /** The labels' problems, by sorted name. */
  ghost function LabelsReport(site: Where, captures: set<string>, labels: map<string, Label>): Problems {
    KeysAreSorted(labels);
    LabelListReport(site, captures, labels, SortedSeq(labels.Keys))
  }

  lemma LabelsAppend(p: Problems, site: Where, captures: set<string>, labels: map<string, Label>)
    ensures AddLabels(p, site, captures, labels) == p + LabelsReport(site, captures, labels)
  {
    KeysAreSorted(labels);
    LabelListAppends(p, site, captures, labels, SortedSeq(labels.Keys));
  }

  function RuleFieldsReport(r: Rule, site: Where): Problems {
    (if r.MetricName == "" then [Problem(site, Required("metric_name"))]
     else Row(!IsMetricName(r.MetricName), site, BadMetricName("metric_name", r.MetricName))) +
    (Row(r.LastUpdatedMetric != "" && !IsMetricName(r.LastUpdatedMetric), site,
         BadMetricName("last_updated_metric", r.LastUpdatedMetric)) +
    (if r.Type == "" then [Problem(site, Required("type"))]
     else Row(r.Type != TYPE_GAUGE && r.Type != TYPE_COUNTER, site, BadType(r.Type))))
  }

  lemma RuleFieldsAppend(p: Problems, r: Rule, site: Where)
    ensures AddRuleFields(p, r, site) == p + RuleFieldsReport(r, site)
  {
    hide Add, Row, IsMetricName;
    var a := if r.MetricName == "" then [Problem(site, Required("metric_name"))]
             else Row(!IsMetricName(r.MetricName), site, BadMetricName("metric_name", r.MetricName));
    var b := Row(r.LastUpdatedMetric != "" && !IsMetricName(r.LastUpdatedMetric), site,
                 BadMetricName("last_updated_metric", r.LastUpdatedMetric));
    var c := if r.Type == "" then [Problem(site, Required("type"))]
             else Row(r.Type != TYPE_GAUGE && r.Type != TYPE_COUNTER, site, BadType(r.Type));
    AddIsRow(p, !IsMetricName(r.MetricName), site, BadMetricName("metric_name", r.MetricName));
    AddIsRow(p + a, r.LastUpdatedMetric != "" && !IsMetricName(r.LastUpdatedMetric), site,
             BadMetricName("last_updated_metric", r.LastUpdatedMetric));
    AddIsRow((p + a) + b, r.Type != TYPE_GAUGE && r.Type != TYPE_COUNTER, site, BadType(r.Type));
    Group3(p, a, b, c);
  }

  ghost function RuleReport(lib: Lib, r: Rule, site: Where): Problems {
    RuleFieldsReport(r, site) + (MatchProblems(lib, r.Match, site) + (ValueReport(lib, r.Value, site) +
    LabelsReport(site, Elements(MatchCaptures(lib, r.Match)), r.Labels)))
  }

  lemma RuleAppends(p: Problems, lib: Lib, r: Rule, site: Where)
    ensures AddRule(p, lib, r, site) == p + RuleReport(lib, r, site)
  {
    hide AddRuleFields, RuleFieldsReport, MatchProblems, AddValue, ValueReport, AddLabels, LabelsReport, MatchCaptures;
    var captures := Elements(MatchCaptures(lib, r.Match));
    var a, b, c := RuleFieldsReport(r, site), MatchProblems(lib, r.Match, site), ValueReport(lib, r.Value, site);
    var d := LabelsReport(site, captures, r.Labels);
    RuleFieldsAppend(p, r, site);
    ValueAppends(lib, r.Value, site, (p + a) + b);
    LabelsAppend(((p + a) + b) + c, site, captures, r.Labels);
    Group4(p, a, b, c, d);
  }

  ghost function RulesReport(lib: Lib, path: string, rules: seq<Rule>): Problems {
    if rules == [] then [] else
    var n := |rules| - 1;
    RulesReport(lib, path, rules[..n]) + RuleReport(lib, rules[n], RuleOf(path, n))
  }

  lemma {:induction false} RulesAppend(p: Problems, lib: Lib, path: string, rules: seq<Rule>)
    ensures AddRules(p, lib, path, rules) == p + RulesReport(lib, path, rules)
  {
    hide AddRule, RuleReport;
    if rules != [] {
      var n := |rules| - 1;
      RulesAppend(p, lib, path, rules[..n]);
      RuleAppends(AddRules(p, lib, path, rules[..n]), lib, rules[n], RuleOf(path, n));
      Regroup(p, RulesReport(lib, path, rules[..n]), RuleReport(lib, rules[n], RuleOf(path, n)));
    }
  }

  function SourceFieldsReport(s: Source): Problems {
    Row(s.Name == "", SourceFile(s.Path), Required("name")) +
    (Row(s.Subscribe == "", SourceFile(s.Path), Required("subscribe")) +
    ((if s.QoS.Some? then Row(s.QoS.value > 2, SourceFile(s.Path), BadQoS(s.QoS.value)) else []) +
    Row(s.Rules == [], SourceFile(s.Path), NoRules)))
  }

  ghost function SourceReport(lib: Lib, s: Source): Problems {
    SourceFieldsReport(s) + (LabelsReport(SourceFile(s.Path), {}, s.Labels) + RulesReport(lib, s.Path, s.Rules))
  }

  lemma SourceFieldsAppend(p: Problems, s: Source)
    ensures AddSourceFields(p, s) == p + SourceFieldsReport(s)
  {
    hide Add, Row;
    var site := SourceFile(s.Path);
    var a, b := Row(s.Name == "", site, Required("name")), Row(s.Subscribe == "", site, Required("subscribe"));
    var q, c := (p + a) + b, if s.QoS.Some? then Row(s.QoS.value > 2, site, BadQoS(s.QoS.value)) else [];
    AddIsRow(p, s.Name == "", site, Required("name"));
    AddIsRow(p + a, s.Subscribe == "", site, Required("subscribe"));
    if s.QoS.Some? { AddIsRow(q, s.QoS.value > 2, site, BadQoS(s.QoS.value)); } else { assert q + [] == q; }
    AddIsRow(q + c, s.Rules == [], site, NoRules);
    Group4(p, a, b, c, Row(s.Rules == [], site, NoRules));
  }

  /** What a source's validation appends does not depend on the problems before it. */
  lemma SourceAppends(p: Problems, lib: Lib, s: Source)
    ensures AddSource(p, lib, s) == p + SourceReport(lib, s)
  {
    hide AddSourceFields, SourceFieldsReport, AddLabels, LabelsReport, AddRules, RulesReport;
    var a, b := SourceFieldsReport(s), LabelsReport(SourceFile(s.Path), {}, s.Labels);
    SourceFieldsAppend(p, s);
    LabelsAppend(p + a, SourceFile(s.Path), {}, s.Labels);
    RulesAppend((p + a) + b, lib, s.Path, s.Rules);
    Group3(p, a, b, RulesReport(lib, s.Path, s.Rules));
  }

  // -------------------------------------------------------- names and consistency

  function DuplicateReport(before: seq<Source>, s: Source): Problems {
    if s.Name in FirstPaths(before) then
      [Problem(SourceFile(s.Path), DuplicateSource(s.Name, FirstPaths(before)[s.Name]))]
    else []
  }

  /** Differences between two shapes of one name. */
  function DifferenceReport(first: MetricShape, site: Where, name: string, other: MetricShape): Problems {
    Row(first.labels != other.labels, site, LabelsDiffer(name, first.labels, other.labels)) +
    (Row(first.help != other.help, site, HelpDiffers(name, first.help, other.help)) +
    Row(first.kind != other.kind, site, KindDiffers(name, first.kind, other.kind)))
  }

  lemma DifferencesAppend(p: Problems, first: MetricShape, site: Where, name: string, other: MetricShape)
    ensures AddDifferences(p, first, site, name, other) == p + DifferenceReport(first, site, name, other)
  {
    hide Add, Row;
    var a := Row(first.labels != other.labels, site, LabelsDiffer(name, first.labels, other.labels));
    var b := Row(first.help != other.help, site, HelpDiffers(name, first.help, other.help));
    AddIsRow(p, first.labels != other.labels, site, LabelsDiffer(name, first.labels, other.labels));
    AddIsRow(p + a, first.help != other.help, site, HelpDiffers(name, first.help, other.help));
    AddIsRow((p + a) + b, first.kind != other.kind, site, KindDiffers(name, first.kind, other.kind));
    Group3(p, a, b, Row(first.kind != other.kind, site, KindDiffers(name, first.kind, other.kind)));
  }

  /** `i` is the first use of its name. */
  ghost predicate FirstUse(uses: seq<Use>, i: nat) {
    i < |uses| && forall j :: 0 <= j < i ==> uses[j].name != uses[i].name
  }

  lemma {:induction false} HasFirst(uses: seq<Use>, n: nat) returns (i: nat)
    requires n < |uses|
    ensures FirstUse(uses, i) && i <= n && uses[i].name == uses[n].name
  {
    if FirstUse(uses, n) {
      i := n;
    } else {
      var j :| 0 <= j < n && uses[j].name == uses[n].name;
      i := HasFirst(uses, j);
    }
  }

  /** What is recorded for each name is the shape of its first use. */
  ghost predicate FirstShapes(seen: map<string, MetricShape>, uses: seq<Use>) {
    && (forall i: nat :: FirstUse(uses, i) ==> uses[i].name in seen && seen[uses[i].name] == ShapeOf(uses[i]))
    && (forall name :: name in seen ==> exists i: nat :: FirstUse(uses, i) && uses[i].name == name)
  }

  lemma FirstShapesStep(st: Pass, before: seq<Use>, u: Use)
    requires FirstShapes(st.seen, before)
    ensures FirstShapes(RecordShape(st, u.site, u.name, ShapeOf(u)).seen, before + [u])
  {
    hide ShapeOf;
    var uses, n := before + [u], |before|;
    var seen := RecordShape(st, u.site, u.name, ShapeOf(u)).seen;
    assert forall j :: 0 <= j < n ==> uses[j] == before[j];
    forall i: nat | FirstUse(uses, i) ensures uses[i].name in seen && seen[uses[i].name] == ShapeOf(uses[i]) {
      if i < n {
        assert FirstUse(before, i);
      } else {
        assert forall k: nat :: FirstUse(before, k) ==> uses[k].name != u.name;
      }
    }
    forall name | name in seen ensures exists i: nat :: FirstUse(uses, i) && uses[i].name == name {
      if name in st.seen {
        var k: nat :| FirstUse(before, k) && before[k].name == name;
        assert FirstUse(uses, k);
      } else {
        var k := HasFirst(uses, n);
      }
    }
  }

  /** One use, compared with the first of its name before it. */
  ghost function UseReport(before: seq<Use>, u: Use): Problems {
    if i: nat :| FirstUse(before, i) && before[i].name == u.name then
      DifferenceReport(ShapeOf(before[i]), u.site, u.name, ShapeOf(u))
    else []
  }

  ghost function ConsistencyReport(before: seq<Use>, uses: seq<Use>): Problems {
    if uses == [] then [] else
    var n := |uses| - 1;
    ConsistencyReport(before, uses[..n]) + UseReport(before + uses[..n], uses[n])
  }

  lemma RecordAppends(st: Pass, before: seq<Use>, u: Use)
    requires FirstShapes(st.seen, before)
    ensures RecordShape(st, u.site, u.name, ShapeOf(u)).p == st.p + UseReport(before, u)
  {
    hide ShapeOf, AddDifferences, DifferenceReport;
    if u.name in st.seen {
      var k: nat :| FirstUse(before, k) && before[k].name == u.name;
      DifferencesAppend(st.p, st.seen[u.name], u.site, u.name, ShapeOf(u));
      assert forall i: nat :: FirstUse(before, i) && before[i].name == u.name ==> i == k;
    } else {
      assert st.p + [] == st.p;
    }
  }

  lemma {:induction false} RecordingAppends(p: Problems, seen: map<string, MetricShape>,
                                            before: seq<Use>, uses: seq<Use>)
    requires FirstShapes(seen, before)
    ensures var st := RecordUses(Pass(p, seen), uses);
            st.p == p + ConsistencyReport(before, uses) && FirstShapes(st.seen, before + uses)
  {
    hide FirstShapes, RecordShape, UseReport;
    if uses == [] {
      assert before + uses == before && p + [] == p;
    } else {
      var n := |uses| - 1;
      var st, u := RecordUses(Pass(p, seen), uses[..n]), uses[n];
      RecordingAppends(p, seen, before, uses[..n]);
      RecordAppends(st, before + uses[..n], u);
      FirstShapesStep(st, before + uses[..n], u);
      assert (before + uses[..n]) + [u] == before + uses;
      Regroup(p, ConsistencyReport(before, uses[..n]), UseReport(before + uses[..n], u));
    }
  }

  // ------------------------------------------------------------- the whole report

  ghost function PassReport(lib: Lib, sources: seq<Source>): Problems {
    if sources == [] then [] else
    var before, s := sources[..|sources| - 1], sources[|sources| - 1];
    PassReport(lib, before) +
    (SourceReport(lib, s) + (DuplicateReport(before, s) + ConsistencyReport(AllUses(lib, before), SourceUses(lib, s))))
  }

  lemma NothingRecorded()
    ensures FirstShapes(map[], [])
  {}

  lemma {:induction false} PassAppends(p: Problems, lib: Lib, sources: seq<Source>)
    ensures var st := PassSources(Pass(p, map[]), lib, sources);
            st.p == p + PassReport(lib, sources) && FirstShapes(st.seen, AllUses(lib, sources))
  {
    hide FirstShapes, AddSource, SourceReport, FirstPaths, ConsistencyReport, RecordUses, SourceUses;
    if sources == [] {
      NothingRecorded();
      assert p + [] == p && AllUses(lib, sources) == [];
    } else {
      var before, s := sources[..|sources| - 1], sources[|sources| - 1];
      var st := PassSources(Pass(p, map[]), lib, before);
      PassAppends(p, lib, before);
      SourceAppends(st.p, lib, s);
      var q := st.p + SourceReport(lib, s);
      assert AddDuplicate(q, FirstPaths(before), s) == q + DuplicateReport(before, s);
      RecordingAppends(q + DuplicateReport(before, s), st.seen, AllUses(lib, before), SourceUses(lib, s));
      Group4(p, PassReport(lib, before), SourceReport(lib, s), DuplicateReport(before, s),
             ConsistencyReport(AllUses(lib, before), SourceUses(lib, s)));
    }
  }

  ghost function ConfigReport(lib: Lib, c: Config): Problems {
    ProcessReport(c) + PassReport(lib, c.SourceList)
  }

  /** The list Validate returns: process, then for each source its own problems, its
      name and its metrics, none depending on the problems before. */
  lemma ProblemsAreTheReport(lib: Lib, c: Config)
    ensures ConfigProblems(lib, c) == ConfigReport(lib, c)
  {
    hide AddProcess, ProcessReport, PassSources, PassReport;
    ProcessAppends(c, []);
    assert [] + ProcessReport(c) == ProcessReport(c);
    PassAppends(ProcessReport(c), lib, c.SourceList);
  }

  /** One more source only appends to the problems of the others. */
  lemma MoreSourcesOnlyAppend(lib: Lib, c: Config, s: Source)
    requires c.SourceList != []
    ensures ConfigProblems(lib, c) <= ConfigProblems(lib, c.(SourceList := c.SourceList + [s]))
  {
    hide ConfigProblems, PassReport, MQTTReport, Row;
    var more := c.(SourceList := c.SourceList + [s]);
    ProblemsAreTheReport(lib, c);
    ProblemsAreTheReport(lib, more);
    OneMoreSource(lib, c.SourceList, s);
    assert ProcessReport(more) == ProcessReport(c);
  }

  lemma OneMoreSource(lib: Lib, sources: seq<Source>, s: Source)
    ensures PassReport(lib, sources) <= PassReport(lib, sources + [s])
  {
    assert (sources + [s])[..|sources|] == sources;
  }
}
