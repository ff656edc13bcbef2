/** The defects of a configuration, one by one, and the proof that Validate reports
    exactly these. */
module Defects {
  import opened Text
  import opened Library
  import opened Config
  import opened Labels
  import opened Validate
  import opened Acceptance
  import opened Report

  // ----------------------------------------------------------------- the defects

  predicate ProcessDefect(c: Config, issue: Issue) {
    || (issue == Required("mqtt.broker") && c.MQTT.Broker == "")
    || (issue == Required("mqtt.client_id") && c.MQTT.ClientID == "")
    || (issue == Required("mqtt.username") && c.MQTT.Username == "")
    || (issue == Required("mqtt.password") && c.MQTT.Password == "")
    || (issue == Required("mqtt.qos") && c.MQTT.QoS.None?)
    || (c.MQTT.QoS.Some? && c.MQTT.QoS.value > 2 && issue == BadQoS(c.MQTT.QoS.value))
    || (issue == Required("mqtt.clean_session") && c.MQTT.CleanSession.None?)
    || (issue == Required("server.listen") && c.Server.Listen == "")
    || (issue == Required("log.level") && c.Log.Level == "")
    || (issue == BadLogLevel(c.Log.Level) && c.Log.Level !in {"", "debug", "info", "warn", "error"})
    || (issue == NoSources && c.SourceList == [])
  }

  ghost predicate ValueDefect(lib: Lib, v: Value, issue: Issue) {
    || (issue == Required("value.from") && v.From == "")
    || (issue == BadFrom(v.From) && v.From !in {"", "json", "raw"})
    || (issue == Required("value.path") && v.From == FROM_JSON && v.Path == "")
    || (issue == NotAllowed("value.path") && v.From == FROM_RAW && v.Path != "")
    || (v.From in {FROM_JSON, FROM_RAW} &&
        (|| (issue == BadValueRegex && v.Regex != "" && lib.compile(v.Regex).None?)
         || (v.Regex != "" && lib.compile(v.Regex).Some? && |lib.compile(v.Regex).value.names| != 2 &&
             issue == ValueRegexGroups(|lib.compile(v.Regex).value.names| - 1))
         || (issue == ZeroScale && v.Scale == Some(0.0))))
  }

  ghost predicate LabelDefect(l: Label, issue: Issue) {
    || (issue == Required("from") && l.From == "")
    || (issue == BadFrom(l.From) && l.From !in {"", "static", "json"})
    || (issue == Required("value") && l.From == FROM_STATIC && l.Value == "")
    || (issue == NotAllowed("path") && l.From == FROM_STATIC && l.Path != "")
    || (issue == Required("path") && l.From == FROM_JSON && l.Path == "")
    || (issue == NotAllowed("value") && l.From == FROM_JSON && l.Value != "")
    || (issue == EmptyMapValue && (l.From == FROM_STATIC || l.From == FROM_JSON) &&
        l.Map.Some? && exists k :: k in l.Map.value && l.Map.value[k] == "")
  }

  /** A defect of the label of that name, found in the place `at`. */
  ghost predicate NamedLabelDefect(at: Where, captures: set<string>, name: string, l: Label,
                                   site: Where, issue: Issue) {
    || (site == at && issue == BadLabelName(name) && !IsLabelName(name))
    || (site == at && issue == CaptureClash(name) && name in captures)
    || (site == at && issue.UnknownReference? && issue.name == name &&
        issue.ref in Refs(l.Value) && issue.ref !in captures)
    || (site == LabelOf(at, name) && LabelDefect(l, issue))
  }

  ghost predicate LabelsDefect(at: Where, captures: set<string>, labels: map<string, Label>,
                               site: Where, issue: Issue) {
    exists name :: name in labels && NamedLabelDefect(at, captures, name, labels[name], site, issue)
  }

  ghost predicate MatchDefect(lib: Lib, m: string, issue: Issue) {
    || (issue == Required("match") && m == "")
    || (issue == BadMatch && m != "" && lib.compile(m).None?)
    || (m != "" && lib.compile(m).Some? && issue.BadCapture? &&
        var names := lib.compile(m).value.names;
        issue.group < |names| && issue.name == names[issue.group] && issue.name != "" && !IsLabelName(issue.name))
  }

  /** The capture groups labels may refer to. */
  ghost function UsableCaptures(lib: Lib, m: string): set<string> {
    if m == "" || lib.compile(m).None? then {} else
    set x | x in lib.compile(m).value.names && IsLabelName(x)
  }

  ghost predicate RuleDefect(lib: Lib, r: Rule, at: Where, site: Where, issue: Issue) {
    || (site == at &&
        (|| (issue == Required("metric_name") && r.MetricName == "")
         || (issue == BadMetricName("metric_name", r.MetricName) && r.MetricName != "" &&
             !IsMetricName(r.MetricName))
         || (issue == BadMetricName("last_updated_metric", r.LastUpdatedMetric) && r.LastUpdatedMetric != "" &&
             !IsMetricName(r.LastUpdatedMetric))
         || (issue == Required("type") && r.Type == "")
         || (issue == BadType(r.Type) && r.Type !in {"", "gauge", "counter"})
         || MatchDefect(lib, r.Match, issue)
         || ValueDefect(lib, r.Value, issue)))
    || LabelsDefect(at, UsableCaptures(lib, r.Match), r.Labels, site, issue)
  }

  ghost predicate SourceDefect(lib: Lib, s: Source, site: Where, issue: Issue) {
    || (site == SourceFile(s.Path) &&
        (|| (issue == Required("name") && s.Name == "")
         || (issue == Required("subscribe") && s.Subscribe == "")
         || (s.QoS.Some? && s.QoS.value > 2 && issue == BadQoS(s.QoS.value))
         || (issue == NoRules && s.Rules == [])))
    || LabelsDefect(SourceFile(s.Path), {}, s.Labels, site, issue)
    || exists k :: 0 <= k < |s.Rules| && RuleDefect(lib, s.Rules[k], RuleOf(s.Path, k), site, issue)
  }

  /** A source name used before; the first file to use it is named. */
  predicate NamedFirst(sources: seq<Source>, i: nat) {
    i < |sources| && sources[i].Name != "" && forall j :: 0 <= j < i ==> sources[j].Name != sources[i].Name
  }

  ghost predicate DuplicateDefect(sources: seq<Source>, j: nat, site: Where, issue: Issue)
    requires j < |sources|
  {
    exists i: nat :: NamedFirst(sources, i) && i < j && sources[i].Name == sources[j].Name &&
      site == SourceFile(sources[j].Path) && issue == DuplicateSource(sources[j].Name, sources[i].Path)
  }

  /** Two uses of one name differ. */
  predicate UsesDiffer(u: Use, v: Use, issue: Issue) {
    var a, b := Join(u.labels, ' '), Join(v.labels, ' ');
    || (issue == LabelsDiffer(v.name, a, b) && a != b)
    || (issue == HelpDiffers(v.name, u.help, v.help) && u.help != v.help)
    || (issue == KindDiffers(v.name, u.kind, v.kind) && u.kind != v.kind)
  }

  /** The `j`-th use differs from the first of its name. */
  ghost predicate UseDefect(uses: seq<Use>, j: nat, site: Where, issue: Issue)
    requires j < |uses|
  {
    exists i: nat :: FirstUse(uses, i) && i < j && uses[i].name == uses[j].name && site == uses[j].site &&
      UsesDiffer(uses[i], uses[j], issue)
  }

  ghost predicate Defect(lib: Lib, c: Config, site: Where, issue: Issue) {
    || (site == MainFile && ProcessDefect(c, issue))
    || (exists i :: 0 <= i < |c.SourceList| && SourceDefect(lib, c.SourceList[i], site, issue))
    || (exists j: nat :: j < |c.SourceList| && DuplicateDefect(c.SourceList, j, site, issue))
    || (exists j: nat :: j < |AllUses(lib, c.SourceList)| && UseDefect(AllUses(lib, c.SourceList), j, site, issue))
  }

  // ------------------------------------------------------------- what is reported

  lemma InRow(cond: bool, at: Where, what: Issue, q: Problem)
    ensures q in Row(cond, at, what) <==> cond && q == Problem(at, what)
  {}

  lemma MQTTReported(c: Config, q: Problem)
    ensures q in MQTTReport(c.MQTT) <==>
            q.site == MainFile &&
            (|| (q.issue == Required("mqtt.broker") && c.MQTT.Broker == "")
             || (q.issue == Required("mqtt.client_id") && c.MQTT.ClientID == "")
             || (q.issue == Required("mqtt.username") && c.MQTT.Username == "")
             || (q.issue == Required("mqtt.password") && c.MQTT.Password == "")
             || (q.issue == Required("mqtt.qos") && c.MQTT.QoS.None?)
             || (c.MQTT.QoS.Some? && c.MQTT.QoS.value > 2 && q.issue == BadQoS(c.MQTT.QoS.value))
             || (q.issue == Required("mqtt.clean_session") && c.MQTT.CleanSession.None?))
  {
    hide Row;
    var m := c.MQTT;
    InRow(m.Broker == "", MainFile, Required("mqtt.broker"), q);
    InRow(m.ClientID == "", MainFile, Required("mqtt.client_id"), q);
    InRow(m.Username == "", MainFile, Required("mqtt.username"), q);
    InRow(m.Password == "", MainFile, Required("mqtt.password"), q);
    if m.QoS.Some? { InRow(m.QoS.value > 2, MainFile, BadQoS(m.QoS.value), q); }
    InRow(m.CleanSession.None?, MainFile, Required("mqtt.clean_session"), q);
  }

  lemma ProcessReported(c: Config, q: Problem)
    ensures q in ProcessReport(c) <==> q.site == MainFile && ProcessDefect(c, q.issue)
  {
    hide Row, MQTTReport;
    MQTTReported(c, q);
    InRow(c.Server.Listen == "", MainFile, Required("server.listen"), q);
    InRow(c.Log.Level !in LOG_LEVELS, MainFile, BadLogLevel(c.Log.Level), q);
    InRow(c.SourceList == [], MainFile, NoSources, q);
  }

  lemma ValueReported(lib: Lib, v: Value, at: Where, q: Problem)
    ensures q in ValueReport(lib, v, at) <==> q.site == at && ValueDefect(lib, v, q.issue)
  {
    hide Row;
    assert FROM_JSON != FROM_RAW && FROM_JSON != "" && FROM_RAW != "";
    InRow(v.From == FROM_JSON && v.Path == "", at, Required("value.path"), q);
    InRow(v.From == FROM_RAW && v.Path != "", at, NotAllowed("value.path"), q);
    InRow(v.Scale == Some(0.0), at, ZeroScale, q);
    if v.Regex != "" && lib.compile(v.Regex).Some? {
      var groups := |lib.compile(v.Regex).value.names| - 1;
      InRow(groups != 1, at, ValueRegexGroups(groups), q);
    }
  }

  lemma InTimes(n: nat, p: Problem, q: Problem)
    ensures q in Times(n, p) <==> n > 0 && q == p
  {
    if n > 0 { assert Times(n, p)[0] == p; }
  }

  lemma LabelReported(l: Label, at: Where, q: Problem)
    ensures q in LabelReport(l, at) <==> q.site == at && LabelDefect(l, q.issue)
  {
    hide Row, Times;
    assert FROM_JSON != FROM_STATIC && FROM_JSON != "" && FROM_STATIC != "";
    InRow(l.From == FROM_STATIC && l.Value == "", at, Required("value"), q);
    InRow(l.From == FROM_STATIC && l.Path != "", at, NotAllowed("path"), q);
    InRow(l.From == FROM_JSON && l.Path == "", at, Required("path"), q);
    InRow(l.From == FROM_JSON && l.Value != "", at, NotAllowed("value"), q);
    if l.Map.Some? {
      var empty := set k | k in l.Map.value && l.Map.value[k] == "";
      InTimes(|empty|, Problem(at, EmptyMapValue), q);
      assert |empty| > 0 <==> exists k :: k in l.Map.value && l.Map.value[k] == "" by {
        if |empty| > 0 { var k :| k in empty; }
        if k :| k in l.Map.value && l.Map.value[k] == "" { assert k in empty; }
      }
    }
  }

  lemma {:induction false} RefsReported(at: Where, name: string, captures: set<string>, refs: seq<string>, q: Problem)
    ensures q in RefsReport(at, name, captures, refs) <==>
            q.site == at && q.issue.UnknownReference? && q.issue.name == name &&
            q.issue.ref in refs && q.issue.ref !in captures
  {
    hide Row;
    if refs != [] {
      var n := |refs| - 1;
      RefsReported(at, name, captures, refs[..n], q);
      InRow(refs[n] !in captures, at, UnknownReference(name, refs[n]), q);
      assert refs == refs[..n] + [refs[n]];
    }
  }

  lemma NamedLabelReported(at: Where, captures: set<string>, name: string, l: Label, q: Problem)
    ensures q in NamedLabelReport(at, captures, name, l) <==>
            NamedLabelDefect(at, captures, name, l, q.site, q.issue)
  {
    hide Row, IsLabelName, LabelReport, LabelDefect, RefsReport, Refs;
    InRow(!IsLabelName(name), at, BadLabelName(name), q);
    InRow(name in captures, at, CaptureClash(name), q);
    LabelReported(l, LabelOf(at, name), q);
    RefsReported(at, name, captures, Refs(l.Value), q);
  }

  lemma {:induction false} LabelListReported(at: Where, captures: set<string>, labels: map<string, Label>,
                                             names: seq<string>, q: Problem)
    requires forall i :: 0 <= i < |names| ==> names[i] in labels
    ensures q in LabelListReport(at, captures, labels, names) <==>
            exists i :: 0 <= i < |names| &&
              NamedLabelDefect(at, captures, names[i], labels[names[i]], q.site, q.issue)
  {
    hide NamedLabelReport, NamedLabelDefect;
    if names != [] {
      var n := |names| - 1;
      LabelListReported(at, captures, labels, names[..n], q);
      NamedLabelReported(at, captures, names[n], labels[names[n]], q);
      assert forall i :: 0 <= i < n ==> names[..n][i] == names[i];
    }
  }

  lemma LabelsReported(at: Where, captures: set<string>, labels: map<string, Label>, q: Problem)
    ensures q in LabelsReport(at, captures, labels) <==> LabelsDefect(at, captures, labels, q.site, q.issue)
  {
    hide NamedLabelDefect, LabelListReport;
    var names := SortedSeq(labels.Keys);
    KeysAreSorted(labels);
    LabelListReported(at, captures, labels, names, q);
    forall name | name in labels ensures exists i :: 0 <= i < |names| && names[i] == name {
      assert name in Elements(names);
    }
  }

  lemma {:induction false} CapturesReported(at: Where, names: seq<string>, q: Problem)
    ensures q in AddCaptures([], at, names) <==>
            q.site == at && q.issue.BadCapture? && q.issue.group < |names| &&
            q.issue.name == names[q.issue.group] && q.issue.name != "" && !IsLabelName(q.issue.name)
  {
    hide IsLabelName;
    if names != [] { CapturesReported(at, names[..|names| - 1], q); }
  }

  lemma MatchReported(lib: Lib, m: string, at: Where, q: Problem)
    ensures q in MatchProblems(lib, m, at) <==> q.site == at && MatchDefect(lib, m, q.issue)
  {
    hide IsLabelName, AddCaptures;
    if m != "" && lib.compile(m).Some? { CapturesReported(at, lib.compile(m).value.names, q); }
  }

  lemma {:induction false} ValidAre(names: seq<string>)
    ensures Elements(ValidCaptures(names)) == set x | x in names && IsLabelName(x)
  {
    hide IsLabelName;
    if names != [] {
      var n := |names| - 1;
      ValidAre(names[..n]);
      assert names == names[..n] + [names[n]];
      Appended(ValidCaptures(names[..n]), names[n]);
      assert ValidCaptures(names[..n]) + [] == ValidCaptures(names[..n]);
    }
  }

  lemma CapturesAreUsable(lib: Lib, m: string)
    ensures Elements(MatchCaptures(lib, m)) == UsableCaptures(lib, m)
  {
    if m != "" && lib.compile(m).Some? { ValidAre(lib.compile(m).value.names); }
  }

  lemma RuleFieldsReported(r: Rule, at: Where, q: Problem)
    ensures q in RuleFieldsReport(r, at) <==>
            q.site == at &&
            (|| (q.issue == Required("metric_name") && r.MetricName == "")
             || (q.issue == BadMetricName("metric_name", r.MetricName) && r.MetricName != "" &&
                 !IsMetricName(r.MetricName))
             || (q.issue == BadMetricName("last_updated_metric", r.LastUpdatedMetric) && r.LastUpdatedMetric != "" &&
                 !IsMetricName(r.LastUpdatedMetric))
             || (q.issue == Required("type") && r.Type == "")
             || (q.issue == BadType(r.Type) && r.Type !in {"", "gauge", "counter"}))
  {
    hide Row, IsMetricName;
    InRow(!IsMetricName(r.MetricName), at, BadMetricName("metric_name", r.MetricName), q);
    InRow(r.LastUpdatedMetric != "" && !IsMetricName(r.LastUpdatedMetric), at,
          BadMetricName("last_updated_metric", r.LastUpdatedMetric), q);
    InRow(r.Type != TYPE_GAUGE && r.Type != TYPE_COUNTER, at, BadType(r.Type), q);
  }

  lemma RuleReported(lib: Lib, r: Rule, at: Where, q: Problem)
    ensures q in RuleReport(lib, r, at) <==> RuleDefect(lib, r, at, q.site, q.issue)
  {
    hide RuleFieldsReport, MatchProblems, MatchDefect, ValueReport, ValueDefect, LabelsReport, LabelsDefect,
        IsMetricName, MatchCaptures, UsableCaptures;
    RuleFieldsReported(r, at, q);
    MatchReported(lib, r.Match, at, q);
    ValueReported(lib, r.Value, at, q);
    CapturesAreUsable(lib, r.Match);
    LabelsReported(at, UsableCaptures(lib, r.Match), r.Labels, q);
  }

  lemma {:induction false} RulesReported(lib: Lib, path: string, rules: seq<Rule>, q: Problem)
    ensures q in RulesReport(lib, path, rules) <==>
            exists k :: 0 <= k < |rules| && RuleDefect(lib, rules[k], RuleOf(path, k), q.site, q.issue)
  {
    hide RuleReport, RuleDefect;
    if rules != [] {
      var n := |rules| - 1;
      RulesReported(lib, path, rules[..n], q);
      RuleReported(lib, rules[n], RuleOf(path, n), q);
      assert forall k :: 0 <= k < n ==> rules[..n][k] == rules[k];
    }
  }

  lemma SourceFieldsReported(s: Source, q: Problem)
    ensures q in SourceFieldsReport(s) <==>
            q.site == SourceFile(s.Path) &&
            (|| (q.issue == Required("name") && s.Name == "")
             || (q.issue == Required("subscribe") && s.Subscribe == "")
             || (s.QoS.Some? && s.QoS.value > 2 && q.issue == BadQoS(s.QoS.value))
             || (q.issue == NoRules && s.Rules == []))
  {
    hide Row;
    InRow(s.Name == "", SourceFile(s.Path), Required("name"), q);
    InRow(s.Subscribe == "", SourceFile(s.Path), Required("subscribe"), q);
    if s.QoS.Some? { InRow(s.QoS.value > 2, SourceFile(s.Path), BadQoS(s.QoS.value), q); }
    InRow(s.Rules == [], SourceFile(s.Path), NoRules, q);
  }

  lemma SourceReported(lib: Lib, s: Source, q: Problem)
    ensures q in SourceReport(lib, s) <==> SourceDefect(lib, s, q.site, q.issue)
  {
    hide SourceFieldsReport, LabelsReport, LabelsDefect, RulesReport, RuleDefect;
    SourceFieldsReported(s, q);
    LabelsReported(SourceFile(s.Path), {}, s.Labels, q);
    RulesReported(lib, s.Path, s.Rules, q);
  }

  // -------------------------------------------------------- names and consistency

  lemma {:induction false} FirstPathIs(sources: seq<Source>, name: string)
    ensures name in FirstPaths(sources) ==>
              exists i: nat :: NamedFirst(sources, i) && sources[i].Name == name &&
                FirstPaths(sources)[name] == sources[i].Path
    ensures name !in FirstPaths(sources) ==> name == "" || forall i :: 0 <= i < |sources| ==> sources[i].Name != name
  {
    if sources != [] {
      var n := |sources| - 1;
      FirstPathIs(sources[..n], name);
      assert forall i :: 0 <= i < n ==> sources[..n][i] == sources[i];
      if name in FirstPaths(sources[..n]) {
        var i: nat :| NamedFirst(sources[..n], i) && sources[..n][i].Name == name &&
          FirstPaths(sources[..n])[name] == sources[..n][i].Path;
        assert NamedFirst(sources, i);
      } else if name in FirstPaths(sources) {
        assert NamedFirst(sources, n);
      }
    }
  }

  lemma DuplicateReported(sources: seq<Source>, j: nat, q: Problem)
    requires j < |sources|
    ensures q in DuplicateReport(sources[..j], sources[j]) <==> DuplicateDefect(sources, j, q.site, q.issue)
  {
    var before, s := sources[..j], sources[j];
    assert forall i :: 0 <= i < j ==> before[i] == sources[i];
    FirstPathIs(before, s.Name);
    hide FirstPaths;
    if s.Name in FirstPaths(before) {
      var i: nat :| NamedFirst(before, i) && before[i].Name == s.Name && FirstPaths(before)[s.Name] == before[i].Path;
      assert NamedFirst(sources, i);
    }
  }

  lemma DifferenceReported(u: Use, v: Use, q: Problem)
    ensures q in DifferenceReport(ShapeOf(u), v.site, v.name, ShapeOf(v)) <==>
            q.site == v.site && UsesDiffer(u, v, q.issue)
  {
    hide Row, Join;
    var a, b := ShapeOf(u), ShapeOf(v);
    InRow(a.labels != b.labels, v.site, LabelsDiffer(v.name, a.labels, b.labels), q);
    InRow(a.help != b.help, v.site, HelpDiffers(v.name, a.help, b.help), q);
    InRow(a.kind != b.kind, v.site, KindDiffers(v.name, a.kind, b.kind), q);
  }

  lemma UseReported(uses: seq<Use>, j: nat, q: Problem)
    requires j < |uses|
    ensures q in UseReport(uses[..j], uses[j]) <==> UseDefect(uses, j, q.site, q.issue)
  {
    hide ShapeOf, DifferenceReport, UsesDiffer;
    var before, u := uses[..j], uses[j];
    assert forall i :: 0 <= i < j ==> before[i] == uses[i];
    forall i: nat ensures FirstUse(before, i) <==> i < j && FirstUse(uses, i) {}
    if i: nat :| FirstUse(before, i) && before[i].name == u.name {
      DifferenceReported(before[i], u, q);
      assert forall k: nat :: FirstUse(before, k) && before[k].name == u.name ==> k == i;
    }
  }

  lemma {:induction false} ConsistencyReported(before: seq<Use>, uses: seq<Use>, q: Problem)
    ensures q in ConsistencyReport(before, uses) <==>
            exists j: nat :: |before| <= j < |before + uses| && UseDefect(before + uses, j, q.site, q.issue)
  {
    hide UseDefect, UseReport;
    if uses != [] {
      var n, all := |uses| - 1, before + uses;
      ConsistencyReported(before, uses[..n], q);
      var fewer := before + uses[..n];
      assert all[..|fewer|] == fewer && all[|fewer|] == uses[n];
      UseReported(all, |fewer|, q);
      forall j: nat | j < |fewer|
        ensures UseDefect(fewer, j, q.site, q.issue) <==> UseDefect(all, j, q.site, q.issue)
      {
        UseReported(all, j, q);
        UseReported(fewer, j, q);
        assert all[..j] == fewer[..j] && all[j] == fewer[j];
      }
    }
  }

  // ------------------------------------------------------------------ the theorem

  ghost predicate PassDefect(lib: Lib, sources: seq<Source>, site: Where, issue: Issue) {
    || (exists i :: 0 <= i < |sources| && SourceDefect(lib, sources[i], site, issue))
    || (exists j: nat :: j < |sources| && DuplicateDefect(sources, j, site, issue))
    || (exists j: nat :: j < |AllUses(lib, sources)| && UseDefect(AllUses(lib, sources), j, site, issue))
  }

  lemma DuplicateBefore(sources: seq<Source>, n: nat, j: nat, q: Problem)
    requires j < n <= |sources|
    ensures DuplicateDefect(sources[..n], j, q.site, q.issue) <==> DuplicateDefect(sources, j, q.site, q.issue)
  {
    DuplicateReported(sources, j, q);
    DuplicateReported(sources[..n], j, q);
    assert sources[..n][..j] == sources[..j];
  }

  lemma UseBefore(before: seq<Use>, uses: seq<Use>, j: nat, q: Problem)
    requires j < |before|
    ensures UseDefect(before, j, q.site, q.issue) <==> UseDefect(before + uses, j, q.site, q.issue)
  {
    UseReported(before, j, q);
    UseReported(before + uses, j, q);
    assert (before + uses)[..j] == before[..j] && (before + uses)[j] == before[j];
  }

  lemma {:induction false} PassReported(lib: Lib, sources: seq<Source>, q: Problem)
    ensures q in PassReport(lib, sources) <==> PassDefect(lib, sources, q.site, q.issue)
  {
    hide SourceDefect, DuplicateDefect, UseDefect, SourceReport, DuplicateReport, ConsistencyReport, SourceUses;
    if sources == [] {
      assert AllUses(lib, sources) == [];
    } else {
      var n := |sources| - 1;
      var before, s := sources[..n], sources[n];
      PassReported(lib, before, q);
      SourceReported(lib, s, q);
      DuplicateReported(sources, n, q);
      var a, b := AllUses(lib, before), SourceUses(lib, s);
      ConsistencyReported(a, b, q);
      assert AllUses(lib, sources) == a + b;
      forall j: nat | j < n
        ensures DuplicateDefect(before, j, q.site, q.issue) <==> DuplicateDefect(sources, j, q.site, q.issue)
      {
        DuplicateBefore(sources, n, j, q);
      }
      forall j: nat | j < |a|
        ensures UseDefect(a, j, q.site, q.issue) <==> UseDefect(a + b, j, q.site, q.issue)
      {
        UseBefore(a, b, j, q);
      }
      assert forall i :: 0 <= i < n ==> before[i] == sources[i];
      PassParts(lib, sources, before, s, a, b, q);
    }
  }

  /** The defects of the pass are those up to the last source and those of the last. */
  lemma PassParts(lib: Lib, sources: seq<Source>, before: seq<Source>, s: Source, a: seq<Use>, b: seq<Use>, q: Problem)
    requires sources == before + [s] && a == AllUses(lib, before) && AllUses(lib, sources) == a + b
    requires forall j: nat :: j < |before| ==>
               (DuplicateDefect(before, j, q.site, q.issue) <==> DuplicateDefect(sources, j, q.site, q.issue))
    requires forall j: nat :: j < |a| ==>
               (UseDefect(a, j, q.site, q.issue) <==> UseDefect(a + b, j, q.site, q.issue))
    ensures PassDefect(lib, sources, q.site, q.issue) <==>
            || PassDefect(lib, before, q.site, q.issue)
            || SourceDefect(lib, s, q.site, q.issue)
            || DuplicateDefect(sources, |before|, q.site, q.issue)
            || (exists j: nat :: |a| <= j < |a + b| && UseDefect(a + b, j, q.site, q.issue))
  {
    hide SourceDefect, DuplicateDefect, UseDefect, SourceUses;
    var n, all := |before|, a + b;
    assert forall i :: 0 <= i < n ==> before[i] == sources[i];
    assert (exists i :: 0 <= i < |sources| && SourceDefect(lib, sources[i], q.site, q.issue)) <==>
           (exists i :: 0 <= i < n && SourceDefect(lib, before[i], q.site, q.issue)) ||
           SourceDefect(lib, s, q.site, q.issue);
    assert (exists j: nat :: j < |sources| && DuplicateDefect(sources, j, q.site, q.issue)) <==>
           (exists j: nat :: j < n && DuplicateDefect(before, j, q.site, q.issue)) ||
           DuplicateDefect(sources, n, q.site, q.issue);
    assert (exists j: nat :: j < |all| && UseDefect(all, j, q.site, q.issue)) <==>
           (exists j: nat :: j < |a| && UseDefect(a, j, q.site, q.issue)) ||
           (exists j: nat :: |a| <= j < |all| && UseDefect(all, j, q.site, q.issue));
  }

  /** Validate reports exactly the defects of the configuration. */
  lemma ValidateReportsTheDefects(lib: Lib, c: Config, site: Where, issue: Issue)
    ensures Problem(site, issue) in ConfigProblems(lib, c) <==> Defect(lib, c, site, issue)
  {
    hide ConfigProblems, ProcessReport, PassReport, ProcessDefect, SourceDefect, DuplicateDefect, UseDefect;
    ProblemsAreTheReport(lib, c);
    ProcessReported(c, Problem(site, issue));
    PassReported(lib, c.SourceList, Problem(site, issue));
  }
}
