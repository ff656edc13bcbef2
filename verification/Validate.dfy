/** internal/config/validate.go: one accumulating pass over the configuration.
    A problem is kept as where it was found and what it says; the wording is not
    modelled. Each `Add...` function is the problem list a validator extends, and
    the method of the same subject is the validator itself. */
module Validate {
  import opened Text
  import opened Library
  import opened Config
  import opened Labels

  datatype Where =
    | MainFile
    | SourceFile(path: string)
    | RuleOf(path: string, index: nat)
    | LabelOf(site: Where, name: string)

  datatype Issue =
    | Required(field: string)
    | BadQoS(qos: int)
    | BadLogLevel(level: string)
    | NoSources
    | NoRules
    | DuplicateSource(name: string, first: string)
    | BadMetricName(field: string, name: string)
    | BadType(kind: string)
    | BadMatch
    | BadCapture(group: nat, name: string)
    | BadLabelName(name: string)
    | CaptureClash(name: string)
    | UnknownReference(name: string, ref: string)
    | NotAllowed(field: string)
    | BadFrom(from: string)
    | EmptyMapValue
    | BadValueRegex
    | ValueRegexGroups(groups: int)
    | ZeroScale
    | LabelsDiffer(name: string, first: string, other: string)
    | HelpDiffers(name: string, first: string, other: string)
    | KindDiffers(name: string, first: string, other: string)

  datatype Problem = Problem(site: Where, issue: Issue)

  type Problems = seq<Problem>

  function Add(p: Problems, cond: bool, site: Where, issue: Issue): Problems {
    if cond then p + [Problem(site, issue)] else p
  }

  // ------------------------------------------------------------ process fields

  const LOG_LEVELS := {"debug", "info", "warn", "error"}

  function AddMQTT(p: Problems, m: MQTT): Problems {
    var p := Add(p, m.Broker == "", MainFile, Required("mqtt.broker"));
    var p := Add(p, m.ClientID == "", MainFile, Required("mqtt.client_id"));
    var p := Add(p, m.Username == "", MainFile, Required("mqtt.username"));
    var p := Add(p, m.Password == "", MainFile, Required("mqtt.password"));
    var p := match m.QoS
             case None => p + [Problem(MainFile, Required("mqtt.qos"))]
             case Some(q) => Add(p, q > 2, MainFile, BadQoS(q));
    Add(p, m.CleanSession.None?, MainFile, Required("mqtt.clean_session"))
  }

  function AddProcess(p: Problems, c: Config): Problems {
    var p := Add(AddMQTT(p, c.MQTT), c.Server.Listen == "", MainFile, Required("server.listen"));
    var p := if c.Log.Level == "" then p + [Problem(MainFile, Required("log.level"))]
             else Add(p, c.Log.Level !in LOG_LEVELS, MainFile, BadLogLevel(c.Log.Level));
    Add(p, c.SourceList == [], MainFile, NoSources)
  }

  /** The `mqtt` half of validateProcess. */
  method ValidateMQTT(m: MQTT, p0: Problems) returns (p: Problems)
    ensures p == AddMQTT(p0, m)
  {
    p := p0;
    if m.Broker == "" { p := p + [Problem(MainFile, Required("mqtt.broker"))]; }
    if m.ClientID == "" { p := p + [Problem(MainFile, Required("mqtt.client_id"))]; }
    if m.Username == "" { p := p + [Problem(MainFile, Required("mqtt.username"))]; }
    if m.Password == "" { p := p + [Problem(MainFile, Required("mqtt.password"))]; }
    match m.QoS {
      case None => p := p + [Problem(MainFile, Required("mqtt.qos"))];
      case Some(q) => if q > 2 { p := p + [Problem(MainFile, BadQoS(q))]; }
    }
    if m.CleanSession.None? { p := p + [Problem(MainFile, Required("mqtt.clean_session"))]; }
  }

  method ValidateProcess(c: Config, p0: Problems) returns (p: Problems)
    ensures p == AddProcess(p0, c)
  {
    p := ValidateMQTT(c.MQTT, p0);
    if c.Server.Listen == "" { p := p + [Problem(MainFile, Required("server.listen"))]; }
    if c.Log.Level == "" {
      p := p + [Problem(MainFile, Required("log.level"))];
    } else if c.Log.Level !in LOG_LEVELS {
      p := p + [Problem(MainFile, BadLogLevel(c.Log.Level))];
    }
    if c.SourceList == [] { p := p + [Problem(MainFile, NoSources)]; }
  }

  // --------------------------------------------------------------------- values

  /** `NumSubexp`: the groups besides the whole match. */
  function Groups(re: Regexp): int {
    |re.names| - 1
  }

  function AddValue(p: Problems, lib: Lib, v: Value, site: Where): Problems {
    if v.From == "" then p + [Problem(site, Required("value.from"))]
    else if v.From != FROM_JSON && v.From != FROM_RAW then p + [Problem(site, BadFrom(v.From))]
    else
      var p := Add(p, v.From == FROM_JSON && v.Path == "", site, Required("value.path"));
      var p := Add(p, v.From == FROM_RAW && v.Path != "", site, NotAllowed("value.path"));
      var p := if v.Regex == "" then p else
               match lib.compile(v.Regex)
               case None => p + [Problem(site, BadValueRegex)]
               case Some(re) => Add(p, Groups(re) != 1, site, ValueRegexGroups(Groups(re)));
      Add(p, v.Scale == Some(0.0), site, ZeroScale)
  }

  method ValidateValue(lib: Lib, v: Value, site: Where, p0: Problems) returns (p: Problems)
    ensures p == AddValue(p0, lib, v, site)
  {
    p := p0;
    if v.From == "" {
      return p + [Problem(site, Required("value.from"))];
    } else if v.From == FROM_JSON {
      if v.Path == "" { p := p + [Problem(site, Required("value.path"))]; }
    } else if v.From == FROM_RAW {
      if v.Path != "" { p := p + [Problem(site, NotAllowed("value.path"))]; }
    } else {
      return p + [Problem(site, BadFrom(v.From))];
    }
    if v.Regex != "" {
      var re := lib.compile(v.Regex);
      if re.None? {
        p := p + [Problem(site, BadValueRegex)];
      } else if Groups(re.value) != 1 {
        p := p + [Problem(site, ValueRegexGroups(Groups(re.value)))];
      }
    }
    if v.Scale.Some? && v.Scale.value == 0.0 { p := p + [Problem(site, ZeroScale)]; }
  }

  // --------------------------------------------------------------------- labels

  function AddTimes(p: Problems, n: nat, problem: Problem): Problems {
    if n == 0 then p else AddTimes(p, n - 1, problem) + [problem]
  }

  function EmptyValues(m: map<string, string>): set<string> {
    set k | k in m && m[k] == ""
  }

  function AddLabel(p: Problems, l: Label, site: Where): Problems {
    if l.From == "" then p + [Problem(site, Required("from"))]
    else if l.From != FROM_STATIC && l.From != FROM_JSON then p + [Problem(site, BadFrom(l.From))]
    else
      var p := Add(p, l.From == FROM_STATIC && l.Value == "", site, Required("value"));
      var p := Add(p, l.From == FROM_STATIC && l.Path != "", site, NotAllowed("path"));
      var p := Add(p, l.From == FROM_JSON && l.Path == "", site, Required("path"));
      var p := Add(p, l.From == FROM_JSON && l.Value != "", site, NotAllowed("value"));
      if l.Map.None? then p else AddTimes(p, |EmptyValues(l.Map.value)|, Problem(site, EmptyMapValue))
  }

  method ValidateLabel(l: Label, site: Where, p0: Problems) returns (p: Problems)
    ensures p == AddLabel(p0, l, site)
  {
    p := p0;
    if l.From == "" {
      return p + [Problem(site, Required("from"))];
    } else if l.From == FROM_STATIC {
      if l.Value == "" { p := p + [Problem(site, Required("value"))]; }
      if l.Path != "" { p := p + [Problem(site, NotAllowed("path"))]; }
    } else if l.From == FROM_JSON {
      if l.Path == "" { p := p + [Problem(site, Required("path"))]; }
      if l.Value != "" { p := p + [Problem(site, NotAllowed("value"))]; }
    } else {
      return p + [Problem(site, BadFrom(l.From))];
    }
    if l.Map.Some? {
      p := ValidateMapValues(l.Map.value, site, p);
    }
  }

  /** The loop of Label.validate over the map's values, in any order. */
  method ValidateMapValues(m: map<string, string>, site: Where, p0: Problems) returns (p: Problems)
    ensures p == AddTimes(p0, |EmptyValues(m)|, Problem(site, EmptyMapValue))
  {
    p := p0;
    var rest := m.Keys;
    ghost var empty: set<string> := {};
    while rest != {}
      invariant rest <= m.Keys
      invariant empty == set k | k in m.Keys - rest && m[k] == ""
      invariant p == AddTimes(p0, |empty|, Problem(site, EmptyMapValue))
    {
      var k :| k in rest;
      if m[k] == "" {
        p := p + [Problem(site, EmptyMapValue)];
        assert k !in empty;
        empty := empty + {k};
      }
      rest := rest - {k};
    }
    assert empty == EmptyValues(m);
  }

  function AddUnknownRefs(p: Problems, site: Where, name: string, captures: set<string>, refs: seq<string>): Problems {
    if refs == [] then p else
    var n := |refs| - 1;
    Add(AddUnknownRefs(p, site, name, captures, refs[..n]), refs[n] !in captures, site, UnknownReference(name, refs[n]))
  }

  function AddNamedLabel(p: Problems, site: Where, captures: set<string>, name: string, l: Label): Problems {
    var p := Add(p, !IsLabelName(name), site, BadLabelName(name));
    var p := Add(p, name in captures, site, CaptureClash(name));
    var p := AddLabel(p, l, LabelOf(site, name));
    AddUnknownRefs(p, site, name, captures, Refs(l.Value))
  }

  /** The labels called `names`, in that order. */
  function AddLabelList(p: Problems, site: Where, captures: set<string>, labels: map<string, Label>, names: seq<string>)
    : Problems
    requires forall i :: 0 <= i < |names| ==> names[i] in labels
  {
    if names == [] then p else
    var n := |names| - 1;
    AddNamedLabel(AddLabelList(p, site, captures, labels, names[..n]), site, captures, names[n], labels[names[n]])
  }

  ghost function AddLabels(p: Problems, site: Where, captures: set<string>, labels: map<string, Label>): Problems {
    KeysAreSorted(labels);
    AddLabelList(p, site, captures, labels, SortedSeq(labels.Keys))
  }

  lemma KeysAreSorted(labels: map<string, Label>)
    ensures forall i :: 0 <= i < |SortedSeq(labels.Keys)| ==> SortedSeq(labels.Keys)[i] in labels
  {
    forall i | 0 <= i < |SortedSeq(labels.Keys)| ensures SortedSeq(labels.Keys)[i] in labels {
      assert SortedSeq(labels.Keys)[i] in Elements(SortedSeq(labels.Keys));
    }
  }

  method ValidateLabels(site: Where, captures: seq<string>, labels: map<string, Label>,
      p0: Problems) returns (p: Problems)
    ensures p == AddLabels(p0, site, Elements(captures), labels)
  {
    hide AddNamedLabel, SortedSeq, StrictlySorted, Distinct;
    var captureSet := set c | c in captures;
    var listed := ListKeys(labels.Keys);
    var names := SortNames(listed);
    KeysAreSorted(labels);
    p := p0;
    for i := 0 to |names|
      invariant p == AddLabelList(p0, site, captureSet, labels, names[..i])
    {
      p := ValidateNamedLabel(site, captureSet, names[i], labels[names[i]], p);
      assert names[..i + 1][..i] == names[..i];
    }
    assert names[..|names|] == names;
  }

  method ValidateNamedLabel(site: Where, captures: set<string>, name: string, l: Label, p0: Problems)
    returns (p: Problems)
    ensures p == AddNamedLabel(p0, site, captures, name, l)
  {
    p := p0;
    if !IsLabelName(name) { p := p + [Problem(site, BadLabelName(name))]; }
    if name in captures { p := p + [Problem(site, CaptureClash(name))]; }
    p := ValidateLabel(l, LabelOf(site, name), p);
    var refs := TemplateRefs(l.Value);
    ghost var p1 := p;
    for i := 0 to |refs|
      invariant p == AddUnknownRefs(p1, site, name, captures, refs[..i])
    {
      if refs[i] !in captures { p := p + [Problem(site, UnknownReference(name, refs[i]))]; }
      assert refs[..i + 1][..i] == refs[..i];
    }
    assert refs[..|refs|] == refs;
  }

  // ---------------------------------------------------------------------- rules

  function ValidCaptures(names: seq<string>): seq<string> {
    if names == [] then [] else
    var n := |names| - 1;
    ValidCaptures(names[..n]) + if IsLabelName(names[n]) then [names[n]] else []
  }

  function AddCaptures(p: Problems, site: Where, names: seq<string>): Problems {
    if names == [] then p else
    var n := |names| - 1;
    Add(AddCaptures(p, site, names[..n]), names[n] != "" && !IsLabelName(names[n]), site, BadCapture(n, names[n]))
  }

  function MatchCaptures(lib: Lib, m: string): seq<string> {
    if m == "" || lib.compile(m).None? then [] else ValidCaptures(lib.compile(m).value.names)
  }

  function MatchProblems(lib: Lib, m: string, site: Where): Problems {
    if m == "" then [Problem(site, Required("match"))]
    else if lib.compile(m).None? then [Problem(site, BadMatch)]
    else AddCaptures([], site, lib.compile(m).value.names)
  }

  method ValidateMatch(lib: Lib, m: string, site: Where) returns (captures: seq<string>, p: Problems)
    ensures captures == MatchCaptures(lib, m) && p == MatchProblems(lib, m, site)
  {
    if m == "" { return [], [Problem(site, Required("match"))]; }
    var compiled := lib.compile(m);
    if compiled.None? { return [], [Problem(site, BadMatch)]; }
    var names := compiled.value.names;
    captures, p := [], [];
    for i := 0 to |names|
      invariant captures == ValidCaptures(names[..i]) && p == AddCaptures([], site, names[..i])
    {
      assert names[..i + 1][..i] == names[..i];
      if names[i] == "" { continue; }
      if !IsLabelName(names[i]) {
        p := p + [Problem(site, BadCapture(i, names[i]))];
        continue;
      }
      captures := captures + [names[i]];
    }
    assert names[..|names|] == names;
  }

  function AddRuleFields(p: Problems, r: Rule, site: Where): Problems {
    var p := if r.MetricName == "" then p + [Problem(site, Required("metric_name"))]
             else Add(p, !IsMetricName(r.MetricName), site, BadMetricName("metric_name", r.MetricName));
    var p := Add(p, r.LastUpdatedMetric != "" && !IsMetricName(r.LastUpdatedMetric), site,
                 BadMetricName("last_updated_metric", r.LastUpdatedMetric));
    if r.Type == "" then p + [Problem(site, Required("type"))]
    else Add(p, r.Type != TYPE_GAUGE && r.Type != TYPE_COUNTER, site, BadType(r.Type))
  }

  ghost function AddRule(p: Problems, lib: Lib, r: Rule, site: Where): Problems {
    var p := AddRuleFields(p, r, site) + MatchProblems(lib, r.Match, site);
    AddLabels(AddValue(p, lib, r.Value, site), site, Elements(MatchCaptures(lib, r.Match)), r.Labels)
  }

  method ValidateRule(lib: Lib, r: Rule, site: Where, p0: Problems) returns (p: Problems)
    ensures p == AddRule(p0, lib, r, site)
  {
    p := p0;
    if r.MetricName == "" {
      p := p + [Problem(site, Required("metric_name"))];
    } else if !IsMetricName(r.MetricName) {
      p := p + [Problem(site, BadMetricName("metric_name", r.MetricName))];
    }
    if r.LastUpdatedMetric != "" && !IsMetricName(r.LastUpdatedMetric) {
      p := p + [Problem(site, BadMetricName("last_updated_metric", r.LastUpdatedMetric))];
    }
    if r.Type == "" {
      p := p + [Problem(site, Required("type"))];
    } else if r.Type != TYPE_GAUGE && r.Type != TYPE_COUNTER {
      p := p + [Problem(site, BadType(r.Type))];
    }
    assert p == AddRuleFields(p0, r, site);
    var captures, problems := ValidateMatch(lib, r.Match, site);
    p := p + problems;
    p := ValidateValue(lib, r.Value, site, p);
    p := ValidateLabels(site, captures, r.Labels, p);
  }

  // -------------------------------------------------------------------- sources

  ghost function AddRules(p: Problems, lib: Lib, path: string, rules: seq<Rule>): Problems {
    if rules == [] then p else
    var n := |rules| - 1;
    AddRule(AddRules(p, lib, path, rules[..n]), lib, rules[n], RuleOf(path, n))
  }

  function AddSourceFields(p: Problems, s: Source): Problems {
    var p := Add(p, s.Name == "", SourceFile(s.Path), Required("name"));
    var p := Add(p, s.Subscribe == "", SourceFile(s.Path), Required("subscribe"));
    var p := if s.QoS.Some? then Add(p, s.QoS.value > 2, SourceFile(s.Path), BadQoS(s.QoS.value)) else p;
    Add(p, s.Rules == [], SourceFile(s.Path), NoRules)
  }

  ghost function AddSource(p: Problems, lib: Lib, s: Source): Problems {
    AddRules(AddLabels(AddSourceFields(p, s), SourceFile(s.Path), {}, s.Labels), lib, s.Path, s.Rules)
  }

  /** The checks of Source.validate on the source's own fields. */
  method ValidateSourceFields(s: Source, p0: Problems) returns (p: Problems)
    ensures p == AddSourceFields(p0, s)
  {
    p := p0;
    if s.Name == "" { p := p + [Problem(SourceFile(s.Path), Required("name"))]; }
    if s.Subscribe == "" { p := p + [Problem(SourceFile(s.Path), Required("subscribe"))]; }
    if s.QoS.Some? && s.QoS.value > 2 { p := p + [Problem(SourceFile(s.Path), BadQoS(s.QoS.value))]; }
    if s.Rules == [] { p := p + [Problem(SourceFile(s.Path), NoRules)]; }
  }

  lemma AddRulesStep(p: Problems, lib: Lib, path: string, rules: seq<Rule>, i: nat)
    requires i < |rules|
    ensures AddRules(p, lib, path, rules[..i + 1]) ==
            AddRule(AddRules(p, lib, path, rules[..i]), lib, rules[i], RuleOf(path, i))
  {
    assert rules[..i + 1][..i] == rules[..i];
  }

  /** The rule loop of Source.validate. */
  method ValidateRules(lib: Lib, path: string, rules: seq<Rule>, p0: Problems) returns (p: Problems)
    ensures p == AddRules(p0, lib, path, rules)
  {
    p := p0;
    for i := 0 to |rules|
      invariant p == AddRules(p0, lib, path, rules[..i])
    {
      AddRulesStep(p0, lib, path, rules, i);
      p := ValidateRule(lib, rules[i], RuleOf(path, i), p);
    }
    assert rules[..|rules|] == rules;
  }

  method ValidateSource(lib: Lib, s: Source, p0: Problems) returns (p: Problems)
    ensures p == AddSource(p0, lib, s)
  {
    p := ValidateSourceFields(s, p0);
    assert Elements<string>([]) == {};
    p := ValidateLabels(SourceFile(s.Path), [], s.Labels, p);
    p := ValidateRules(lib, s.Path, s.Rules, p);
  }

  // ---------------------------------------------------------------- consistency

  /** One use of a metric family, with the label names as a list. */
  datatype Use = Use(site: Where, name: string, labels: seq<string>, help: string, kind: string)

  /** What the validator remembers of a use: the label names joined by spaces. */
  datatype MetricShape = MetricShape(labels: string, help: string, kind: string)

  function ShapeOf(u: Use): MetricShape {
    MetricShape(Join(u.labels, ' '), u.help, u.kind)
  }

  ghost function RuleLabels(s: Source, r: Rule, re: Regexp): seq<string> {
    SortedSeq(LabelSet(Named(re.names), [r.Labels, s.Labels]))
  }

  ghost function RuleUses(lib: Lib, s: Source, site: Where, r: Rule): seq<Use> {
    if r.MetricName == "" || r.Match == "" || lib.compile(r.Match).None? then [] else
    var labels := RuleLabels(s, r, lib.compile(r.Match).value);
    var use := Use(site, r.MetricName, labels, r.Help, r.Type);
    if r.LastUpdatedMetric == "" then [use]
    else [use, Use(site, r.LastUpdatedMetric, labels, HEARTBEAT_HELP, TYPE_GAUGE)]
  }

  ghost function RuleListUses(lib: Lib, s: Source, rules: seq<Rule>): seq<Use> {
    if rules == [] then [] else
    var n := |rules| - 1;
    RuleListUses(lib, s, rules[..n]) + RuleUses(lib, s, RuleOf(s.Path, n), rules[n])
  }

  ghost function HeartbeatUses(s: Source): seq<Use> {
    if s.LastUpdatedMetric == "" then []
    else [Use(SourceFile(s.Path), s.LastUpdatedMetric, SortedSeq(LabelSet([], [s.Labels])), HEARTBEAT_HELP, TYPE_GAUGE)]
  }

  ghost function SourceUses(lib: Lib, s: Source): seq<Use> {
    RuleListUses(lib, s, s.Rules) + HeartbeatUses(s)
  }

  function AddDifferences(p: Problems, first: MetricShape, site: Where, name: string, other: MetricShape): Problems {
    var p := Add(p, first.labels != other.labels, site, LabelsDiffer(name, first.labels, other.labels));
    var p := Add(p, first.help != other.help, site, HelpDiffers(name, first.help, other.help));
    Add(p, first.kind != other.kind, site, KindDiffers(name, first.kind, other.kind))
  }

  /** The problems so far and the shapes recorded so far. */
  datatype Pass = Pass(p: Problems, seen: map<string, MetricShape>)

  /** The first shape recorded under a name stays; later ones are compared to it. */
  function RecordShape(st: Pass, site: Where, name: string, shape: MetricShape): Pass {
    if name in st.seen then st.(p := AddDifferences(st.p, st.seen[name], site, name, shape))
    else st.(seen := st.seen[name := shape])
  }

  function RecordUses(st: Pass, uses: seq<Use>): Pass {
    if uses == [] then st else
    var u := uses[|uses| - 1];
    RecordShape(RecordUses(st, uses[..|uses| - 1]), u.site, u.name, ShapeOf(u))
  }

  lemma {:induction false} RecordUsesOfConcat(st: Pass, a: seq<Use>, b: seq<Use>)
    ensures RecordUses(st, a + b) == RecordUses(RecordUses(st, a), b)
  {
    if b == [] {
      assert a + b == a;
    } else {
      RecordUsesOfConcat(st, a, b[..|b| - 1]);
      assert (a + b)[..|a + b| - 1] == a + b[..|b| - 1];
    }
  }

  lemma RecordFewUses(st: Pass, uses: seq<Use>)
    requires |uses| <= 2
    ensures |uses| == 1 ==> RecordUses(st, uses) == RecordShape(st, uses[0].site, uses[0].name, ShapeOf(uses[0]))
    ensures |uses| == 2 ==> RecordUses(st, uses) ==
                            RecordShape(RecordShape(st, uses[0].site, uses[0].name, ShapeOf(uses[0])),
                                        uses[1].site, uses[1].name, ShapeOf(uses[1]))
  {
    if |uses| == 2 { RecordFewUses(st, uses[..1]); }
  }

  /** The map of recorded shapes that Validate shares between its sources. */
  class ShapeTable {
    var seen: map<string, MetricShape>

    constructor ()
      ensures seen == map[]
    {
      seen := map[];
    }

    method Record(p0: Problems, site: Where, name: string, shape: MetricShape) returns (p: Problems)
      modifies this
      ensures Pass(p, seen) == RecordShape(Pass(p0, old(seen)), site, name, shape)
    {
      p := p0;
      if name !in seen {
        seen := seen[name := shape];
        return;
      }
      var first := seen[name];
      if first.labels != shape.labels { p := p + [Problem(site, LabelsDiffer(name, first.labels, shape.labels))]; }
      if first.help != shape.help { p := p + [Problem(site, HelpDiffers(name, first.help, shape.help))]; }
      if first.kind != shape.kind { p := p + [Problem(site, KindDiffers(name, first.kind, shape.kind))]; }
    }

    /** The body of the loop in validateMetricConsistency. */
    method RecordRule(lib: Lib, s: Source, site: Where, r: Rule, p0: Problems) returns (p: Problems)
      modifies this
      ensures Pass(p, seen) == RecordUses(Pass(p0, old(seen)), RuleUses(lib, s, site, r))
    {
      p := p0;
      if r.MetricName == "" || r.Match == "" { return; }
      var re := lib.compile(r.Match);
      if re.None? { return; }
      var captures := CaptureNames(re.value);
      var names := LabelNames(captures, [r.Labels, s.Labels]);
      var labels := Join(names, ' ');
      RecordFewUses(Pass(p, seen), RuleUses(lib, s, site, r));
      p := Record(p, site, r.MetricName, MetricShape(labels, r.Help, r.Type));
      if r.LastUpdatedMetric != "" {
        p := Record(p, site, r.LastUpdatedMetric, MetricShape(labels, HEARTBEAT_HELP, TYPE_GAUGE));
      }
    }

    method ValidateMetricConsistency(lib: Lib, s: Source, p0: Problems) returns (p: Problems)
      modifies this
      ensures Pass(p, seen) == RecordUses(Pass(p0, old(seen)), SourceUses(lib, s))
    {
      hide RuleUses, RecordShape, LabelSet;
      p := p0;
      ghost var start := Pass(p0, seen);
      for i := 0 to |s.Rules|
        invariant Pass(p, seen) == RecordUses(start, RuleListUses(lib, s, s.Rules[..i]))
      {
        RecordUsesOfConcat(start, RuleListUses(lib, s, s.Rules[..i]), RuleUses(lib, s, RuleOf(s.Path, i), s.Rules[i]));
        p := RecordRule(lib, s, RuleOf(s.Path, i), s.Rules[i], p);
        assert s.Rules[..i + 1][..i] == s.Rules[..i];
      }
      assert s.Rules[..|s.Rules|] == s.Rules;
      RecordUsesOfConcat(start, RuleListUses(lib, s, s.Rules), HeartbeatUses(s));
      RecordFewUses(Pass(p, seen), HeartbeatUses(s));
      if s.LastUpdatedMetric != "" {
        var names := LabelNames([], [s.Labels]);
        var shape := MetricShape(Join(names, ' '), HEARTBEAT_HELP, TYPE_GAUGE);
        p := Record(p, SourceFile(s.Path), s.LastUpdatedMetric, shape);
      }
    }
  }

  // ------------------------------------------------------------- the whole pass

  /** The file that used each source name first. */
  function FirstPaths(sources: seq<Source>): map<string, string> {
    if sources == [] then map[] else
    var s := sources[|sources| - 1];
    var before := FirstPaths(sources[..|sources| - 1]);
    if s.Name in before || s.Name == "" then before else before[s.Name := s.Path]
  }

  function AddDuplicate(p: Problems, before: map<string, string>, s: Source): Problems {
    if s.Name in before then p + [Problem(SourceFile(s.Path), DuplicateSource(s.Name, before[s.Name]))] else p
  }

  ghost function PassSources(st: Pass, lib: Lib, sources: seq<Source>): Pass {
    if sources == [] then st else
    var before, s := sources[..|sources| - 1], sources[|sources| - 1];
    var st := PassSources(st, lib, before);
    RecordUses(st.(p := AddDuplicate(AddSource(st.p, lib, s), FirstPaths(before), s)), SourceUses(lib, s))
  }

  /** All problems of a configuration, in the order Validate reports them. */
  ghost function ConfigProblems(lib: Lib, c: Config): Problems {
    PassSources(Pass(AddProcess([], c), map[]), lib, c.SourceList).p
  }

  method Validate(lib: Lib, c: Config) returns (p: Problems)
    ensures p == ConfigProblems(lib, c)
  {
    hide AddSource, RecordUses, SourceUses;
    p := ValidateProcess(c, []);
    ghost var start := Pass(p, map[]);
    var seenSource: map<string, string> := map[];
    var shapes := new ShapeTable();
    for i := 0 to |c.SourceList|
      invariant seenSource == FirstPaths(c.SourceList[..i])
      invariant Pass(p, shapes.seen) == PassSources(start, lib, c.SourceList[..i])
    {
      var src := c.SourceList[i];
      assert c.SourceList[..i + 1][..i] == c.SourceList[..i];
      p := ValidateSource(lib, src, p);
      ghost var afterSource := p;
      if src.Name in seenSource {
        p := p + [Problem(SourceFile(src.Path), DuplicateSource(src.Name, seenSource[src.Name]))];
      } else if src.Name != "" {
        seenSource := seenSource[src.Name := src.Path];
      }
      assert p == AddDuplicate(afterSource, FirstPaths(c.SourceList[..i]), src);
      p := shapes.ValidateMetricConsistency(lib, src, p);
    }
    assert c.SourceList[..|c.SourceList|] == c.SourceList;
  }
}
