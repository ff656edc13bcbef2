/** What an accepted configuration is, stated without the pass that decides it,
    and the proof that Validate decides exactly that. */
module Acceptance {
  import opened Text
  import opened Library
  import opened Config
  import opened Labels
  import opened Validate

  ghost predicate ProcessOk(c: Config) {
    && c.MQTT.Broker != "" && c.MQTT.ClientID != "" && c.MQTT.Username != "" && c.MQTT.Password != ""
    && c.MQTT.QoS.Some? && c.MQTT.QoS.value <= 2 && c.MQTT.CleanSession.Some?
    && c.Server.Listen != "" && c.Log.Level in LOG_LEVELS
    && c.SourceList != []
  }

  ghost predicate ValueOk(lib: Lib, v: Value) {
    && (v.From == FROM_JSON || v.From == FROM_RAW)
    && (v.From == FROM_JSON <==> v.Path != "")
    && (v.Regex != "" ==> lib.compile(v.Regex).Some? && |lib.compile(v.Regex).value.names| == 2)
    && v.Scale != Some(0.0)
  }

  ghost predicate LabelOk(l: Label) {
    && (l.From == FROM_STATIC || l.From == FROM_JSON)
    && (l.From == FROM_STATIC <==> l.Value != "")
    && (l.From == FROM_JSON <==> l.Path != "")
    && (l.Map.Some? ==> forall k :: k in l.Map.value ==> l.Map.value[k] != "")
  }

  ghost predicate NamedLabelOk(captures: set<string>, name: string, l: Label) {
    && IsLabelName(name) && name !in captures && LabelOk(l)
    && forall ref :: ref in Refs(l.Value) ==> ref in captures
  }

  ghost predicate LabelsOk(captures: set<string>, labels: map<string, Label>) {
    forall name :: name in labels ==> NamedLabelOk(captures, name, labels[name])
  }

  ghost predicate MatchOk(lib: Lib, m: string) {
    && m != "" && lib.compile(m).Some?
    && forall x :: x in Named(lib.compile(m).value.names) ==> IsLabelName(x)
  }

  ghost function Captures(lib: Lib, m: string): set<string>
    requires lib.compile(m).Some?
  {
    Elements(Named(lib.compile(m).value.names))
  }

  ghost predicate RuleOk(lib: Lib, r: Rule) {
    && IsMetricName(r.MetricName)
    && (r.LastUpdatedMetric == "" || IsMetricName(r.LastUpdatedMetric))
    && (r.Type == TYPE_GAUGE || r.Type == TYPE_COUNTER)
    && MatchOk(lib, r.Match)
    && ValueOk(lib, r.Value)
    && LabelsOk(Captures(lib, r.Match), r.Labels)
  }

  ghost predicate SourceOk(lib: Lib, s: Source) {
    && s.Name != "" && s.Subscribe != ""
    && (s.QoS.Some? ==> s.QoS.value <= 2)
    && s.Rules != []
    && LabelsOk({}, s.Labels)
    && forall i :: 0 <= i < |s.Rules| ==> RuleOk(lib, s.Rules[i])
  }

  /** The metric and heartbeat uses of all sources, in order. */
  ghost function AllUses(lib: Lib, sources: seq<Source>): seq<Use> {
    if sources == [] then [] else
    AllUses(lib, sources[..|sources| - 1]) + SourceUses(lib, sources[|sources| - 1])
  }

  /** Any two uses of one metric name agree on label names, help and kind. */
  ghost predicate UsesAgree(uses: seq<Use>) {
    forall i, j :: 0 <= i < |uses| && 0 <= j < |uses| && uses[i].name == uses[j].name ==> SameFamily(uses[i], uses[j])
  }

  ghost predicate SameFamily(u: Use, v: Use) {
    u.labels == v.labels && u.help == v.help && u.kind == v.kind
  }

  ghost predicate NamesDiffer(sources: seq<Source>) {
    forall i, j :: 0 <= i < j < |sources| ==> sources[i].Name != sources[j].Name
  }

  ghost predicate Accepted(lib: Lib, c: Config) {
    && ProcessOk(c)
    && (forall i :: 0 <= i < |c.SourceList| ==> SourceOk(lib, c.SourceList[i]))
    && NamesDiffer(c.SourceList)
    && UsesAgree(AllUses(lib, c.SourceList))
  }

  // ----------------------------------------- each validator, as a yes or no

  lemma ProcessClean(c: Config)
    ensures AddProcess([], c) == [] <==> ProcessOk(c)
  {
    assert AddMQTT([], c.MQTT) == [] <==>
      && c.MQTT.Broker != "" && c.MQTT.ClientID != "" && c.MQTT.Username != "" && c.MQTT.Password != ""
      && c.MQTT.QoS.Some? && c.MQTT.QoS.value <= 2 && c.MQTT.CleanSession.Some?;
    assert "" !in LOG_LEVELS;
  }

  lemma ValueClean(p: Problems, lib: Lib, v: Value, site: Where)
    ensures AddValue(p, lib, v, site) == [] <==> p == [] && ValueOk(lib, v)
  {
    assert FROM_JSON != FROM_RAW && FROM_JSON != "" && FROM_RAW != "";
  }

  lemma {:induction false} TimesClean(p: Problems, n: nat, problem: Problem)
    ensures AddTimes(p, n, problem) == [] <==> p == [] && n == 0
  {
    if n > 0 { TimesClean(p, n - 1, problem); }
  }

  lemma LabelClean(p: Problems, l: Label, site: Where)
    ensures AddLabel(p, l, site) == [] <==> p == [] && LabelOk(l)
  {
    assert FROM_JSON != FROM_STATIC && FROM_JSON != "" && FROM_STATIC != "";
    if l.Map.Some? {
      var empty := EmptyValues(l.Map.value);
      assert |empty| == 0 <==> empty == {};
      assert empty == {} <==> forall k :: k in l.Map.value ==> l.Map.value[k] != "" by {
        if k :| k in l.Map.value && l.Map.value[k] == "" { assert k in empty; }
      }
      forall q { TimesClean(q, |empty|, Problem(site, EmptyMapValue)); }
    }
  }

  lemma {:induction false} RefsClean(p: Problems, site: Where, name: string, captures: set<string>, refs: seq<string>)
    ensures AddUnknownRefs(p, site, name, captures, refs) == [] <==>
            p == [] && forall ref :: ref in refs ==> ref in captures
  {
    if refs != [] {
      var n := |refs| - 1;
      RefsClean(p, site, name, captures, refs[..n]);
      assert refs == refs[..n] + [refs[n]];
    }
  }

  lemma NamedLabelClean(p: Problems, site: Where, captures: set<string>, name: string, l: Label)
    ensures AddNamedLabel(p, site, captures, name, l) == [] <==> p == [] && NamedLabelOk(captures, name, l)
  {
    var p1 := Add(Add(p, !IsLabelName(name), site, BadLabelName(name)), name in captures, site, CaptureClash(name));
    LabelClean(p1, l, LabelOf(site, name));
    RefsClean(AddLabel(p1, l, LabelOf(site, name)), site, name, captures, Refs(l.Value));
  }

  lemma {:induction false} LabelListClean(p: Problems, site: Where, captures: set<string>,
                                             labels: map<string, Label>, names: seq<string>)
    requires forall i :: 0 <= i < |names| ==> names[i] in labels
    ensures AddLabelList(p, site, captures, labels, names) == [] <==>
            p == [] && forall i :: 0 <= i < |names| ==> NamedLabelOk(captures, names[i], labels[names[i]])
  {
    hide AddNamedLabel, NamedLabelOk;
    if names != [] {
      var n := |names| - 1;
      LabelListClean(p, site, captures, labels, names[..n]);
      NamedLabelClean(AddLabelList(p, site, captures, labels, names[..n]), site, captures, names[n], labels[names[n]]);
    }
  }

  lemma LabelsClean(p: Problems, site: Where, captures: set<string>, labels: map<string, Label>)
    ensures AddLabels(p, site, captures, labels) == [] <==> p == [] && LabelsOk(captures, labels)
  {
    var names := SortedSeq(labels.Keys);
    KeysAreSorted(labels);
    LabelListClean(p, site, captures, labels, names);
    forall name | name in labels ensures exists i :: 0 <= i < |names| && names[i] == name {
      assert name in Elements(names);
    }
  }

  lemma NoEmptyLabelName()
    ensures !IsLabelName("")
  {}

  lemma {:induction false} CapturesClean(site: Where, names: seq<string>)
    ensures AddCaptures([], site, names) == [] <==> forall x :: x in names ==> x == "" || IsLabelName(x)
    ensures AddCaptures([], site, names) == [] ==> forall x :: x in ValidCaptures(names) <==> x in names && x != ""
  {
    NoEmptyLabelName();
    hide IsLabelName;
    if names != [] {
      var n := |names| - 1;
      CapturesClean(site, names[..n]);
      assert names == names[..n] + [names[n]];
    }
  }

  lemma MatchClean(lib: Lib, m: string, site: Where)
    ensures MatchProblems(lib, m, site) == [] <==> MatchOk(lib, m)
    ensures MatchOk(lib, m) ==> Elements(MatchCaptures(lib, m)) == Captures(lib, m)
  {
    if lib.compile(m).Some? {
      var names := lib.compile(m).value.names;
      CapturesClean(site, names);
      forall x { NamedGroups(names, x); }
    }
  }

  lemma RuleClean(p: Problems, lib: Lib, r: Rule, site: Where)
    ensures AddRule(p, lib, r, site) == [] <==> p == [] && RuleOk(lib, r)
  {
    assert TYPE_GAUGE != "" && TYPE_COUNTER != "" && !IsMetricName("");
    var p1 := AddRuleFields(p, r, site) + MatchProblems(lib, r.Match, site);
    assert AddRuleFields(p, r, site) == [] <==>
      && p == [] && IsMetricName(r.MetricName)
      && (r.LastUpdatedMetric == "" || IsMetricName(r.LastUpdatedMetric))
      && (r.Type == TYPE_GAUGE || r.Type == TYPE_COUNTER);
    MatchClean(lib, r.Match, site);
    ValueClean(p1, lib, r.Value, site);
    LabelsClean(AddValue(p1, lib, r.Value, site), site, Elements(MatchCaptures(lib, r.Match)), r.Labels);
  }

  lemma {:induction false} RulesClean(p: Problems, lib: Lib, path: string, rules: seq<Rule>)
    ensures AddRules(p, lib, path, rules) == [] <==> p == [] && forall i :: 0 <= i < |rules| ==> RuleOk(lib, rules[i])
  {
    hide AddRule, RuleOk;
    if rules != [] {
      var n := |rules| - 1;
      RulesClean(p, lib, path, rules[..n]);
      AddRulesStep(p, lib, path, rules, n);
      assert rules[..n + 1] == rules;
      RuleClean(AddRules(p, lib, path, rules[..n]), lib, rules[n], RuleOf(path, n));
    }
  }

  lemma SourceClean(p: Problems, lib: Lib, s: Source)
    ensures AddSource(p, lib, s) == [] <==> p == [] && SourceOk(lib, s)
    ensures SourceOk(lib, s) ==> s.Name != ""
  {
    var p1 := AddSourceFields(p, s);
    var p2 := AddLabels(p1, SourceFile(s.Path), {}, s.Labels);
    LabelsClean(p1, SourceFile(s.Path), {}, s.Labels);
    RulesClean(p2, lib, s.Path, s.Rules);
  }

  // ------------------------------------------------ the pass over the shapes

  ghost predicate ShapesAgree(uses: seq<Use>) {
    forall i, j :: 0 <= i < |uses| && 0 <= j < |uses| && uses[i].name == uses[j].name ==>
        ShapeOf(uses[i]) == ShapeOf(uses[j])
  }

  ghost predicate RecordedFrom(seen: map<string, MetricShape>, uses: seq<Use>) {
    && (forall i :: 0 <= i < |uses| ==> uses[i].name in seen)
    && (forall name :: name in seen ==>
          exists i :: 0 <= i < |uses| && uses[i].name == name && ShapeOf(uses[i]) == seen[name])
  }

  /** Comparing each use with the first recorded shape finds a problem exactly
      when some two uses differ. */
  lemma {:induction false} FirstShapeDecides(p: Problems, uses: seq<Use>)
    ensures RecordedFrom(RecordUses(Pass(p, map[]), uses).seen, uses)
    ensures RecordUses(Pass(p, map[]), uses).p == [] <==> p == [] && ShapesAgree(uses)
  {
    hide ShapesAgree, RecordedFrom, RecordShape, Fits;
    if uses == [] {
      EmptyRecord(p);
    } else {
      var before, u := uses[..|uses| - 1], uses[|uses| - 1];
      var st := RecordUses(Pass(p, map[]), before);
      FirstShapeDecides(p, before);
      assert uses == before + [u];
      StaysRecorded(st, before, u);
      RecordClean(st, u);
      AgreeWithOneMore(st.seen, before, u);
    }
  }

  /** The use agrees with what was recorded first under its name. */
  ghost predicate Fits(seen: map<string, MetricShape>, u: Use) {
    u.name in seen ==> seen[u.name] == ShapeOf(u)
  }

  lemma EmptyRecord(p: Problems)
    ensures RecordedFrom(Pass(p, map[]).seen, []) && ShapesAgree([])
  {}

  lemma RecordClean(st: Pass, u: Use)
    ensures RecordShape(st, u.site, u.name, ShapeOf(u)).p == [] <==> st.p == [] && Fits(st.seen, u)
  {}

  lemma StaysRecorded(st: Pass, before: seq<Use>, u: Use)
    requires RecordedFrom(st.seen, before)
    ensures RecordedFrom(RecordShape(st, u.site, u.name, ShapeOf(u)).seen, before + [u])
  {
    var seen := RecordShape(st, u.site, u.name, ShapeOf(u)).seen;
    var uses := before + [u];
    forall name | name in seen
      ensures exists i :: 0 <= i < |uses| && uses[i].name == name && ShapeOf(uses[i]) == seen[name]
    {
      if name in st.seen {
        var i :| 0 <= i < |before| && before[i].name == name && ShapeOf(before[i]) == st.seen[name];
        assert uses[i] == before[i];
      } else {
        assert uses[|before|] == u;
      }
    }
  }

  lemma AgreeWithOneMore(seen: map<string, MetricShape>, before: seq<Use>, u: Use)
    requires RecordedFrom(seen, before)
    ensures ShapesAgree(before + [u]) <==> ShapesAgree(before) && Fits(seen, u)
  {
    if ShapesAgree(before + [u]) { AgreeBefore(seen, before, u); }
    if ShapesAgree(before) && Fits(seen, u) { AgreeAfter(seen, before, u); }
  }

  lemma AgreeBefore(seen: map<string, MetricShape>, before: seq<Use>, u: Use)
    requires RecordedFrom(seen, before) && ShapesAgree(before + [u])
    ensures ShapesAgree(before) && Fits(seen, u)
  {
    hide ShapeOf;
    var uses := before + [u];
    assert uses[|before|] == u && forall j :: 0 <= j < |before| ==> uses[j] == before[j];
    forall j, k | 0 <= j < |before| && 0 <= k < |before| && before[j].name == before[k].name
      ensures ShapeOf(before[j]) == ShapeOf(before[k])
    {
      assert ShapeOf(uses[j]) == ShapeOf(uses[k]);
    }
    if u.name in seen {
      var i :| 0 <= i < |before| && before[i].name == u.name && ShapeOf(before[i]) == seen[u.name];
      assert ShapeOf(uses[i]) == ShapeOf(uses[|before|]);
    }
  }

  lemma AgreeAfter(seen: map<string, MetricShape>, before: seq<Use>, u: Use)
    requires RecordedFrom(seen, before) && ShapesAgree(before) && Fits(seen, u)
    ensures ShapesAgree(before + [u])
  {
    hide ShapeOf;
    forall j | 0 <= j < |before| && before[j].name == u.name ensures ShapeOf(before[j]) == ShapeOf(u) {
      var i :| 0 <= i < |before| && before[i].name == u.name && ShapeOf(before[i]) == seen[u.name];
      assert ShapeOf(before[i]) == ShapeOf(before[j]);
    }
  }

  /** What the pass records, and whether it adds a problem, do not depend on the
      problems already there. */
  lemma {:induction false} RecordingIgnoresProblems(p: Problems, q: Problems, seen: map<string, MetricShape>,
      uses: seq<Use>)
    ensures RecordUses(Pass(p, seen), uses).seen == RecordUses(Pass(q, seen), uses).seen
    ensures RecordUses(Pass(p, seen), uses).p == [] <==> p == [] && RecordUses(Pass([], seen), uses).p == []
    decreases |uses|
  {
    if uses != [] {
      var n := |uses| - 1;
      RecordingIgnoresProblems(p, q, seen, uses[..n]);
      RecordingIgnoresProblems([], q, seen, uses[..n]);
    }
  }

  lemma {:induction false} FirstPathsAreNames(sources: seq<Source>, name: string)
    ensures name in FirstPaths(sources) <==> name != "" && exists i :: 0 <= i < |sources| && sources[i].Name == name
  {
    if sources != [] {
      var n := |sources| - 1;
      FirstPathsAreNames(sources[..n], name);
      assert sources == sources[..n] + [sources[n]];
      if i :| 0 <= i < |sources| && sources[i].Name == name {
        assert i < n ==> sources[..n][i].Name == name;
      }
      if i :| 0 <= i < n && sources[..n][i].Name == name { assert sources[i].Name == name; }
    }
  }

  ghost predicate SourcesOk(lib: Lib, sources: seq<Source>) {
    && (forall i :: 0 <= i < |sources| ==> SourceOk(lib, sources[i]))
    && NamesDiffer(sources)
    && ShapesAgree(AllUses(lib, sources))
  }

  lemma {:induction false} SourcesClean(p: Problems, lib: Lib, sources: seq<Source>)
    ensures PassSources(Pass(p, map[]), lib, sources).seen == RecordUses(Pass([], map[]), AllUses(lib, sources)).seen
    ensures PassSources(Pass(p, map[]), lib, sources).p == [] <==> p == [] && SourcesOk(lib, sources)
  {
    hide AddSource, SourceOk, RecordUses, ShapesAgree, NamesDiffer, SourceUses, FirstPaths;
    if sources == [] {
      FirstShapeDecides([], []);
      EmptyRecord([]);
      NoNames();
      assert AllUses(lib, sources) == [];
    } else {
      var before, s := sources[..|sources| - 1], sources[|sources| - 1];
      assert sources == before + [s];
      SourcesClean(p, lib, before);
      var st := PassSources(Pass(p, map[]), lib, before);
      SourceClean(st.p, lib, s);
      FirstPathsAreNames(before, s.Name);
      NamesOfOneMore(before, s);
      var p2 := AddDuplicate(AddSource(st.p, lib, s), FirstPaths(before), s);
      UsesOfOneMore(p2, AllUses(lib, before), SourceUses(lib, s));
      SourcesOfOneMore(lib, before, s);
    }
  }

  lemma NoNames()
    ensures NamesDiffer([])
  {}

  /** One more source in the pass, started from any problem list `p`. */
  lemma UsesOfOneMore(p: Problems, before: seq<Use>, uses: seq<Use>)
    ensures RecordUses(Pass(p, RecordUses(Pass([], map[]), before).seen), uses).seen ==
            RecordUses(Pass([], map[]), before + uses).seen
    ensures ShapesAgree(before + uses) ==> ShapesAgree(before)
    ensures RecordUses(Pass(p, RecordUses(Pass([], map[]), before).seen), uses).p == [] ==> p == []
    ensures ShapesAgree(before) ==>
            (RecordUses(Pass(p, RecordUses(Pass([], map[]), before).seen), uses).p == [] <==>
             p == [] && ShapesAgree(before + uses))
  {
    hide ShapesAgree, RecordUses;
    var st := RecordUses(Pass([], map[]), before);
    RecordUsesOfConcat(Pass([], map[]), before, uses);
    RecordingIgnoresProblems(p, st.p, st.seen, uses);
    RecordingIgnoresProblems(st.p, p, st.seen, uses);
    FirstShapeDecides([], before);
    FirstShapeDecides([], before + uses);
  }

  lemma SourcesOfOneMore(lib: Lib, before: seq<Source>, s: Source)
    ensures (forall i :: 0 <= i < |before + [s]| ==> SourceOk(lib, (before + [s])[i])) <==>
            SourceOk(lib, s) && forall i :: 0 <= i < |before| ==> SourceOk(lib, before[i])
  {
    hide SourceOk;
    var sources := before + [s];
    assert sources[|before|] == s && forall i :: 0 <= i < |before| ==> sources[i] == before[i];
  }

  lemma NamesOfOneMore(before: seq<Source>, s: Source)
    ensures NamesDiffer(before + [s]) <==>
            NamesDiffer(before) && !exists i :: 0 <= i < |before| && before[i].Name == s.Name
  {
    var sources := before + [s];
    if NamesDiffer(sources) {
      forall i, j | 0 <= i < j < |before| ensures before[i].Name != before[j].Name {
        assert sources[i] == before[i] && sources[j] == before[j];
      }
      forall i | 0 <= i < |before| ensures before[i].Name != s.Name {
        assert sources[i] == before[i] && sources[|before|] == s;
      }
    }
  }

  // ------------------------------------------- joined label names are faithful

  ghost predicate LabelNamesOnly(names: seq<string>) {
    forall i :: 0 <= i < |names| ==> IsLabelName(names[i])
  }

  /** A space cannot occur in a label name, so the joined text determines the list. */
  lemma JoinedNamesAreFaithful(a: seq<string>, b: seq<string>)
    requires LabelNamesOnly(a) && LabelNamesOnly(b)
    ensures Join(a, ' ') == Join(b, ' ') <==> a == b
  {
    if Join(a, ' ') == Join(b, ' ') {
      JoinOfNamesIsEmpty(a);
      JoinOfNamesIsEmpty(b);
      assert Without(' ', a) && Without(' ', b);
      JoinInjective(a, b, ' ');
    }
  }

  lemma JoinOfNamesIsEmpty(a: seq<string>)
    requires LabelNamesOnly(a)
    ensures Join(a, ' ') == "" <==> a == []
  {
    if a != [] { assert IsLabelName(a[0]); }
  }

  lemma SortedLabelNames(names: set<string>)
    requires forall x :: x in names ==> IsLabelName(x)
    ensures LabelNamesOnly(SortedSeq(names))
  {
    var s := SortedSeq(names);
    forall i | 0 <= i < |s| ensures IsLabelName(s[i]) { assert s[i] in Elements(s); }
  }

  lemma DeclaredByTwo(a: map<string, Label>, b: map<string, Label>)
    ensures Declared([a, b]) == a.Keys + b.Keys
    ensures Declared([a]) == a.Keys
  {
    assert [a, b][1..] == [b] && [a][1..] == [];
    ConsumedByOne(b);
    ConsumedByOne(a);
  }

  lemma {:induction false} RuleUsesNames(lib: Lib, s: Source, rules: seq<Rule>)
    requires LabelsOk({}, s.Labels)
    requires forall i :: 0 <= i < |rules| ==> RuleOk(lib, rules[i])
    ensures forall u :: u in RuleListUses(lib, s, rules) ==> LabelNamesOnly(u.labels)
  {
    if rules != [] {
      var n := |rules| - 1;
      RuleUsesNames(lib, s, rules[..n]);
      var r := rules[n];
      DeclaredByTwo(r.Labels, s.Labels);
      SortedLabelNames(LabelSet(Named(lib.compile(r.Match).value.names), [r.Labels, s.Labels]));
    }
  }

  lemma SourceUsesNames(lib: Lib, s: Source)
    requires SourceOk(lib, s)
    ensures forall u :: u in SourceUses(lib, s) ==> LabelNamesOnly(u.labels)
  {
    RuleUsesNames(lib, s, s.Rules);
    DeclaredByTwo(s.Labels, s.Labels);
    SortedLabelNames(LabelSet([], [s.Labels]));
  }

  lemma {:induction false} AllUsesNames(lib: Lib, sources: seq<Source>)
    requires forall i :: 0 <= i < |sources| ==> SourceOk(lib, sources[i])
    ensures forall u :: u in AllUses(lib, sources) ==> LabelNamesOnly(u.labels)
  {
    hide LabelNamesOnly, SourceOk, SourceUses;
    if sources != [] {
      var n := |sources| - 1;
      AllUsesNames(lib, sources[..n]);
      SourceUsesNames(lib, sources[n]);
    }
  }

  lemma ShapesAreFaithful(uses: seq<Use>)
    requires forall u :: u in uses ==> LabelNamesOnly(u.labels)
    ensures ShapesAgree(uses) <==> UsesAgree(uses)
  {
    forall i, j | 0 <= i < |uses| && 0 <= j < |uses|
      ensures ShapeOf(uses[i]) == ShapeOf(uses[j]) <==> SameFamily(uses[i], uses[j])
    {
      JoinedNamesAreFaithful(uses[i].labels, uses[j].labels);
    }
  }

  /** Validate reports nothing exactly for the accepted configurations: every
      field is well formed and all uses of every metric family, in all sources,
      agree pairwise on label names, help and kind. */
  lemma ValidateDecidesAcceptance(lib: Lib, c: Config)
    ensures ConfigProblems(lib, c) == [] <==> Accepted(lib, c)
  {
    ProcessClean(c);
    SourcesClean(AddProcess([], c), lib, c.SourceList);
    if forall i :: 0 <= i < |c.SourceList| ==> SourceOk(lib, c.SourceList[i]) {
      AllUsesNames(lib, c.SourceList);
      ShapesAreFaithful(AllUses(lib, c.SourceList));
    }
  }
}
