/** What acceptance by Validate buys at run time: compiling cannot fail, no index
    or template reference is unbound, and every sample written belongs to a use
    the validator checked. From that: metric families agree in every reachable
    store, and each series exports what was written to it. */
module Soundness {
  import opened Text
  import opened Library
  import opened Config
  import opened Labels
  import opened Validate
  import opened Acceptance
  import opened Payloads
  import opened Rules
  import opened SeriesStore
  import opened StoreLaws
  import opened Sources
  import opened Clashes

  // -------------------------------------------------------------- compilation

  /** `cs` is `s`, compiled. */
  ghost predicate CompiledFrom(lib: Lib, c: Config, s: Source, cs: CompiledSource)
    requires c.MQTT.QoS.Some?
  {
    && cs == SourceForm(c, s, cs.rules)
    && |cs.rules| == |s.Rules|
    && forall j :: 0 <= j < |s.Rules| ==> CompiledForm(lib, s, s.Rules[j]) == Good(cs.rules[j])
  }

  lemma RuleCompiles(lib: Lib, s: Source, r: Rule)
    requires RuleOk(lib, r)
    ensures CompiledForm(lib, s, r).Good? && HasGroup(CompiledForm(lib, s, r).value.value)
  {}

  lemma {:induction false} RulesCompile(lib: Lib, s: Source, rules: seq<Rule>)
    requires forall j :: 0 <= j < |rules| ==> RuleOk(lib, rules[j])
    ensures var r := RulesForm(lib, s, rules);
            && r.GoodRules? && |r.rules| == |rules| && ReadyRules(r.rules)
            && forall j :: 0 <= j < |rules| ==> CompiledForm(lib, s, rules[j]) == Good(r.rules[j])
  {
    hide CompiledForm, RuleOk;
    if rules != [] {
      var n := |rules| - 1;
      RulesCompile(lib, s, rules[..n]);
      RuleCompiles(lib, s, rules[n]);
    }
  }

  lemma LabelsAreDeclared(labels: map<string, Label>)
    ensures AllDeclared(CompiledLabels(labels))
  {
    KeysAreSorted(labels);
  }

  lemma {:induction false} SourcesCompile(lib: Lib, c: Config, sources: seq<Source>)
    requires c.MQTT.QoS.Some?
    requires forall i :: 0 <= i < |sources| ==> SourceOk(lib, sources[i])
    ensures var r := SourcesForm(lib, c, sources);
            && r.GoodSources? && |r.sources| == |sources|
            && forall i :: 0 <= i < |sources| ==> CompiledFrom(lib, c, sources[i], r.sources[i]) && Ready(r.sources[i])
  {
    hide CompiledForm, RuleOk, ReadyRules, AllDeclared, CompiledLabels, LabelsOk;
    if sources != [] {
      var n := |sources| - 1;
      SourcesCompile(lib, c, sources[..n]);
      RulesCompile(lib, sources[n], sources[n].Rules);
      LabelsAreDeclared(sources[n].Labels);
    }
  }

  /** The compiled sources of an accepted configuration. */
  ghost function CompiledSources(lib: Lib, c: Config): (sources: seq<CompiledSource>)
    requires Accepted(lib, c)
    ensures |sources| == |c.SourceList| && AllReady(sources)
  {
    SourcesCompile(lib, c, c.SourceList);
    SourcesForm(lib, c, c.SourceList).sources
  }

  lemma CompiledSourcesAre(lib: Lib, c: Config)
    requires Accepted(lib, c)
    ensures SourcesForm(lib, c, c.SourceList) == GoodSources(CompiledSources(lib, c))
    ensures forall i :: 0 <= i < |c.SourceList| ==> CompiledFrom(lib, c, c.SourceList[i], CompiledSources(lib, c)[i])
  {
    SourcesCompile(lib, c, c.SourceList);
  }

  /** After a successful Validate the sources compile, every source is ready for
      any message, and its quality of service is one of MQTT's three. */
  lemma AcceptedConfigCompiles(lib: Lib, c: Config)
    requires ConfigProblems(lib, c) == []
    ensures c.MQTT.QoS.Some?
    ensures var r := SourcesForm(lib, c, c.SourceList);
            && r.GoodSources? && |r.sources| == |c.SourceList|
            && forall i :: 0 <= i < |r.sources| ==>
                 CompiledFrom(lib, c, c.SourceList[i], r.sources[i]) && Ready(r.sources[i]) && r.sources[i].qos <= 2
  {
    ValidateDecidesAcceptance(lib, c);
    CompiledSourcesAre(lib, c);
    var sources := CompiledSources(lib, c);
    forall i | 0 <= i < |sources| ensures sources[i].qos <= 2 {
      assert SourceOk(lib, c.SourceList[i]);
    }
  }

  lemma EmptyBySet(s: seq<string>)
    ensures s == [] <==> Elements(s) == {}
  {
    if s != [] { NonEmpty(s); }
  }

  /** A source's labels have no captures to refer to. */
  lemma SourceLabelsReferNothing(labels: map<string, Label>)
    requires LabelsOk({}, labels)
    ensures forall name :: name in labels ==> Refs(labels[name].Value) == []
  {
    forall name | name in labels ensures Refs(labels[name].Value) == [] {
      var refs := Refs(labels[name].Value);
      EmptyBySet(refs);
      assert NamedLabelOk({}, name, labels[name]);
      assert Elements(refs) <= {};
    }
  }

  /** On a match, every automatic label is captured and every template reference
      of every static label has a value. */
  lemma TemplatesAreBound(lib: Lib, s: Source, r: Rule, topic: string)
    requires SourceOk(lib, s) && RuleOk(lib, r)
    requires lib.compile(r.Match).value.find(topic).Some?
    ensures var cr := CompiledForm(lib, s, r).value;
            var captured := Captured(cr.re.names, cr.re.find(topic).value);
            && (forall name :: name in cr.autoLabels && name !in cr.labels.extractors ==> name in captured)
            && (forall name, ref ::
                  name in cr.labels.extractors && ref in Refs(cr.labels.extractors[name].template) ==> ref in captured)
  {
    var cr := CompiledForm(lib, s, r).value;
    CapturedKeys(cr.re.names, cr.re.find(topic).value);
    var declared := s.Labels + r.Labels;
    ConsumedByOne(declared);
    SourceLabelsReferNothing(s.Labels);
    forall name | name in cr.autoLabels && name !in cr.labels.extractors
      ensures name in Elements(Named(cr.re.names))
    {
      assert name in Elements(cr.autoLabels);
    }
    forall name, ref | name in declared && ref in Refs(declared[name].Value) ensures ref in Captures(lib, r.Match) {
      if name in r.Labels { assert NamedLabelOk(Captures(lib, r.Match), name, r.Labels[name]); }
    }
  }

  // ------------------------------------------------- writes belong to checked uses

  /** The label names predicted by the validator are those of the compiled rule. */
  lemma PredictedLabels(lib: Lib, s: Source, r: Rule)
    requires LabelsOk({}, s.Labels) && RuleOk(lib, r)
    ensures CompiledForm(lib, s, r).value.autoLabels == RuleLabels(s, r, lib.compile(r.Match).value)
  {
    SourceLabelsReferNothing(s.Labels);
    PredictionMatchesMerge(Named(lib.compile(r.Match).value.names), r.Labels, s.Labels);
  }

  lemma RuleWritesAreChecked(lib: Lib, s: Source, site: Where, r: Rule, now: real, msg: Message)
    requires LabelsOk({}, s.Labels) && RuleOk(lib, r)
    ensures var cr := CompiledForm(lib, s, r).value;
            forall w :: w in RuleEffect(lib, cr, now, msg).writes ==> Checked(RuleUses(lib, s, site, r), w)
  {
    hide Evaluate, RuleLabels, LabelsOk;
    RuleCompiles(lib, s, r);
    var cr := CompiledForm(lib, s, r).value;
    PredictedLabels(lib, s, r);
    ProducedLabels(lib, cr, msg.Topic, msg.Payload);
    NoEmptyMetricName();
    var uses := RuleUses(lib, s, site, r);
    var e := RuleEffect(lib, cr, now, msg);
    if e.writes != [] {
      var labels := SortedSeq(e.writes[0].labels.Keys);
      assert labels == cr.autoLabels by { SortedAgain(cr.autoLabels, LabelSet(Named(cr.re.names),
          [s.Labels + r.Labels])); }
      assert Conforms(e.writes[0], uses[0]);
      assert |e.writes| == 2 ==> Conforms(e.writes[1], uses[1]);
    }
  }

  lemma NoEmptyMetricName()
    ensures !IsMetricName("")
  {}

  lemma SortedAgain(list: seq<string>, names: set<string>)
    requires list == SortedSeq(names)
    ensures SortedSeq(Elements(list)) == list
  {}

  lemma {:induction false} RulesWritesAreChecked(lib: Lib, s: Source, rules: seq<Rule>,
      compiled: seq<CompiledRule>, now: real, msg: Message)
    requires LabelsOk({}, s.Labels) && ReadyRules(compiled) && |rules| == |compiled|
    requires forall j :: 0 <= j < |rules| ==>
               RuleOk(lib, rules[j]) && CompiledForm(lib, s, rules[j]) == Good(compiled[j])
    ensures forall w :: w in RulesEffect(lib, compiled, now, msg).writes ==> Checked(RuleListUses(lib, s, rules), w)
  {
    hide RuleOk, CompiledForm, LabelsOk, RuleEffect, RuleUses, Conforms;
    if rules != [] {
      var n := |rules| - 1;
      RulesWritesAreChecked(lib, s, rules[..n], compiled[..n], now, msg);
      RuleWritesAreChecked(lib, s, RuleOf(s.Path, n), rules[n], now, msg);
    }
  }

  lemma HeartbeatIsChecked(lib: Lib, c: Config, s: Source, cs: CompiledSource, now: real, body: string)
    requires c.MQTT.QoS.Some? && CompiledFrom(lib, c, s, cs)
    ensures forall w :: w in HeartbeatEffect(lib, cs, now, body).writes ==> Checked(HeartbeatUses(s), w)
  {
    hide ResolvedLabels;
    ResolvedNames(lib, cs.labels.extractors, cs.labels.names, map[], body);
    DeclaredByTwo(s.Labels, s.Labels);
    assert LabelSet([], [s.Labels]) == s.Labels.Keys;
    forall w | w in HeartbeatEffect(lib, cs, now, body).writes ensures Checked(HeartbeatUses(s), w) {
      assert Conforms(w, HeartbeatUses(s)[0]);
    }
  }

  /** Every write of a compiled source has the shape of one of the uses the
      validator compared. */
  lemma SourceWritesAreChecked(lib: Lib, c: Config, s: Source, cs: CompiledSource, now: real, msg: Message)
    requires c.MQTT.QoS.Some? && SourceOk(lib, s) && CompiledFrom(lib, c, s, cs) && Ready(cs)
    ensures forall w :: w in SourceEffect(lib, cs, now, msg).writes ==> Checked(SourceUses(lib, s), w)
  {
    hide RuleOk, CompiledForm, LabelsOk, RulesEffect, HeartbeatEffect, RuleListUses, HeartbeatUses, Conforms;
    RulesWritesAreChecked(lib, s, s.Rules, cs.rules, now, msg);
    HeartbeatIsChecked(lib, c, s, cs, now, msg.Payload);
  }

  lemma {:induction false} UsesAreCollected(lib: Lib, sources: seq<Source>, i: nat, u: Use)
    requires i < |sources| && u in SourceUses(lib, sources[i])
    ensures u in AllUses(lib, sources)
  {
    hide SourceUses;
    if i < |sources| - 1 { UsesAreCollected(lib, sources[..|sources| - 1], i, u); }
  }

  /** A write the program can make under the configuration. */
  ghost predicate Possible(lib: Lib, c: Config, w: Write)
    requires Accepted(lib, c)
  {
    exists i, now, msg :: 0 <= i < |c.SourceList| && w in SourceEffect(lib, CompiledSources(lib, c)[i], now, msg).writes
  }

  lemma PossibleWritesAreChecked(lib: Lib, c: Config, w: Write)
    requires Accepted(lib, c) && Possible(lib, c, w)
    ensures Checked(AllUses(lib, c.SourceList), w)
  {
    hide SourceOk, CompiledFrom, SourceEffect, SourceUses, UsesAgree;
    var i, now, msg :| 0 <= i < |c.SourceList| && w in SourceEffect(lib, CompiledSources(lib, c)[i], now, msg).writes;
    CompiledSourcesAre(lib, c);
    SourceWritesAreChecked(lib, c, c.SourceList[i], CompiledSources(lib, c)[i], now, msg);
    var u :| u in SourceUses(lib, c.SourceList[i]) && Conforms(w, u);
    UsesAreCollected(lib, c.SourceList, i, u);
  }

  // ---------------------------------------------------------- reachable stores

  /** A source's `last_updated_metric` is the one name Validate does not check
      against the pattern. */
  ghost predicate CleanHeartbeats(c: Config) {
    forall i :: 0 <= i < |c.SourceList| ==> Clean(c.SourceList[i].LastUpdatedMetric)
  }

  lemma MetricNamesAreClean(name: string)
    requires IsMetricName(name)
    ensures Clean(name)
  {}

  lemma {:induction false} RuleNamesAreClean(lib: Lib, s: Source, rules: seq<Rule>)
    requires forall j :: 0 <= j < |rules| ==> RuleOk(lib, rules[j])
    ensures forall u :: u in RuleListUses(lib, s, rules) ==> Clean(u.name)
  {
    hide Clean, RuleLabels, IsMetricName, LabelsOk, ValueOk;
    if rules != [] {
      var n := |rules| - 1;
      var r := rules[n];
      RuleNamesAreClean(lib, s, rules[..n]);
      MetricNamesAreClean(r.MetricName);
      if r.LastUpdatedMetric != "" { MetricNamesAreClean(r.LastUpdatedMetric); }
    }
  }

  lemma {:induction false} UseNamesAreClean(lib: Lib, sources: seq<Source>)
    requires forall i :: 0 <= i < |sources| ==> SourceOk(lib, sources[i]) && Clean(sources[i].LastUpdatedMetric)
    ensures forall u :: u in AllUses(lib, sources) ==> Clean(u.name)
  {
    hide Clean, RuleListUses, RuleOk, LabelsOk;
    if sources != [] {
      var n := |sources| - 1;
      UseNamesAreClean(lib, sources[..n]);
      RuleNamesAreClean(lib, sources[n], sources[n].Rules);
    }
  }

  /** With NUL-free source heartbeats all names are apart, so nothing clashes. */
  lemma CleanHeartbeatsNeverClash(lib: Lib, c: Config)
    requires Accepted(lib, c) && CleanHeartbeats(c)
    ensures NamesApart(AllUses(lib, c.SourceList)) && HarmlessClashes(AllUses(lib, c.SourceList))
  {
    hide Clean, SourceOk, Family, HarmlessClashes;
    UseNamesAreClean(lib, c.SourceList);
    forall u | u in AllUses(lib, c.SourceList) ensures Family(u.name) == u.name { FamilyOfCleanName(u.name); }
    NamesApartNeverClash(AllUses(lib, c.SourceList));
  }

  ghost predicate AllPossible(lib: Lib, c: Config, ws: seq<Write>)
    requires Accepted(lib, c)
  {
    forall i :: 0 <= i < |ws| ==> Possible(lib, c, ws[i])
  }

  lemma PossibleRunIsChecked(lib: Lib, c: Config, ws: seq<Write>)
    requires Accepted(lib, c) && AllPossible(lib, c, ws)
    ensures AllChecked(AllUses(lib, c.SourceList), ws) && UsesAgree(AllUses(lib, c.SourceList))
  {
    hide Possible, Checked, UsesAgree, SourceOk;
    forall i | 0 <= i < |ws| ensures Checked(AllUses(lib, c.SourceList), ws[i]) {
      PossibleWritesAreChecked(lib, c, ws[i]);
    }
  }

  // The uses of an accepted configuration are shaped as the exact condition needs.

  lemma {:induction false} RuleUsesAreShaped(lib: Lib, s: Source, rules: seq<Rule>)
    requires forall j :: 0 <= j < |rules| ==> RuleOk(lib, rules[j])
    ensures forall u :: u in RuleListUses(lib, s, rules) ==> Shaped(u)
  {
    hide LabelSet, IsMetricName, LabelsOk, ValueOk;
    if rules != [] {
      var n := |rules| - 1;
      var r := rules[n];
      RuleUsesAreShaped(lib, s, rules[..n]);
      if lib.compile(r.Match).Some? {
        var re := lib.compile(r.Match).value;
        SortedAgain(RuleLabels(s, r, re), LabelSet(Named(re.names), [r.Labels, s.Labels]));
      }
    }
  }

  lemma {:induction false} UsesAreShaped(lib: Lib, sources: seq<Source>)
    requires forall i :: 0 <= i < |sources| ==> SourceOk(lib, sources[i])
    ensures forall u :: u in AllUses(lib, sources) ==> Shaped(u)
  {
    hide LabelSet, RuleListUses, RuleOk, LabelsOk;
    if sources != [] {
      var n := |sources| - 1;
      UsesAreShaped(lib, sources[..n]);
      RuleUsesAreShaped(lib, sources[n], sources[n].Rules);
      SortedAgain(SortedSeq(LabelSet([], [sources[n].Labels])), LabelSet([], [sources[n].Labels]));
    }
  }

  /** Under an accepted configuration the families of every store its uses allow
      agree if and only if its clashes are harmless, which the names alone decide. */
  lemma AcceptedFamiliesAgreeExactly(lib: Lib, c: Config, round: real -> real)
    requires Accepted(lib, c)
    ensures (forall ws :: AllChecked(AllUses(lib, c.SourceList), ws) ==> FamiliesAgree(PutAll(round, ws))) <==>
            HarmlessClashes(AllUses(lib, c.SourceList))
  {
    hide SourceOk, Shaped, AllChecked, FamiliesAgree, PutAll, UsesAgree, HarmlessClashes;
    UsesAreShaped(lib, c.SourceList);
    FamiliesAgreeExactly(AllUses(lib, c.SourceList), round);
  }

  /** A series of v's metric, overwritten by w, stands beside another series of
      that metric and disagrees with it. */
  ghost predicate Overwrites(v: Write, w: Write, x: Write) {
    v.name == x.name && WriteId(v) == WriteId(w) != WriteId(x) && (w.help != v.help || w.kind != v.kind)
  }

  /** No write the sources can make overwrites a series of another metric like that. */
  ghost predicate NeverOverwritten(lib: Lib, c: Config)
    requires Accepted(lib, c)
  {
    forall v, w, x :: Possible(lib, c, v) && Possible(lib, c, w) && Possible(lib, c, x) ==> !Overwrites(v, w, x)
  }

  /** Harmless clashes, which names alone decide, are enough. */
  lemma HarmlessNeverOverwrites(lib: Lib, c: Config)
    requires Accepted(lib, c) && HarmlessClashes(AllUses(lib, c.SourceList))
    ensures NeverOverwritten(lib, c)
  {
    hide Possible, Checked, UsesAgree, SourceOk, HarmlessClashes, HarmlessKinds, WriteId;
    forall v, w, x | Possible(lib, c, v) && Possible(lib, c, w) && Possible(lib, c, x) ensures !Overwrites(v, w, x) {
      if WriteId(v) == WriteId(w) {
        PossibleWritesAreChecked(lib, c, v);
        PossibleWritesAreChecked(lib, c, w);
        HarmlessShares(AllUses(lib, c.SourceList), v, w);
      }
    }
  }

  /** A series has the name and label names of its first write, help and kind of its last. */
  lemma FirstAndLast(round: real -> real, ws: seq<Write>, id: string) returns (v: Write, w: Write)
    requires id in PutAll(round, ws)
    ensures v in ws && w in ws && WriteId(v) == id == WriteId(w)
    ensures var e := PutAll(round, ws)[id];
            e.name == v.name && e.names == SortedSeq(v.labels.Keys) && e.help == w.help && e.kind == w.kind
  {
    hide WriteId, Replay;
    var history := WritesTo(ws, id);
    HistoryDecides(round, ws, id);
    ReplayFields(round, history);
    WritesToAreWrites(ws, id);
    v, w := history[0], history[|history| - 1];
    assert v in history && w in history;
  }

  lemma PossibleIn(lib: Lib, c: Config, ws: seq<Write>, w: Write)
    requires Accepted(lib, c) && AllPossible(lib, c, ws) && w in ws
    ensures Possible(lib, c, w)
  {
    hide Accepted, Possible;
    var i :| 0 <= i < |ws| && ws[i] == w;
  }

  /** The main result. Whatever messages arrive and however the writes of the
      sources interleave, all samples of one metric agree on label names, help and
      kind, heartbeats included, as long as nothing is overwritten. */
  lemma FamiliesAgreeInEveryStore(lib: Lib, c: Config, round: real -> real, ws: seq<Write>)
    requires Accepted(lib, c) && NeverOverwritten(lib, c) && AllPossible(lib, c, ws)
    ensures FamiliesAgree(PutAll(round, ws))
  {
    hide Accepted, AllPossible, Possible, UsesAgree, Checked, PutAll, WriteId;
    var m, uses := PutAll(round, ws), AllUses(lib, c.SourceList);
    assert UsesAgree(uses) by { AcceptedUsesAgree(lib, c); }
    forall a, b | a in m && b in m && m[a].name == m[b].name
      ensures m[a].names == m[b].names && m[a].help == m[b].help && m[a].kind == m[b].kind
    {
      var v, w := FirstAndLast(round, ws, a);
      var x, y := FirstAndLast(round, ws, b);
      PossibleIn(lib, c, ws, v);
      PossibleIn(lib, c, ws, w);
      PossibleIn(lib, c, ws, x);
      PossibleIn(lib, c, ws, y);
      PossibleWritesAreChecked(lib, c, v);
      PossibleWritesAreChecked(lib, c, x);
      SameNameSameShape(uses, v, x);
      assert !Overwrites(v, w, x) && !Overwrites(x, y, v);
    }
  }

  lemma AcceptedUsesAgree(lib: Lib, c: Config)
    requires Accepted(lib, c)
    ensures UsesAgree(AllUses(lib, c.SourceList))
  {}

  /** That condition is exact for the writes the sources can make, in any order. */
  lemma PossibleFamiliesAgreeExactly(lib: Lib, c: Config, round: real -> real)
    requires Accepted(lib, c)
    ensures (forall ws :: AllPossible(lib, c, ws) ==> FamiliesAgree(PutAll(round, ws))) <==> NeverOverwritten(lib, c)
  {
    hide Accepted, Possible, UsesAgree, Checked, PutAll, WriteId, FamiliesAgree;
    if NeverOverwritten(lib, c) {
      forall ws | AllPossible(lib, c, ws) ensures FamiliesAgree(PutAll(round, ws)) {
        FamiliesAgreeInEveryStore(lib, c, round, ws);
      }
    } else {
      var v, w, x :| Possible(lib, c, v) && Possible(lib, c, w) && Possible(lib, c, x) && Overwrites(v, w, x);
      var ws := [v, x, w];
      AcceptedUsesAgree(lib, c);
      PossibleWritesAreChecked(lib, c, v);
      PossibleWritesAreChecked(lib, c, x);
      SameNameSameShape(AllUses(lib, c.SourceList), v, x);
      OverwrittenSeries(round, ws);
      assert AllPossible(lib, c, ws);
    }
  }

  /** The same for the samples of a snapshot. */
  lemma ScrapesAreConsistent(lib: Lib, c: Config, round: real -> real, ws: seq<Write>, out: seq<Sample>)
    requires Accepted(lib, c) && NeverOverwritten(lib, c) && AllPossible(lib, c, ws)
    requires IsSnapshot(round, PutAll(round, ws), out)
    ensures forall i, j :: 0 <= i < |out| && 0 <= j < |out| && out[i].Key.Name == out[j].Key.Name ==>
              out[i].Key.LabelNames == out[j].Key.LabelNames && out[i].Help == out[j].Help && out[i].Kind == out[j].Kind
    ensures forall i, j :: 0 <= i < j < |out| ==> out[i].Key != out[j].Key
  {
    hide Accepted, AllPossible, NeverOverwritten, PutAll, SampleLess, WellKeyed;
    FamiliesAgreeInEveryStore(lib, c, round, ws);
    StoreStaysWellKeyed(round, ws);
    var m := PutAll(round, ws);
    forall i, j | 0 <= i < |out| && 0 <= j < |out| && out[i].Key.Name == out[j].Key.Name
      ensures out[i].Key.LabelNames == out[j].Key.LabelNames && out[i].Help == out[j].Help && out[i].Kind == out[j].Kind
    {
      assert out[i] in Elements(out) && out[j] in Elements(out);
      var a :| a in m && out[i] == SampleOf(round, m[a]);
      var b :| b in m && out[j] == SampleOf(round, m[b]);
    }
    forall i, j | 0 <= i < j < |out| ensures out[i].Key != out[j].Key {
      SnapshotKeysDiffer(round, m, out, i, j);
    }
  }

  // ------------------------------------------------------- what a series exports

  /** What a series shows after the writes `history` to it: a gauge, the value
      written last; a counter, the last reading plus the readings before each drop,
      which in exact arithmetic is its first value and all reset-corrected increments. */
  ghost predicate Shows(round: real -> real, e: Entry, history: seq<Write>)
    requires history != []
  {
    var last := history[|history| - 1];
    && e.kind == last.kind
    && (last.kind == Gauge ==> Exported(round, e) == round(last.value))
    && (last.kind == Counter ==> Exported(round, e) == FloatAdd(round, last.value, Carried(round, history)))
    && (last.kind == Counter && Exact(round) ==> Exported(round, e) == Total(history))
  }

  lemma HistoryExports(round: real -> real, history: seq<Write>)
    requires history != [] && AllOfKind(history, history[|history| - 1].kind)
    ensures Shows(round, Replay(round, history), history)
  {
    hide Replay, Total, Exported;
    var last := history[|history| - 1];
    ReplayFields(round, history);
    if last.kind == Gauge { GaugeExportsLastValue(round, history); }
    if last.kind == Counter { CounterExportsReadings(round, history); }
    if last.kind == Counter && Exact(round) { CounterExportsTotal(round, history); }
  }

  /** No two writes the sources can make give one series two kinds. */
  ghost predicate KindsKept(lib: Lib, c: Config)
    requires Accepted(lib, c)
  {
    forall v, w :: Possible(lib, c, v) && Possible(lib, c, w) && WriteId(v) == WriteId(w) ==> v.kind == w.kind
  }

  /** Clashes of one kind, which names alone decide, are enough. */
  lemma HarmlessKindsAreKept(lib: Lib, c: Config)
    requires Accepted(lib, c) && HarmlessKinds(AllUses(lib, c.SourceList))
    ensures KindsKept(lib, c)
  {
    hide Possible, Checked, UsesAgree, SourceOk, HarmlessClashes, HarmlessKinds, WriteId;
    forall v, w | Possible(lib, c, v) && Possible(lib, c, w) && WriteId(v) == WriteId(w) ensures v.kind == w.kind {
      PossibleWritesAreChecked(lib, c, v);
      PossibleWritesAreChecked(lib, c, w);
      HarmlessShares(AllUses(lib, c.SourceList), v, w);
    }
  }

  lemma KeptIsOneKind(lib: Lib, c: Config, ws: seq<Write>)
    requires Accepted(lib, c) && KindsKept(lib, c) && AllPossible(lib, c, ws)
    ensures OneKind(ws)
  {
    hide Accepted, Possible, WriteId;
  }

  /** No series ever changes kind, whatever the sources write, exactly then. */
  lemma KindsNeverChangeExactly(lib: Lib, c: Config)
    requires Accepted(lib, c)
    ensures (forall ws, id ::
               AllPossible(lib, c, ws) && WritesTo(ws, id) != [] ==>
                 AllOfKind(WritesTo(ws, id), WritesTo(ws, id)[|WritesTo(ws, id)| - 1].kind)) <==>
            KindsKept(lib, c)
  {
    hide Accepted, Possible, WriteId, OneKind;
    if KindsKept(lib, c) {
      forall ws, id | AllPossible(lib, c, ws) && WritesTo(ws, id) != []
        ensures AllOfKind(WritesTo(ws, id), WritesTo(ws, id)[|WritesTo(ws, id)| - 1].kind)
      {
        KeptIsOneKind(lib, c, ws);
        KindsNeverChange(ws, id);
      }
    } else {
      var v, w :| Possible(lib, c, v) && Possible(lib, c, w) && WriteId(v) == WriteId(w) && v.kind != w.kind;
      var ws := [v, w];
      assert ws[..1] == [v] && [v][..0] == [] && WritesTo([], WriteId(v)) == [];
      assert WritesTo(ws[..1], WriteId(v)) == [v];
      assert WritesTo(ws, WriteId(v)) == [v, w];
      assert AllPossible(lib, c, ws);
      assert WritesTo(ws, WriteId(v))[0].kind != WritesTo(ws, WriteId(v))[1].kind;
    }
  }

  /** NUL-free source heartbeats, which a reader of the configuration can see, are
      enough for both conditions. */
  lemma CleanHeartbeatsSuffice(lib: Lib, c: Config)
    requires Accepted(lib, c) && CleanHeartbeats(c)
    ensures NeverOverwritten(lib, c) && KindsKept(lib, c)
  {
    hide Accepted, CleanHeartbeats, NeverOverwritten, KindsKept, CanClash;
    CleanHeartbeatsNeverClash(lib, c);
    HarmlessNeverOverwrites(lib, c);
    HarmlessKindsAreKept(lib, c);
  }

  /** Every series shows the writes filed under its identity. */
  lemma SeriesExports(lib: Lib, c: Config, round: real -> real, ws: seq<Write>, id: string)
    requires Accepted(lib, c) && KindsKept(lib, c) && AllPossible(lib, c, ws)
    requires id in PutAll(round, ws)
    ensures WritesTo(ws, id) != [] && Shows(round, PutAll(round, ws)[id], WritesTo(ws, id))
  {
    hide Accepted, AllPossible, KindsKept, OneKind, AllOfKind, PutAll, Shows, Replay, WritesTo;
    KeptIsOneKind(lib, c, ws);
    HistoryDecides(round, ws, id);
    KindsNeverChange(ws, id);
    HistoryExports(round, WritesTo(ws, id));
  }

  /** The writes of one metric with one set of labels. */
  ghost function WritesToKey(ws: seq<Write>, k: PlainKey): seq<Write> {
    if ws == [] then [] else
    var n := |ws| - 1;
    if PlainKey(ws[n].name, ws[n].labels) == k then WritesToKey(ws[..n], k) + [ws[n]] else WritesToKey(ws[..n], k)
  }

  /** No write with another name or other labels has the key's identity. */
  ghost predicate Unshared(ws: seq<Write>, k: PlainKey) {
    forall i :: 0 <= i < |ws| && WriteId(ws[i]) == KeyId(k) ==> PlainKey(ws[i].name, ws[i].labels) == k
  }

  /** An identity collects the writes of its name and labels, and only those
      exactly when it is not shared. */
  lemma {:induction false} KeyHistory(ws: seq<Write>, k: PlainKey)
    ensures |WritesToKey(ws, k)| <= |WritesTo(ws, KeyId(k))|
    ensures WritesTo(ws, KeyId(k)) == WritesToKey(ws, k) <==> Unshared(ws, k)
  {
    hide IdOf;
    if ws != [] {
      var n := |ws| - 1;
      KeyHistory(ws[..n], k);
      assert Unshared(ws, k) <==>
        Unshared(ws[..n], k) && (WriteId(ws[n]) == KeyId(k) ==> PlainKey(ws[n].name, ws[n].labels) == k);
      var to, of := WritesTo(ws[..n], KeyId(k)), WritesToKey(ws[..n], k);
      assert to + [ws[n]] == of + [ws[n]] ==> to == of by {
        assert (to + [ws[n]])[..|to|] == to && (of + [ws[n]])[..|of|] == of;
      }
    }
  }

  /** NUL-free keys are never shared by NUL-free writes. */
  lemma CleanIsUnshared(ws: seq<Write>, k: PlainKey)
    requires CleanWrites(ws) && CleanKey(k)
    ensures Unshared(ws, k)
  {
    hide Clean, CleanLabels, IdOf;
    forall i | 0 <= i < |ws| && WriteId(ws[i]) == KeyId(k) ensures PlainKey(ws[i].name, ws[i].labels) == k {
      IdOfInjective(ws[i].name, ws[i].labels, k.name, k.labels);
    }
  }

  lemma {:induction false} KeyWrites(ws: seq<Write>, k: PlainKey)
    ensures forall w :: w in WritesToKey(ws, k) ==> w in ws && w.name == k.name
  {
    if ws != [] { KeyWrites(ws[..|ws| - 1], k); }
  }

  /** A name and labels whose identity no other write has show their own writes. */
  lemma KeyExports(lib: Lib, c: Config, round: real -> real, ws: seq<Write>, k: PlainKey)
    requires Accepted(lib, c) && AllPossible(lib, c, ws)
    requires Unshared(ws, k) && WritesToKey(ws, k) != []
    ensures KeyId(k) in PutAll(round, ws) && Shows(round, PutAll(round, ws)[KeyId(k)], WritesToKey(ws, k))
  {
    hide Accepted, AllPossible, UsesAgree, PutAll, Shows, Replay, WritesTo, WritesToKey, KeyId, Unshared;
    PossibleRunIsChecked(lib, c, ws);
    KeyHistory(ws, k);
    HistoryDecides(round, ws, KeyId(k));
    var history := WritesToKey(ws, k);
    KeyWrites(ws, k);
    forall i | 0 <= i < |history| ensures history[i].kind == history[|history| - 1].kind {
      assert history[i] in history && history[|history| - 1] in history;
      SameNameSameShape(AllUses(lib, c.SourceList), history[i], history[|history| - 1]);
    }
    HistoryExports(round, history);
  }

  /** With NUL-free names and label values no two samples tie. */
  lemma CleanStoresHaveNoTies(lib: Lib, c: Config, round: real -> real, ws: seq<Write>)
    requires Accepted(lib, c) && AllPossible(lib, c, ws) && CleanWrites(ws)
    ensures TieFree(SamplesOf(round, PutAll(round, ws)))
  {
    hide Accepted, AllPossible, AllChecked, UsesAgree, OneShape, PutAll, FamiliesAgree, WellKeyed, CleanValues, TieFree,
        CleanWrites;
    PossibleRunIsChecked(lib, c, ws);
    var uses := AllUses(lib, c.SourceList);
    CleanGivesOneShape(uses, ws);
    OneShapeGivesFamilies(uses, round, ws);
    StoreStaysWellKeyed(round, ws);
    WrittenValuesAreClean(round, ws);
    AgreeingFamiliesHaveNoTies(round, PutAll(round, ws));
  }

  lemma WrittenValuesAreClean(round: real -> real, ws: seq<Write>)
    requires CleanWrites(ws)
    ensures CleanValues(PutAll(round, ws))
  {
    hide Replay, CleanLabels, WriteId;
    var m := PutAll(round, ws);
    forall id | id in m ensures Without(NUL, m[id].values) {
      HistoryDecides(round, ws, id);
      WritesToAreWrites(ws, id);
      var history := WritesTo(ws, id);
      ReplayFields(round, history);
      assert history[0] in history;
      CleanParts(history[0].labels);
    }
  }
}
