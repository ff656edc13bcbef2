/** Where the guarantees begin and end: concrete inputs that meet or miss their premises. */
module Limits {
  import opened Text
  import opened Library
  import opened Config
  import opened Labels
  import opened Validate
  import opened Acceptance
  import opened Payloads
  import opened Rules
  import opened SeriesStore
  import opened StoreLaws
  import opened Sources
  import opened Soundness
  import opened Clashes
  import opened Router
  import opened RouterLaws
  import opened RouterObject

  lemma SortedSingleton(x: string)
    ensures SortedSeq({x}) == [x]
  {
    LessIsStrictWeakOrder();
    assert Elements([x]) == {x};
    StrictlySortedIsUnique(Less, SortedSeq({x}), [x]);
  }

  lemma SortedEmpty()
    ensures SortedSeq({}) == []
  {
    if SortedSeq({}) != [] { NonEmpty(SortedSeq({})); }
  }

  lemma IdOfOneLabel(name: string, labelName: string, value: string)
    ensures IdOf(name, map[labelName := value]) == name + [NUL] + labelName + [NUL] + value
  {
    var labels := map[labelName := value];
    SortedSingleton(labelName);
    assert labels.Keys == {labelName};
    assert ValuesOf(labels, [labelName]) == [value] by {
      assert [labelName][..0] == [];
      assert ValuesOf(labels, []) == [];
    }
    assert [labelName][..0] == [] && [value][..0] == [];
    assert IdentityOf(name, [], []) == name;
  }

  // ------------------------------------------- a source heartbeat with a NUL in it

  /** The expression `t` has no named group and matches the topic `t`, as in Go. */
  ghost predicate MatchesT(lib: Lib) {
    var re := lib.compile("t");
    re.Some? && re.value.names == [""] && re.value.find("t") == Some(["t"])
  }

  /** The payload `1` is the number 1, as in Go. */
  ghost predicate ReadsOne(lib: Lib) {
    lib.parseFloat(lib.trimSpace("1")) == Some(1.0)
  }

  function StaticRule(value: string): Rule {
    Rule("t", "a", TYPE_GAUGE, "help", Value.Value(FROM_RAW, "", "", None, None), "",
         map["b" := Label.Label(FROM_STATIC, value, "", None)])
  }

  /** Two rules and a heartbeat of the source. */
  function TwoRuleSource(heartbeat: string): Source {
    Source.Source("s", "", "t", None, heartbeat, map[], [StaticRule("c"), StaticRule("d")], "p")
  }

  function TwoRuleConfig(heartbeat: string): Config {
    Config(MQTT("u", "i", "n", "p", Some(0), Some(false)), Server("l"), Log("info"), [TwoRuleSource(heartbeat)])
  }

  /** A name that spells the identity of series a{b="c"}. */
  function NulName(): string {
    "a" + [NUL] + "b" + [NUL] + "c"
  }

  lemma StaticText(c: char)
    requires c != '{'
    ensures Scan([c]) == [Literal(c)] && Refs([c]) == []
  {
    assert [c][1..] == "";
    assert Scan("") == [];
    assert RefsOf([Literal(c)][1..]) == [];
  }

  lemma StaticRuleOk(lib: Lib, c: char)
    requires MatchesT(lib)
    requires c == 'c' || c == 'd'
    ensures RuleOk(lib, StaticRule([c]))
  {
    var r := StaticRule([c]);
    StaticText(c);
    assert Named([""]) == [] by { assert [""][1..] == []; }
    assert Captures(lib, r.Match) == {};
    assert NamedLabelOk({}, "b", r.Labels["b"]);
    assert IsMetricName("a");
  }

  lemma StaticRuleUses(lib: Lib, c: char, heartbeat: string)
    requires MatchesT(lib)
    requires c == 'c' || c == 'd'
    ensures forall site :: RuleUses(lib, TwoRuleSource(heartbeat), site, StaticRule([c])) ==
                           [Use(site, "a", ["b"], "help", TYPE_GAUGE)]
  {
    var r := StaticRule([c]);
    assert Named([""]) == [] by { assert [""][1..] == []; }
    DeclaredByTwo(r.Labels, TwoRuleSource(heartbeat).Labels);
    assert LabelSet([], [r.Labels, TwoRuleSource(heartbeat).Labels]) == {"b"};
    SortedSingleton("b");
  }

  lemma TwoRuleUses(lib: Lib, heartbeat: string)
    requires MatchesT(lib)
    requires heartbeat != ""
    ensures AllUses(lib, [TwoRuleSource(heartbeat)]) ==
            [Use(RuleOf("p", 0), "a", ["b"], "help", TYPE_GAUGE), Use(RuleOf("p", 1), "a", ["b"], "help", TYPE_GAUGE),
             Use(SourceFile("p"), heartbeat, [], HEARTBEAT_HELP, TYPE_GAUGE)]
  {
    hide RuleUses;
    var s := TwoRuleSource(heartbeat);
    StaticRuleUses(lib, 'c', heartbeat);
    StaticRuleUses(lib, 'd', heartbeat);
    assert s.Rules[..1] == [s.Rules[0]] && s.Rules[..1][..0] == [];
    assert RuleListUses(lib, s, []) == [];
    assert RuleListUses(lib, s, s.Rules[..1]) == RuleUses(lib, s, RuleOf("p", 0), s.Rules[0]);
    DeclaredByTwo(s.Labels, s.Labels);
    assert LabelSet([], [s.Labels]) == {};
    SortedEmpty();
    assert [s][..0] == [] && AllUses(lib, []) == [];
  }

  lemma TwoRuleConfigIsAccepted(lib: Lib, heartbeat: string)
    requires MatchesT(lib)
    requires heartbeat != "" && heartbeat != "a"
    ensures Accepted(lib, TwoRuleConfig(heartbeat))
  {
    hide RuleOk, AllUses;
    var c := TwoRuleConfig(heartbeat);
    StaticRuleOk(lib, 'c');
    StaticRuleOk(lib, 'd');
    TwoRuleUses(lib, heartbeat);
    assert c.SourceList == [TwoRuleSource(heartbeat)];
    assert SourceOk(lib, TwoRuleSource(heartbeat));
  }

  /** The compiled rule has the one label b, a constant. */
  lemma StaticRuleForm(lib: Lib, c: char, heartbeat: string, cr: CompiledRule)
    requires MatchesT(lib)
    requires c == 'c' || c == 'd'
    requires CompiledForm(lib, TwoRuleSource(heartbeat), StaticRule([c])) == Good(cr)
    ensures HasGroup(cr.value) && cr.autoLabels == ["b"] && "b" in cr.labels.extractors
    ensures cr.labels.extractors["b"] == LabelExtractor([c], false, [], None)
  {
    var r := StaticRule([c]);
    StaticRuleOk(lib, c);
    PredictedLabels(lib, TwoRuleSource(heartbeat), r);
    StaticRuleUses(lib, c, heartbeat);
    assert RuleUses(lib, TwoRuleSource(heartbeat), MainFile, r)[0].labels == ["b"];
  }

  lemma StaticLabel(lib: Lib, c: char, extractors: map<string, LabelExtractor>, captured: map<string, string>,
      body: string)
    requires c == 'c' || c == 'd'
    requires "b" in extractors && extractors["b"] == LabelExtractor([c], false, [], None)
    ensures ResolvedLabels(lib, extractors, ["b"], captured, body) == Ok(Some(map["b" := [c]]))
  {
    StaticText(c);
    ConstantTemplate([c], captured);
    assert ["b"][..0] == [];
    assert ResolvedLabels(lib, extractors, [], captured, body) == Ok(Some(map[]));
  }

  /** What one rule writes for the message. */
  lemma StaticRuleWrites(lib: Lib, c: char, heartbeat: string, cr: CompiledRule, now: real, msg: Message)
    requires MatchesT(lib) && ReadsOne(lib) && msg == Message("t", "1")
    requires c == 'c' || c == 'd'
    requires CompiledForm(lib, TwoRuleSource(heartbeat), StaticRule([c])) == Good(cr)
    ensures HasGroup(cr.value)
    ensures RuleEffect(lib, cr, now, msg) == Effect([Write("a", Gauge, "help", map["b" := [c]], 1.0)], [], true)
  {
    hide ResolvedLabels, Extracted, Captured, CompiledForm;
    StaticRuleForm(lib, c, heartbeat, cr);
    StaticRuleReads(lib, c, heartbeat, cr, msg);
    StaticLabel(lib, c, cr.labels.extractors, Captured(cr.re.names, cr.re.find(msg.Topic).value), msg.Payload);
  }

  lemma StaticRuleReads(lib: Lib, c: char, heartbeat: string, cr: CompiledRule, msg: Message)
    requires MatchesT(lib) && ReadsOne(lib) && msg == Message("t", "1")
    requires CompiledForm(lib, TwoRuleSource(heartbeat), StaticRule([c])) == Good(cr)
    ensures HasGroup(cr.value) && Extracted(lib, cr.value, msg.Payload) == Ok(Some(1.0))
    ensures cr.re.find(msg.Topic).Some?
    ensures cr.MetricName == "a" && cr.LastUpdatedMetric == "" && !cr.Counter && cr.Help == "help"
  {
    hide CompiledLabels, LabelSet;
    assert TYPE_GAUGE != TYPE_COUNTER && FROM_RAW != FROM_JSON;
  }

  /** What the source makes of one message, as a run of the router. */
  function OneMessage(heartbeat: string, now: real): seq<Action> {
    Turn(0, Message("t", "1")) + Handling(0, now, Effect(ThreeWrites(heartbeat, now), [], true))
  }

  lemma TwoRuleRun(lib: Lib, heartbeat: string, now: real)
    requires MatchesT(lib) && ReadsOne(lib)
    requires heartbeat != "" && heartbeat != "a"
    ensures Accepted(lib, TwoRuleConfig(heartbeat))
    ensures SetsOf(lib, TwoRuleConfig(heartbeat), OneMessage(heartbeat, now)) == ThreeWrites(heartbeat, now)
    ensures StoreAfter(lib, TwoRuleConfig(heartbeat), OneMessage(heartbeat, now)) ==
            PutAll(lib.round, ThreeWrites(heartbeat, now))
  {
    hide Accepted, CompiledForm, Ready, SourceEffect, Run, Handling, PutAll, AllPossible, LoggedWrites, Resting;
    var c := TwoRuleConfig(heartbeat);
    TwoRuleConfigIsAccepted(lib, heartbeat);
    CompiledSourcesAre(lib, c);
    var sources := CompiledSources(lib, c);
    assert sources[0].prefix == "t" by { PrefixOfT(); }
    var d := Delivery(now, Message("t", "1"));
    TwoRuleSourceWrites(lib, heartbeat, sources[0], now, d.msg);
    OneInTurn(lib, sources, d);
    RunWritesArePossible(lib, c, OneMessage(heartbeat, now));
  }

  lemma PrefixOfT()
    ensures TopicPrefix("t") == "t" && Owns("t", "t")
  {
    assert "t"[1..] == "" && TopicPrefix("") == "";
  }

  lemma OneInTurn(lib: Lib, sources: seq<CompiledSource>, d: Delivery)
    requires AllReady(sources) && |sources| > 0 && Owns(sources[0].prefix, d.msg.Topic)
    ensures var e := SourceEffect(lib, sources[0], d.now, d.msg);
            LoggedWrites(Run(lib, sources, Started(sources), Turn(0, d.msg) + Handling(0, d.now, e)).log) == e.writes
  {
    hide Ready, SourceEffect, Run, Handling, Owns, LoggedWrites, Resting, Turn;
    RunInTurn(lib, sources, 0, [d]);
    var src := sources[0];
    assert [d][..0] == [];
    var e := SourceEffect(lib, src, d.now, d.msg);
    assert InTurn(lib, src, 0, []) == [] && DeliveredWrites(lib, src, []) == [];
    assert InTurn(lib, src, 0, [d]) == [] + (Turn(0, d.msg) + Handling(0, d.now, e));
    assert DeliveredWrites(lib, src, [d]) == [] + e.writes;
    var steps := Turn(0, d.msg) + Handling(0, d.now, e);
    assert [] + steps == steps;
    assert [] + e.writes == e.writes;
  }

  /** The premises of the theorems are met by a run: one message under an accepted
      configuration without a clash makes three Sets, all NUL-free. */
  lemma PremisesAreMet(lib: Lib, now: real)
    requires MatchesT(lib) && ReadsOne(lib)
    ensures var c := TwoRuleConfig("h");
            && Accepted(lib, c) && CleanHeartbeats(c) && HarmlessClashes(AllUses(lib, c.SourceList))
            && SetsOf(lib, c, OneMessage("h", now)) == ThreeWrites("h", now)
            && CleanWrites(ThreeWrites("h", now))
  {
    hide Accepted, HarmlessClashes, AllUses, SetsOf, StoreAfter, PutAll, OneMessage;
    TwoRuleRun(lib, "h", now);
    CleanHeartbeatsNeverClash(lib, TwoRuleConfig("h"));
  }

  /** A name that begins like an identity of metric a, but of no label it has. */
  function HarmlessName(): string {
    "a" + [NUL] + "z" + [NUL] + "c"
  }

  /** A NUL in a heartbeat's name need not be harmful. */
  lemma NulHeartbeatMayBeHarmless(lib: Lib)
    requires MatchesT(lib)
    ensures var c := TwoRuleConfig(HarmlessName());
            && Accepted(lib, c) && !CleanHeartbeats(c) && HarmlessClashes(AllUses(lib, c.SourceList))
  {
    hide Accepted, AllUses, Spells;
    var name := HarmlessName();
    TwoRuleConfigIsAccepted(lib, name);
    TwoRuleUses(lib, name);
    NotSpelled();
    assert TwoRuleConfig(name).SourceList == [TwoRuleSource(name)];
    assert name[1] == NUL && !Clean(TwoRuleConfig(name).SourceList[0].LastUpdatedMetric);
  }

  lemma NotSpelled()
    ensures !Spells(HarmlessName(), "a", ["b"])
  {
    var name := HarmlessName();
    forall k | 0 <= k <= |name| && name[..k] == "a" ensures !([NUL] + "b" + [NUL] <= name[k..]) {
      assert name[k..][1] == 'z' && ([NUL] + "b" + [NUL])[1] == 'b';
    }
    assert ["b"][..0] == [];
    assert !Spells(name, "a", ["b"]);
  }

  /** Whatever the message, a rule writes its constant label. */
  lemma StaticRuleShape(lib: Lib, c: char, heartbeat: string, cr: CompiledRule, now: real, msg: Message)
    requires MatchesT(lib) && (c == 'c' || c == 'd')
    requires CompiledForm(lib, TwoRuleSource(heartbeat), StaticRule([c])) == Good(cr)
    ensures HasGroup(cr.value)
    ensures forall w :: w in RuleEffect(lib, cr, now, msg).writes ==> w.name == "a" && w.labels == map["b" := [c]]
  {
    hide CompiledForm, Extracted, ResolvedLabels, ExpandTemplate, Captured;
    StaticRuleForm(lib, c, heartbeat, cr);
    StaticRuleFields(lib, c, heartbeat, cr);
    StaticText(c);
    ProducedLabels(lib, cr, msg.Topic, msg.Payload);
    ProducedValues(lib, TwoRuleSource(heartbeat), StaticRule([c]), msg.Topic, msg.Payload, "b");
    var o := Evaluate(lib, cr, msg.Topic, msg.Payload);
    if o.Produced? {
      assert o.labels.Keys == {"b"};
      ConstantLabel(lib, [c], Captured(cr.re.names, cr.re.find(msg.Topic).value), msg.Payload);
    }
  }

  lemma StaticRuleFields(lib: Lib, c: char, heartbeat: string, cr: CompiledRule)
    requires CompiledForm(lib, TwoRuleSource(heartbeat), StaticRule([c])) == Good(cr)
    ensures cr.MetricName == "a" && cr.LastUpdatedMetric == ""
  {}

  lemma ConstantLabel(lib: Lib, value: string, captured: map<string, string>, body: string)
    requires Refs(value) == []
    ensures LabelValue(lib, NewLabelExtractor(Label.Label(FROM_STATIC, value, "", None)), captured, body) ==
            Ok(Some(value))
  {
    assert FROM_STATIC != FROM_JSON;
    ConstantTemplate(value, captured);
  }

  /** The only series the two rules and the heartbeat can write. */
  ghost predicate OneOfThree(heartbeat: string, w: Write) {
    || (w.name == "a" && (w.labels == map["b" := "c"] || w.labels == map["b" := "d"]))
    || (w.name == heartbeat && w.labels == map[])
  }

  lemma TwoRuleShape(lib: Lib, heartbeat: string, cs: CompiledSource, now: real, msg: Message)
    requires MatchesT(lib) && CompiledFrom(lib, TwoRuleConfig(heartbeat), TwoRuleSource(heartbeat), cs) && Ready(cs)
    ensures forall w :: w in SourceEffect(lib, cs, now, msg).writes ==> OneOfThree(heartbeat, w)
  {
    hide CompiledForm, RuleEffect, HasGroup;
    assert TwoRuleSource(heartbeat).Rules[0] == StaticRule("c") && TwoRuleSource(heartbeat).Rules[1] == StaticRule("d");
    StaticRuleShape(lib, 'c', heartbeat, cs.rules[0], now, msg);
    StaticRuleShape(lib, 'd', heartbeat, cs.rules[1], now, msg);
    assert cs.rules[..1] == [cs.rules[0]] && cs.rules[..1][..0] == [];
    assert RulesEffect(lib, [], now, msg) == Effect([], [], false);
    assert RulesEffect(lib, cs.rules[..1], now, msg).writes == RuleEffect(lib, cs.rules[0], now, msg).writes;
    SortedEmpty();
    assert ResolvedLabels(lib, cs.labels.extractors, [], map[], msg.Payload) == Ok(Some(map[]));
  }

  lemma TwoRulePossible(lib: Lib, heartbeat: string, w: Write)
    requires MatchesT(lib) && heartbeat != "" && heartbeat != "a"
    ensures Accepted(lib, TwoRuleConfig(heartbeat))
    ensures Possible(lib, TwoRuleConfig(heartbeat), w) ==> OneOfThree(heartbeat, w)
  {
    hide Accepted, CompiledForm, Ready, SourceEffect, OneOfThree;
    var c := TwoRuleConfig(heartbeat);
    TwoRuleConfigIsAccepted(lib, heartbeat);
    CompiledSourcesAre(lib, c);
    if Possible(lib, c, w) {
      var i, now, msg :| 0 <= i < |c.SourceList| && w in SourceEffect(lib, CompiledSources(lib, c)[i], now, msg).writes;
      assert i == 0;
      TwoRuleShape(lib, heartbeat, CompiledSources(lib, c)[0], now, msg);
    }
  }

  /** A name that spells the identity of a{b="e"}, a series no rule here writes. */
  function UnreachedName(): string {
    "a" + [NUL] + "b" + [NUL] + "e"
  }

  lemma ThreeApart(v: Write, w: Write)
    requires OneOfThree(UnreachedName(), v) && OneOfThree(UnreachedName(), w) && WriteId(v) == WriteId(w)
    ensures v.name == w.name
  {
    hide IdOf;
    var head := "a" + [NUL] + "b" + [NUL];
    IdOfOneLabel("a", "b", "c");
    IdOfOneLabel("a", "b", "d");
    IdOfNoLabel(UnreachedName());
    LastDiffers(head, "c", "e");
    LastDiffers(head, "d", "e");
  }

  /** A clash by name need not be one in fact: this accepted configuration has one,
      but never writes the label value it takes, so nothing is ever overwritten. */
  lemma ClashMayBeOutOfReach(lib: Lib)
    requires MatchesT(lib)
    ensures var c := TwoRuleConfig(UnreachedName());
            Accepted(lib, c) && !HarmlessClashes(AllUses(lib, c.SourceList)) && NeverOverwritten(lib, c)
  {
    hide Accepted, AllUses, CanClash, Possible, OneOfThree, WriteId, UsesAgree, Checked;
    var c := TwoRuleConfig(UnreachedName());
    TwoRuleConfigIsAccepted(lib, UnreachedName());
    ClashByName(lib);
    AcceptedUsesAgree(lib, c);
    forall v, w, x | Possible(lib, c, v) && Possible(lib, c, w) && Possible(lib, c, x) ensures !Overwrites(v, w, x) {
      if WriteId(v) == WriteId(w) {
        TwoRulePossible(lib, UnreachedName(), v);
        TwoRulePossible(lib, UnreachedName(), w);
        ThreeApart(v, w);
        PossibleWritesAreChecked(lib, c, v);
        PossibleWritesAreChecked(lib, c, w);
        SameNameSameShape(AllUses(lib, c.SourceList), v, w);
      }
    }
  }

  lemma ClashByName(lib: Lib)
    requires MatchesT(lib)
    ensures !HarmlessClashes(AllUses(lib, TwoRuleConfig(UnreachedName()).SourceList))
  {
    hide AllUses, Spells, IdentityOf;
    var name := UnreachedName();
    TwoRuleUses(lib, name);
    assert TwoRuleConfig(name).SourceList == [TwoRuleSource(name)];
    var uses := AllUses(lib, [TwoRuleSource(name)]);
    IdentityIsSpelled("a", ["b"], ["e"]);
    OneLabelIdentity("e");
    HelpTexts();
    assert uses[2].name != uses[0].name && CanClash(uses[2].name, uses[2].labels, uses[0].name, uses[0].labels);
  }

  lemma OneLabelIdentity(value: string)
    ensures IdentityOf("a", ["b"], [value]) == "a" + [NUL] + "b" + [NUL] + value
  {
    assert ["b"][..0] == [] && [value][..0] == [];
    assert IdentityOf("a", [], []) == "a";
  }

  /** The condition is needed: an accepted configuration with a harmful clash, and a
      run of one message after which series of metric `a` disagree on their help. */
  lemma NulHeartbeatBreaksAFamily(lib: Lib, now: real)
    requires MatchesT(lib) && ReadsOne(lib)
    ensures var c := TwoRuleConfig(NulName());
            && Accepted(lib, c) && !NeverOverwritten(lib, c) && !HarmlessClashes(AllUses(lib, c.SourceList))
            && !FamiliesAgree(StoreAfter(lib, c, OneMessage(NulName(), now)))
  {
    hide Accepted, HarmlessClashes, AllUses, FamiliesAgree, AllPossible, Run;
    var c := TwoRuleConfig(NulName());
    TwoRuleRun(lib, NulName(), now);
    HelpOverwritten(lib.round, now);
    RunWritesArePossible(lib, c, OneMessage(NulName(), now));
    if NeverOverwritten(lib, c) {
      FamiliesAgreeInEveryStore(lib, c, lib.round, SetsOf(lib, c, OneMessage(NulName(), now)));
    }
    if HarmlessClashes(AllUses(lib, c.SourceList)) { HarmlessNeverOverwrites(lib, c); }
  }

  function ThreeWrites(heartbeat: string, now: real): (ws: seq<Write>)
    ensures |ws| == 3
  {
    [Write("a", Gauge, "help", map["b" := "c"], 1.0), Write("a", Gauge, "help", map["b" := "d"], 1.0),
     Write(heartbeat, Gauge, HEARTBEAT_HELP, map[], now)]
  }

  lemma TwoRulesEffect(lib: Lib, rules: seq<CompiledRule>, now: real, msg: Message)
    requires ReadyRules(rules) && |rules| == 2
    ensures RulesEffect(lib, rules, now, msg) ==
            Then(RuleEffect(lib, rules[0], now, msg), RuleEffect(lib, rules[1], now, msg))
  {
    hide RuleEffect;
    assert rules[..1] == [rules[0]] && rules[..1][..0] == [];
    assert RulesEffect(lib, [], now, msg) == Effect([], [], false);
    var e := RuleEffect(lib, rules[0], now, msg);
    assert [] + e.writes == e.writes && [] + e.problems == e.problems;
    assert RulesEffect(lib, rules[..1], now, msg) == e;
  }

  lemma TwoRuleRules(lib: Lib, heartbeat: string, cs: CompiledSource, now: real, msg: Message)
    requires MatchesT(lib) && ReadsOne(lib) && msg == Message("t", "1")
    requires CompiledFrom(lib, TwoRuleConfig(heartbeat), TwoRuleSource(heartbeat), cs) && Ready(cs)
    ensures RulesEffect(lib, cs.rules, now, msg) == Effect(ThreeWrites(heartbeat, now)[..2], [], true)
  {
    hide CompiledForm, RuleEffect, HasGroup, RulesEffect, CompiledLabels;
    assert TwoRuleSource(heartbeat).Rules[0] == StaticRule("c") && TwoRuleSource(heartbeat).Rules[1] == StaticRule("d");
    StaticRuleWrites(lib, 'c', heartbeat, cs.rules[0], now, msg);
    StaticRuleWrites(lib, 'd', heartbeat, cs.rules[1], now, msg);
    TwoRulesEffect(lib, cs.rules, now, msg);
  }

  lemma TwoRuleHeartbeat(lib: Lib, heartbeat: string, cs: CompiledSource, now: real, body: string)
    requires CompiledFrom(lib, TwoRuleConfig(heartbeat), TwoRuleSource(heartbeat), cs) && heartbeat != ""
    ensures HeartbeatEffect(lib, cs, now, body) == Effect(ThreeWrites(heartbeat, now)[2..], [], false)
  {
    hide CompiledForm;
    SortedEmpty();
    assert ResolvedLabels(lib, cs.labels.extractors, [], map[], body) == Ok(Some(map[]));
  }

  lemma TwoRuleSourceWrites(lib: Lib, heartbeat: string, cs: CompiledSource, now: real, msg: Message)
    requires MatchesT(lib) && ReadsOne(lib) && msg == Message("t", "1")
    requires CompiledFrom(lib, TwoRuleConfig(heartbeat), TwoRuleSource(heartbeat), cs) && Ready(cs)
    requires heartbeat != ""
    ensures SourceEffect(lib, cs, now, msg) == Effect(ThreeWrites(heartbeat, now), [], true)
  {
    hide CompiledForm, RulesEffect, HeartbeatEffect, MatchesT, ReadsOne, CompiledLabels, ThreeWrites;
    TwoRuleRules(lib, heartbeat, cs, now, msg);
    TwoRuleHeartbeat(lib, heartbeat, cs, now, msg.Payload);
    var ws := ThreeWrites(heartbeat, now);
    assert ws[..2] + ws[2..] == ws;
  }

  /** The heartbeat is filed under the identity of a{b="c"} and replaces its help. */
  lemma HelpOverwritten(round: real -> real, now: real)
    ensures !FamiliesAgree(PutAll(round, ThreeWrites(NulName(), now)))
  {
    hide WriteId, PutAll, FamiliesAgree;
    ThreeIds(now);
    HelpTexts();
    OverwrittenSeries(round, ThreeWrites(NulName(), now));
  }

  lemma HelpTexts()
    ensures "help" != HEARTBEAT_HELP
  {}

  lemma ThreeIds(now: real)
    ensures var ws := ThreeWrites(NulName(), now); WriteId(ws[0]) == WriteId(ws[2]) && WriteId(ws[0]) != WriteId(ws[1])
  {
    hide IdOf, IdentityOf;
    IdOfOneLabel("a", "b", "c");
    IdOfOneLabel("a", "b", "d");
    IdOfNoLabel(NulName());
    LastDiffers("a" + [NUL] + "b" + [NUL], "c", "d");
  }

  lemma IdOfNoLabel(name: string)
    ensures IdOf(name, map[]) == name
  {
    SortedEmpty();
    var none: map<string, string> := map[];
    assert none.Keys == {};
  }

  lemma LastDiffers(a: string, x: string, y: string)
    requires |x| == |y| == 1 && x != y
    ensures a + x != a + y
  {
    assert (a + x)[|a|] != (a + y)[|a|];
  }

  // ------------------------------------- a heartbeat with the name of a metric

  /** A rule and the heartbeat of its source, under one name and with one help text. */
  function EchoSource(): Source {
    var rule := Rule("t", "h", TYPE_GAUGE, HEARTBEAT_HELP, Value.Value(FROM_RAW, "", "", None, None), "", map[]);
    Source.Source("s", "", "t", None, "h", map[], [rule], "p")
  }

  function EchoConfig(): Config {
    Config(MQTT("u", "i", "n", "p", Some(0), Some(false)), Server("l"), Log("info"), [EchoSource()])
  }

  lemma NothingDeclared(names: seq<string>)
    requires names == [""]
    ensures SortedSeq(LabelSet(Named(names), [map[], map[]])) == [] && SortedSeq(LabelSet([], [map[]])) == []
    ensures SortedSeq(LabelSet(Named(names), [map[]])) == []
  {
    var none: map<string, Label> := map[];
    assert Named(names) == [] by { assert names[1..] == []; }
    DeclaredByTwo(none, none);
    assert LabelSet([], [none, none]) == {} && LabelSet([], [none]) == {};
    SortedEmpty();
  }

  lemma EchoIsAccepted(lib: Lib)
    requires MatchesT(lib)
    ensures Accepted(lib, EchoConfig())
  {
    var s := EchoSource();
    NothingDeclared([""]);
    EchoRuleOk(lib);
    hide RuleOk, LabelSet, Named;
    assert [s][..0] == [] && AllUses(lib, []) == [];
    assert s.Rules[..0] == [] && RuleListUses(lib, s, []) == [];
    assert AllUses(lib, [s]) == SourceUses(lib, s);
    assert EchoConfig().SourceList == [s] && SourceOk(lib, s);
  }

  lemma EchoRuleOk(lib: Lib)
    requires MatchesT(lib)
    ensures RuleOk(lib, EchoSource().Rules[0])
  {
    assert IsMetricName("h") && "" !in EchoSource().Rules[0].Labels;
  }

  function EchoEffect(now: real): Effect {
    Effect([Write("h", Gauge, HEARTBEAT_HELP, map[], 1.0), Write("h", Gauge, HEARTBEAT_HELP, map[], now)], [], true)
  }

  lemma EchoRuleWrites(lib: Lib, cr: CompiledRule, now: real)
    requires MatchesT(lib) && ReadsOne(lib)
    requires CompiledForm(lib, EchoSource(), EchoSource().Rules[0]) == Good(cr)
    ensures HasGroup(cr.value)
    ensures RuleEffect(lib, cr, now, Message("t", "1")) == Effect(EchoEffect(now).writes[..1], [], true)
  {
    NothingDeclared([""]);
    assert TYPE_GAUGE != TYPE_COUNTER && FROM_RAW != FROM_JSON;
    hide LabelSet, Named, Captured;
    assert cr.autoLabels == [];
    assert Extracted(lib, cr.value, "1") == Ok(Some(1.0));
  }

  lemma EchoWrites(lib: Lib, cs: CompiledSource, now: real)
    requires MatchesT(lib) && ReadsOne(lib) && Ready(cs)
    requires CompiledFrom(lib, EchoConfig(), EchoSource(), cs)
    ensures SourceEffect(lib, cs, now, Message("t", "1")) == EchoEffect(now)
  {
    hide CompiledForm, RuleEffect;
    var msg := Message("t", "1");
    SortedEmpty();
    EchoRuleWrites(lib, cs.rules[0], now);
    assert cs.rules[..0] == [] && RulesEffect(lib, [], now, msg) == Effect([], [], false);
    assert RulesEffect(lib, cs.rules, now, msg) == RuleEffect(lib, cs.rules[0], now, msg);
  }

  /** A heartbeat's name may be that of a metric: an accepted configuration and a run
      of one message whose Sets under the name of the source's heartbeat are first the
      number read and then the time. */
  lemma HeartbeatNameMayBeAMetric(lib: Lib, now: real)
    requires MatchesT(lib) && ReadsOne(lib)
    ensures Accepted(lib, EchoConfig())
    ensures SetsOf(lib, EchoConfig(), Turn(0, Message("t", "1")) + Handling(0, now, EchoEffect(now))) ==
            [Write("h", Gauge, HEARTBEAT_HELP, map[], 1.0), Write("h", Gauge, HEARTBEAT_HELP, map[], now)]
  {
    hide Accepted, CompiledForm, Ready, SourceEffect, Run, Handling, LoggedWrites;
    EchoIsAccepted(lib);
    CompiledSourcesAre(lib, EchoConfig());
    var sources := CompiledSources(lib, EchoConfig());
    assert sources[0].prefix == "t" by { PrefixOfT(); }
    PrefixOfT();
    EchoWrites(lib, sources[0], now);
    OneInTurn(lib, sources, Delivery(now, Message("t", "1")));
  }

  // --------------------------------------------- what validation rules out

  function TwoWrites(): seq<Write> {
    [Write("m", Gauge, "", map["a" := "1"], 1.0), Write("m", Gauge, "", map["b" := "1"], 2.0)]
  }

  lemma TwoIds()
    ensures WriteId(TwoWrites()[0]) != WriteId(TwoWrites()[1])
  {
    hide IdOf, IdentityOf;
    IdOfOneLabel("m", "a", "1");
    IdOfOneLabel("m", "b", "1");
    var a, b := "m" + [NUL] + "a" + [NUL] + "1", "m" + [NUL] + "b" + [NUL] + "1";
    assert a[2] != b[2];
  }

  lemma HistoryOfTwo(ws: seq<Write>, i: nat)
    requires |ws| == 2 && i < 2 && WriteId(ws[0]) != WriteId(ws[1])
    ensures WritesTo(ws, WriteId(ws[i])) == [ws[i]]
  {
    hide WriteId;
    assert ws[..1][..0] == [] && WritesTo([], WriteId(ws[i])) == [];
  }

  lemma OneLabelValues(name: string, value: string)
    ensures SortedSeq(map[name := value].Keys) == [name] && ValuesOf(map[name := value], [name]) == [value]
  {
    SortedSingleton(name);
    assert map[name := value].Keys == {name} && [name][..0] == [];
    assert ValuesOf(map[name := value], []) == [];
  }

  /** Without Validate two series of one metric can tie in the snapshot's order. */
  lemma DifferentLabelNamesTie(round: real -> real)
    ensures !TieFree(SamplesOf(round, PutAll(round, TwoWrites())))
  {
    hide WriteId, WritesTo, Replay, PutAll;
    var ws := TwoWrites();
    var m := PutAll(round, ws);
    TwoIds();
    HistoryOfTwo(ws, 0);
    HistoryOfTwo(ws, 1);
    HistoryDecides(round, ws, WriteId(ws[0]));
    HistoryDecides(round, ws, WriteId(ws[1]));
    ReplayFields(round, [ws[0]]);
    ReplayFields(round, [ws[1]]);
    OneLabelValues("a", "1");
    OneLabelValues("b", "1");
    var s, t := SampleOf(round, m[WriteId(ws[0])]), SampleOf(round, m[WriteId(ws[1])]);
    assert s.Key == Key("m", ["a"], ["1"]) && t.Key == Key("m", ["b"], ["1"]);
    TieOfKeys(s, t);
    assert s in SamplesOf(round, m) && t in SamplesOf(round, m);
  }

  lemma TieOfKeys(s: Sample, t: Sample)
    requires s.Key == Key("m", ["a"], ["1"]) && t.Key == Key("m", ["b"], ["1"])
    ensures s != t && !SampleLess(s, t) && !SampleLess(t, s)
  {
    LessIrreflexive("1");
    assert ["a"][0] != ["b"][0];
  }

  lemma ReferenceText()
    ensures Refs("{x}") == ["x"]
  {
    RefAtFindsTheMatch("{x}", "x");
    assert Braced("x") == "{x}" && IsLabelName("x");
    assert "{x}"[3..] == "" && Scan("") == [];
    assert Scan("{x}") == [Reference("x")];
    assert [Reference("x")][1..] == [] && RefsOf([]) == [];
  }

  /** Without Validate a reference in an overridden source label makes the
      predicted and the compiled label names differ. */
  lemma OverriddenReferenceSplitsThePrediction()
    ensures var source := map["l" := Label.Label(FROM_STATIC, "{x}", "", None)];
            var rule := map["l" := Label.Label(FROM_STATIC, "v", "", None)];
            LabelSet(["x"], [rule, source]) != LabelSet(["x"], [source + rule])
  {
    hide Refs;
    var source := map["l" := Label.Label(FROM_STATIC, "{x}", "", None)];
    var rule := map["l" := Label.Label(FROM_STATIC, "v", "", None)];
    StaticText('v');
    assert source + rule == rule;
    ConsumedByOne(rule);
    ConsumedByOne(source);
    ReferenceText();
    assert "x" in Refs(source["l"].Value);
    assert [rule, source][1..] == [source];
    assert "x" in Consumed([rule, source]) && "x" !in Declared([rule, source]);
    assert "x" in ["x"] && "x" in LabelSet(["x"], [rule]);
  }
}
