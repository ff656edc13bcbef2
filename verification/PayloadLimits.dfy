/** Concrete payloads under one accepted configuration: label values with a NUL in
    them, and a negative drop of a counter. */
module PayloadLimits {
  import opened Text
  import opened Library
  import opened Config
  import opened Labels
  import opened Validate
  import opened Acceptance
  import opened Payloads
  import opened Rules
  import opened SeriesStore
  import opened StoreLaws
  import opened Sources
  import opened Soundness
  import opened Clashes
  import opened Router
  import opened RouterLaws
  import opened RouterObject
  import opened Limits

  // ------------------------------------------ what a payload can carry

  /** A payload, and what it decodes to: an object with two strings and a number. */
  datatype Doc = Doc(body: string, a: string, b: string, v: real)

  function Decoded(d: Doc): Json {
    Object(map["a" := Text(d.a), "b" := Text(d.b), "v" := Number(d.v)])
  }

  /** The decoder reads the payload as written, as in Go, and the number is a float64. */
  ghost predicate Reads(lib: Lib, d: Doc) {
    && lib.unmarshal(d.body) == Some(Decoded(d))
    && lib.round(d.v) == d.v
  }

  function X(): Doc {
    Doc(@"{""a"":""1\u0000b\u00002"",""b"":""3"",""v"":1}", "1" + [NUL] + "b" + [NUL] + "2", "3", 1.0)
  }

  function Y(): Doc {
    Doc(@"{""a"":""1"",""b"":""2\u0000b\u00003"",""v"":-1}", "1", "2" + [NUL] + "b" + [NUL] + "3", -1.0)
  }

  function U(): Doc {
    Doc(@"{""a"":""1\u0000q"",""b"":""2"",""v"":1}", "1" + [NUL] + "q", "2", 1.0)
  }

  function V(): Doc {
    Doc(@"{""a"":""1"",""b"":""q\u00002"",""v"":1}", "1", "q" + [NUL] + "2", 1.0)
  }

  function PathV(): Value {
    Value.Value(FROM_JSON, "v", "", None, None)
  }

  function LabelledRule(): Rule {
    Rule("t", "m", TYPE_GAUGE, "help", PathV(), "",
         map["a" := Label.Label(FROM_JSON, "", "a", None), "b" := Label.Label(FROM_JSON, "", "b", None)])
  }

  function CounterRule(): Rule {
    Rule("t", "n", TYPE_COUNTER, "help", PathV(), "", map[])
  }

  /** A gauge with two labels and a counter, all read from the payload. */
  function BodySource(): Source {
    Source.Source("s", "", "t", None, "", map[], [LabelledRule(), CounterRule()], "p")
  }

  function BodyConfig(): Config {
    Config(MQTT("u", "i", "n", "p", Some(0), Some(false)), Server("l"), Log("info"), [BodySource()])
  }

  function GaugeWrite(d: Doc): Write {
    Write("m", Gauge, "help", map["a" := d.a, "b" := d.b], d.v)
  }

  function CounterWrite(d: Doc): Write {
    Write("n", Counter, "help", map[], d.v)
  }

  lemma SortedPair()
    ensures SortedSeq({"a", "b"}) == ["a", "b"]
  {
    LessIsStrictWeakOrder();
    assert Elements(["a", "b"]) == {"a", "b"};
    assert Less("a", "b");
    StrictlySortedIsUnique(Less, SortedSeq({"a", "b"}), ["a", "b"]);
  }

  lemma BodyRulesOk(lib: Lib)
    requires MatchesT(lib)
    ensures RuleOk(lib, LabelledRule()) && RuleOk(lib, CounterRule())
  {
    NothingToScan();
    assert Refs("") == [];
    assert Named([""]) == [] by { assert [""][1..] == []; }
    assert Captures(lib, "t") == {};
    var labels := LabelledRule().Labels;
    assert NamedLabelOk({}, "a", labels["a"]) && NamedLabelOk({}, "b", labels["b"]);
    assert IsMetricName("m") && IsMetricName("n");
  }

  lemma BodyRuleUses(lib: Lib, site: Where)
    requires MatchesT(lib)
    ensures RuleUses(lib, BodySource(), site, LabelledRule()) == [Use(site, "m", ["a", "b"], "help", TYPE_GAUGE)]
    ensures RuleUses(lib, BodySource(), site, CounterRule()) == [Use(site, "n", [], "help", TYPE_COUNTER)]
  {
    assert Named([""]) == [] by { assert [""][1..] == []; }
    DeclaredByTwo(LabelledRule().Labels, BodySource().Labels);
    DeclaredByTwo(CounterRule().Labels, BodySource().Labels);
    assert LabelSet([], [LabelledRule().Labels, BodySource().Labels]) == {"a", "b"};
    assert LabelSet([], [CounterRule().Labels, BodySource().Labels]) == {};
    SortedPair();
    SortedEmpty();
  }

  lemma BodyUses(lib: Lib)
    requires MatchesT(lib)
    ensures AllUses(lib, [BodySource()]) ==
            [Use(RuleOf("p", 0), "m", ["a", "b"], "help", TYPE_GAUGE),
             Use(RuleOf("p", 1), "n", [], "help", TYPE_COUNTER)]
  {
    hide RuleUses;
    var s := BodySource();
    BodyRuleUses(lib, RuleOf("p", 0));
    BodyRuleUses(lib, RuleOf("p", 1));
    assert s.Rules[..1] == [s.Rules[0]] && s.Rules[..1][..0] == [];
    assert RuleListUses(lib, s, []) == [];
    assert RuleListUses(lib, s, s.Rules[..1]) == RuleUses(lib, s, RuleOf("p", 0), s.Rules[0]);
    assert [s][..0] == [] && AllUses(lib, []) == [];
  }

  lemma BodyConfigIsAccepted(lib: Lib)
    requires MatchesT(lib)
    ensures Accepted(lib, BodyConfig()) && HarmlessClashes(AllUses(lib, BodyConfig().SourceList))
  {
    hide RuleOk, AllUses, HarmlessClashes;
    var c := BodyConfig();
    BodyRulesOk(lib);
    BodyUses(lib);
    assert c.SourceList == [BodySource()];
    assert SourceOk(lib, BodySource());
    CleanHeartbeatsNeverClash(lib, c);
  }

  lemma LabelledNames(lib: Lib, cr: CompiledRule)
    requires MatchesT(lib) && CompiledForm(lib, BodySource(), LabelledRule()) == Good(cr)
    ensures HasGroup(cr.value) && cr.autoLabels == ["a", "b"]
  {
    hide CompiledLabels;
    BodyRulesOk(lib);
    PredictedLabels(lib, BodySource(), LabelledRule());
    BodyRuleUses(lib, MainFile);
    assert RuleUses(lib, BodySource(), MainFile, LabelledRule())[0].labels == ["a", "b"];
  }

  lemma LabelledForm(lib: Lib, cr: CompiledRule)
    requires CompiledForm(lib, BodySource(), LabelledRule()) == Good(cr)
    ensures {"a", "b"} <= cr.labels.extractors.Keys
    ensures cr.labels.extractors["a"] == LabelExtractor("", true, ["a"], None)
    ensures cr.labels.extractors["b"] == LabelExtractor("", true, ["b"], None)
    ensures cr.MetricName == "m" && cr.LastUpdatedMetric == "" && !cr.Counter && cr.Help == "help"
  {
    hide LabelSet, Split, Named, NewExtractor, SortedSeq;
    SplitFirst("a", "", '.');
    SplitFirst("b", "", '.');
    var declared := BodySource().Labels + LabelledRule().Labels;
    assert declared == LabelledRule().Labels;
    assert TYPE_GAUGE != TYPE_COUNTER;
  }

  lemma CounterForm(lib: Lib, cr: CompiledRule)
    requires MatchesT(lib) && CompiledForm(lib, BodySource(), CounterRule()) == Good(cr)
    ensures HasGroup(cr.value) && cr.autoLabels == []
    ensures cr.MetricName == "n" && cr.LastUpdatedMetric == "" && cr.Counter && cr.Help == "help"
  {
    BodyRulesOk(lib);
    PredictedLabels(lib, BodySource(), CounterRule());
    BodyRuleUses(lib, MainFile);
    assert RuleUses(lib, BodySource(), MainFile, CounterRule())[0].labels == [];
  }

  lemma FieldRead(lib: Lib, d: Doc, name: string)
    requires Reads(lib, d) && (name == "a" || name == "b" || name == "v")
    ensures WalkBody(lib, d.body, [name]) ==
            Ok(Some(if name == "a" then Text(d.a) else if name == "b" then Text(d.b) else Number(d.v)))
  {
    var fields := map["a" := Text(d.a), "b" := Text(d.b), "v" := Number(d.v)];
    var read := fields[name];
    assert [name][1..] == [] && WalkFrom(read, []) == Some(read);
    assert WalkFrom(Object(fields), [name]) == Some(read);
  }

  lemma RuleReads(lib: Lib, r: Rule, cr: CompiledRule, d: Doc)
    requires MatchesT(lib) && Reads(lib, d) && (r == LabelledRule() || r == CounterRule())
    requires CompiledForm(lib, BodySource(), r) == Good(cr)
    ensures HasGroup(cr.value) && Extracted(lib, cr.value, d.body) == Ok(Some(d.v))
    ensures cr.re.find("t").Some?
  {
    hide CompiledLabels, LabelSet, WalkBody, Split;
    SplitFirst("v", "", '.');
    FieldRead(lib, d, "v");
  }

  lemma LabelRead(lib: Lib, d: Doc, name: string, captured: map<string, string>)
    requires Reads(lib, d) && (name == "a" || name == "b")
    ensures LabelValue(lib, LabelExtractor("", true, [name], None), captured, d.body) ==
            Ok(Some(if name == "a" then d.a else d.b))
  {
    hide WalkBody;
    FieldRead(lib, d, name);
  }

  lemma LabelsRead(lib: Lib, d: Doc, extractors: map<string, LabelExtractor>, captured: map<string, string>)
    requires Reads(lib, d) && {"a", "b"} <= extractors.Keys
    requires extractors["a"] == LabelExtractor("", true, ["a"], None)
    requires extractors["b"] == LabelExtractor("", true, ["b"], None)
    ensures ResolvedLabels(lib, extractors, ["a", "b"], captured, d.body) == Ok(Some(map["a" := d.a, "b" := d.b]))
  {
    hide LabelValue, Reads;
    LabelRead(lib, d, "a", captured);
    LabelRead(lib, d, "b", captured);
    assert ["a", "b"][..1] == ["a"] && ["a"][..0] == [];
    assert ResolvedLabels(lib, extractors, [], captured, d.body) == Ok(Some(map[]));
    assert ResolvedLabels(lib, extractors, ["a"], captured, d.body) == Ok(Some(map["a" := d.a]));
  }

  lemma BodyRuleWrites(lib: Lib, d: Doc, labelled: CompiledRule, counter: CompiledRule, now: real)
    requires MatchesT(lib) && Reads(lib, d)
    requires CompiledForm(lib, BodySource(), LabelledRule()) == Good(labelled)
    requires CompiledForm(lib, BodySource(), CounterRule()) == Good(counter)
    ensures HasGroup(labelled.value) && HasGroup(counter.value)
    ensures RuleEffect(lib, labelled, now, Message("t", d.body)) == Effect([GaugeWrite(d)], [], true)
    ensures RuleEffect(lib, counter, now, Message("t", d.body)) == Effect([CounterWrite(d)], [], true)
  {
    hide ResolvedLabels, Extracted, Captured, CompiledForm, Reads;
    LabelledNames(lib, labelled);
    LabelledForm(lib, labelled);
    CounterForm(lib, counter);
    RuleReads(lib, LabelledRule(), labelled, d);
    RuleReads(lib, CounterRule(), counter, d);
    LabelsRead(lib, d, labelled.labels.extractors, Captured(labelled.re.names, labelled.re.find("t").value));
    NothingToResolve(lib, counter.labels.extractors, Captured(counter.re.names, counter.re.find("t").value), d.body);
  }

  lemma NothingToResolve(lib: Lib, extractors: map<string, LabelExtractor>, captured: map<string, string>, body: string)
    ensures ResolvedLabels(lib, extractors, [], captured, body) == Ok(Some(map[]))
  {}

  lemma BodySourceWrites(lib: Lib, d: Doc, cs: CompiledSource, now: real)
    requires MatchesT(lib) && Reads(lib, d)
    requires CompiledFrom(lib, BodyConfig(), BodySource(), cs) && Ready(cs)
    ensures SourceEffect(lib, cs, now, Message("t", d.body)) == BodyEffect(d)
  {
    hide CompiledForm, RuleEffect, HasGroup, GaugeWrite, CounterWrite, Reads;
    var msg := Message("t", d.body);
    assert BodySource().Rules[0] == LabelledRule() && BodySource().Rules[1] == CounterRule();
    BodyRuleWrites(lib, d, cs.rules[0], cs.rules[1], now);
    TwoRulesEffect(lib, cs.rules, now, msg);
  }

  function BodyEffect(d: Doc): Effect {
    Effect([GaugeWrite(d), CounterWrite(d)], [], true)
  }

  /** Two messages on topic t, handled one after the other. */
  function TwoMessages(first: Doc, second: Doc, now: real): seq<Action> {
    Turn(0, Message("t", first.body)) + Handling(0, now, BodyEffect(first)) +
    (Turn(0, Message("t", second.body)) + Handling(0, now, BodyEffect(second)))
  }

  function FourWrites(first: Doc, second: Doc): seq<Write> {
    [GaugeWrite(first), CounterWrite(first), GaugeWrite(second), CounterWrite(second)]
  }

  lemma BodyRun(lib: Lib, first: Doc, second: Doc, now: real)
    requires MatchesT(lib) && Reads(lib, first) && Reads(lib, second)
    ensures Accepted(lib, BodyConfig())
    ensures SetsOf(lib, BodyConfig(), TwoMessages(first, second, now)) == FourWrites(first, second)
    ensures StoreAfter(lib, BodyConfig(), TwoMessages(first, second, now)) ==
            PutAll(lib.round, FourWrites(first, second))
  {
    hide Accepted, CompiledForm, Ready, SourceEffect, Run, Handling, PutAll, AllPossible, LoggedWrites, Resting,
        HarmlessClashes, GaugeWrite, CounterWrite, Reads, MatchesT;
    var c := BodyConfig();
    BodyConfigIsAccepted(lib);
    CompiledSourcesAre(lib, c);
    var sources := CompiledSources(lib, c);
    assert sources[0].prefix == "t" by { PrefixOfT(); }
    var d, e := Delivery(now, Message("t", first.body)), Delivery(now, Message("t", second.body));
    BodySourceWrites(lib, first, sources[0], now);
    BodySourceWrites(lib, second, sources[0], now);
    TwoInTurn(lib, sources, d, e);
    RunWritesArePossible(lib, c, TwoMessages(first, second, now));
  }

  lemma TwoInTurn(lib: Lib, sources: seq<CompiledSource>, d: Delivery, e: Delivery)
    requires AllReady(sources) && |sources| > 0
    requires Owns(sources[0].prefix, d.msg.Topic) && Owns(sources[0].prefix, e.msg.Topic)
    ensures var first := SourceEffect(lib, sources[0], d.now, d.msg);
            var second := SourceEffect(lib, sources[0], e.now, e.msg);
            LoggedWrites(Run(lib, sources, Started(sources),
                             Turn(0, d.msg) + Handling(0, d.now, first) +
                             (Turn(0, e.msg) + Handling(0, e.now, second))).log) == first.writes + second.writes
  {
    hide Ready, SourceEffect, Run, Handling, Owns, LoggedWrites, Resting, Turn;
    var src := sources[0];
    RunInTurn(lib, sources, 0, [d, e]);
    var first, second := SourceEffect(lib, src, d.now, d.msg), SourceEffect(lib, src, e.now, e.msg);
    var ws := first.writes;
    var steps := Turn(0, d.msg) + Handling(0, d.now, first);
    assert [d, e][..1] == [d] && [d][..0] == [];
    assert InTurn(lib, src, 0, []) == [] && DeliveredWrites(lib, src, []) == [];
    assert [] + steps == steps && [] + ws == ws;
    assert InTurn(lib, src, 0, [d]) == steps && DeliveredWrites(lib, src, [d]) == ws;
    assert InTurn(lib, src, 0, [d, e]) == steps + (Turn(0, e.msg) + Handling(0, e.now, second));
    assert DeliveredWrites(lib, src, [d, e]) == ws + second.writes;
  }

  // What those runs show.

  lemma IdOfPair(value: string, other: string)
    ensures var labels := map["a" := value, "b" := other];
            && SortedSeq(labels.Keys) == ["a", "b"] && ValuesOf(labels, ["a", "b"]) == [value, other]
            && IdOf("m", labels) == "m" + [NUL] + "a" + [NUL] + value + [NUL] + "b" + [NUL] + other
  {
    var labels := map["a" := value, "b" := other];
    SortedPair();
    assert labels.Keys == {"a", "b"};
    assert ["a", "b"][..1] == ["a"] && ["a"][..0] == [];
    assert ValuesOf(labels, []) == [] && ValuesOf(labels, ["a"]) == [value];
    assert [value, other][..1] == [value] && [value][..0] == [];
    assert IdentityOf("m", [], []) == "m";
    assert IdentityOf("m", ["a"], [value]) == "m" + [NUL] + "a" + [NUL] + value;
  }

  function PairKey(d: Doc): PlainKey {
    PlainKey("m", map["a" := d.a, "b" := d.b])
  }

  /** Payloads X and Y: different labels, one identity. */
  lemma PairsCollide()
    ensures PairKey(X()) != PairKey(Y()) && KeyId(PairKey(X())) == KeyId(PairKey(Y()))
  {
    hide X, Y, IdOf;
    IdOfPair(X().a, X().b);
    IdOfPair(Y().a, Y().b);
    SharedText("m" + [NUL] + "a" + [NUL]);
    assert PairKey(X()).labels["a"] != PairKey(Y()).labels["a"];
  }

  lemma SharedText(head: string)
    ensures X().a != Y().a
    ensures head + X().a + [NUL] + "b" + [NUL] + X().b == head + Y().a + [NUL] + "b" + [NUL] + Y().b
  {
    var a, b := "1", [NUL] + "b" + [NUL];
    assert X().a == a + b + "2" && Y().a == a && X().b == "3" && Y().b == "2" + b + "3";
    assert X().a[1] == NUL;
    assert (a + b + "2") + b + "3" == a + b + ("2" + b + "3");
    assert head + (a + b + "2") + [NUL] + "b" + [NUL] + "3" == head + ((a + b + "2") + b + "3");
    assert head + a + [NUL] + "b" + [NUL] + ("2" + b + "3") == head + (a + b + ("2" + b + "3"));
  }

  lemma CounterId()
    ensures IdOf("n", map[]) == "n" && forall d :: WriteId(GaugeWrite(d)) != "n"
  {
    IdOfNoLabel("n");
    forall d ensures WriteId(GaugeWrite(d)) != "n" {
      IdOfPair(d.a, d.b);
      assert WriteId(GaugeWrite(d))[0] == 'm';
    }
  }

  /** In the run of two messages the gauges are written apart from the counter. */
  lemma HistoryOfFour(first: Doc, second: Doc)
    ensures WritesTo(FourWrites(first, second), "n") == [CounterWrite(first), CounterWrite(second)]
    ensures KeyId(PairKey(first)) == KeyId(PairKey(second)) ==>
              WritesTo(FourWrites(first, second), KeyId(PairKey(first))) == [GaugeWrite(first), GaugeWrite(second)]
    ensures KeyId(PairKey(first)) != KeyId(PairKey(second)) ==>
              && WritesTo(FourWrites(first, second), KeyId(PairKey(first))) == [GaugeWrite(first)]
              && WritesTo(FourWrites(first, second), KeyId(PairKey(second))) == [GaugeWrite(second)]
  {
    hide IdOf, WritesTo;
    CounterId();
    var a, b, c, d := GaugeWrite(first), CounterWrite(first), GaugeWrite(second), CounterWrite(second);
    forall id
      ensures WritesTo([a, b, c, d], id) == Only(a, id) + Only(b, id) + Only(c, id) + Only(d, id)
    {
      FourFiltered(a, b, c, d, id);
    }
  }

  ghost function Only(w: Write, id: string): seq<Write> {
    if WriteId(w) == id then [w] else []
  }

  lemma FourFiltered(a: Write, b: Write, c: Write, d: Write, id: string)
    ensures WritesTo([a, b, c, d], id) == Only(a, id) + Only(b, id) + Only(c, id) + Only(d, id)
  {
    hide WriteId, WritesTo;
    NoHistory(id);
    WritesToStep([], a, id);
    WritesToStep([a], b, id);
    WritesToStep([a, b], c, id);
    WritesToStep([a, b, c], d, id);
    assert [] + [a] == [a] && [a] + [b] == [a, b] && [a, b] + [c] == [a, b, c] && [a, b, c] + [d] == [a, b, c, d];
  }

  lemma NoHistory(id: string)
    ensures WritesTo([], id) == []
  {}

  /** NUL-free label values are needed: under an accepted configuration without a
      clash, two messages with different labels share one series, and what it shows
      is not what was written with the first labels. */
  lemma NulValuesShareASeries(lib: Lib, now: real)
    requires MatchesT(lib) && Reads(lib, X()) && Reads(lib, Y())
    ensures var c, actions := BodyConfig(), TwoMessages(X(), Y(), now);
            && Accepted(lib, c) && HarmlessClashes(AllUses(lib, c.SourceList))
            && WritesToKey(SetsOf(lib, c, actions), PairKey(X())) == [GaugeWrite(X())]
            && KeyId(PairKey(X())) in StoreAfter(lib, c, actions)
            && Exported(lib.round, StoreAfter(lib, c, actions)[KeyId(PairKey(X()))]) == Y().v != X().v
            && !Shows(lib.round, StoreAfter(lib, c, actions)[KeyId(PairKey(X()))], [GaugeWrite(X())])
  {
    hide Accepted, HarmlessClashes, AllUses, Run, IdOf, PutAll, WritesTo, Replay;
    BodyConfigIsAccepted(lib);
    BodyRun(lib, X(), Y(), now);
    PairsCollide();
    HistoryOfFour(X(), Y());
    var ws := FourWrites(X(), Y());
    HistoryDecides(lib.round, ws, KeyId(PairKey(X())));
    GaugeExportsLastValue(lib.round, [GaugeWrite(X()), GaugeWrite(Y())]);
    KeyOfFour(X(), Y());
  }

  lemma KeyOfFour(first: Doc, second: Doc)
    requires PairKey(first) != PairKey(second)
    ensures WritesToKey(FourWrites(first, second), PairKey(first)) == [GaugeWrite(first)]
  {
    var k, ws := PairKey(first), FourWrites(first, second);
    assert ws[..3][..2] == ws[..2] && ws[..2][..1] == ws[..1] && ws[..1][..0] == [];
    assert WritesToKey([], k) == [];
    assert WritesToKey(ws[..1], k) == [ws[0]];
    assert WritesToKey(ws[..2], k) == [ws[0]];
    assert WritesToKey(ws[..3], k) == [ws[0]];
  }

  /** A negative drop lowers a counter: the second message of this run takes the
      exported value from 1 to 0. */
  lemma NegativeDropLowersACounter(lib: Lib, now: real)
    requires MatchesT(lib) && Reads(lib, X()) && Reads(lib, Y()) && lib.round(0.0) == 0.0
    ensures var c, actions := BodyConfig(), TwoMessages(X(), Y(), now);
            && Accepted(lib, c) && HarmlessClashes(AllUses(lib, c.SourceList))
            && var history := WritesTo(SetsOf(lib, c, actions), "n");
            && history == [CounterWrite(X()), CounterWrite(Y())] && "n" in StoreAfter(lib, c, actions)
            && ExportedAfter(lib.round, history, 1) == 1.0
            && Exported(lib.round, StoreAfter(lib, c, actions)["n"]) == 0.0
  {
    hide Accepted, HarmlessClashes, AllUses, Run, IdOf, PutAll, WritesTo, Replay, GaugeWrite;
    BodyConfigIsAccepted(lib);
    BodyRun(lib, X(), Y(), now);
    HistoryOfFour(X(), Y());
    HistoryDecides(lib.round, FourWrites(X(), Y()), "n");
    var history := [CounterWrite(X()), CounterWrite(Y())];
    CounterExportsReadings(lib.round, history);
    CounterExportsReadings(lib.round, history[..1]);
  }

  /** NUL-free label values are needed for the snapshot too: in this run two samples
      of one metric tie. */
  lemma NulValuesTie(lib: Lib, now: real)
    requires MatchesT(lib) && Reads(lib, U()) && Reads(lib, V())
    ensures var c, actions := BodyConfig(), TwoMessages(U(), V(), now);
            Accepted(lib, c) && !TieFree(SamplesOf(lib.round, StoreAfter(lib, c, actions)))
  {
    hide Accepted, Run, PutAll, KeyId, SampleOf, SamplesOf, FourWrites, StoreAfter, TieFree;
    BodyRun(lib, U(), V(), now);
    PairsTie(lib.round);
  }

  lemma PairsTie(round: real -> real)
    ensures !TieFree(SamplesOf(round, PutAll(round, FourWrites(U(), V()))))
  {
    hide PutAll, KeyId, SampleOf, SamplesOf, FourWrites, SampleLess, Join;
    TyingPairs();
    var s := PairSample(round, U(), V(), U());
    var t := PairSample(round, U(), V(), V());
    EqualJoinsTie(s, t);
  }

  lemma EqualJoinsTie(s: Sample, t: Sample)
    requires s.Key.Name == t.Key.Name && Join(s.Key.LabelValues, NUL) == Join(t.Key.LabelValues, NUL)
    ensures !SampleLess(s, t) && !SampleLess(t, s)
  {
    LessIrreflexive(Join(s.Key.LabelValues, NUL));
  }

  /** When their identities differ, both messages have a sample of their own. */
  lemma PairSample(round: real -> real, first: Doc, second: Doc, d: Doc) returns (s: Sample)
    requires KeyId(PairKey(first)) != KeyId(PairKey(second)) && (d == first || d == second)
    ensures s in SamplesOf(round, PutAll(round, FourWrites(first, second)))
    ensures s.Key == Key("m", ["a", "b"], [d.a, d.b])
  {
    hide IdOf, PutAll, WritesTo, Replay;
    var ws, id := FourWrites(first, second), KeyId(PairKey(d));
    HistoryOfFour(first, second);
    HistoryDecides(round, ws, id);
    ReplayFields(round, [GaugeWrite(d)]);
    IdOfPair(d.a, d.b);
    s := SampleOf(round, PutAll(round, ws)[id]);
  }

  lemma TyingPairs()
    ensures KeyId(PairKey(U())) != KeyId(PairKey(V())) && U().a != V().a
    ensures Join([U().a, U().b], NUL) == Join([V().a, V().b], NUL)
  {
    hide IdOf;
    IdOfPair(U().a, U().b);
    IdOfPair(V().a, V().b);
    assert KeyId(PairKey(U()))[6] == 'q' && KeyId(PairKey(V()))[6] == 'b';
    assert U().a[1] == NUL && V().a == "1";
    assert [U().a, U().b][1..] == [U().b] && [V().a, V().b][1..] == [V().b];
  }

  // ---------------------------------------------- the premises about the library

  function Documents(body: string): Option<Json> {
    if body == X().body then Some(Decoded(X()))
    else if body == Y().body then Some(Decoded(Y()))
    else if body == U().body then Some(Decoded(U()))
    else if body == V().body then Some(Decoded(V()))
    else None
  }

  function Itself(s: string): Option<Regexp> {
    var re: Regexp := RawRegexp([""], topic => if topic == s then Some([topic]) else None);
    Some(re)
  }

  /** What the runs here and in Limits ask of the library goes together. */
  lemma PremisesOnTheLibrary() returns (lib: Lib)
    ensures MatchesT(lib) && ReadsOne(lib) && lib.round(0.0) == 0.0
    ensures Reads(lib, X()) && Reads(lib, Y()) && Reads(lib, U()) && Reads(lib, V())
  {
    lib := Lib(Itself, Documents, n => "", s => Some(1.0), s => s, x => x);
    assert |X().body| != |Y().body| && |X().body| != |U().body| && |X().body| != |V().body|;
    assert |Y().body| != |U().body| && |Y().body| != |V().body|;
    assert U().body[7] != V().body[7];
  }
}
