/** internal/exporter: one registry gathers the program's own families together
    with the snapshot of the store. */
module Scrape {
  import opened Text
  import opened Library
  import opened Config
  import opened Labels
  import opened Validate
  import opened Acceptance
  import opened SeriesStore
  import opened StoreLaws
  import opened Sources
  import opened Soundness
  import opened Clashes
  import opened Router
  import opened RouterLaws
  import opened Limits

  /** self.go: the families registered beside the collector. */
  function OwnFamilies(): seq<Use> {
    [Use(MainFile, "mqtt2prom_build_info", ["commit", "go_version", "version"], "Build information, always 1",
         TYPE_GAUGE),
     Use(MainFile, "mqtt2prom_mqtt_connected", [], "1 when the MQTT connection is up", TYPE_GAUGE),
     Use(MainFile, "mqtt2prom_mqtt_reconnects_total", [], "Number of times the MQTT connection was re-established",
         TYPE_COUNTER),
     Use(MainFile, "mqtt2prom_messages_received_total", ["source"], "MQTT messages handed to a source", TYPE_COUNTER),
     Use(MainFile, "mqtt2prom_messages_dropped_total", [], "Messages dropped because a source buffer was full",
         TYPE_COUNTER),
     Use(MainFile, "mqtt2prom_message_errors_total", ["reason", "source"],
         "Messages a rule matched but could not turn into a value", TYPE_COUNTER),
     SeriesFamily()]
  }

  function SeriesFamily(): Use {
    Use(MainFile, "mqtt2prom_series", [], "Series currently held in the sample store", TYPE_GAUGE)
  }

  ghost predicate OfFamily(s: Sample, o: Use) {
    && s.Key.Name == o.name && s.Key.LabelNames == o.labels && |s.Key.LabelValues| == |o.labels|
    && s.Help == o.help && KindName(s.Kind) == o.kind
  }

  /** Samples of the program's own families, one for each set of label values. */
  ghost predicate OwnSamples(own: set<Sample>) {
    && (forall s :: s in own ==> exists i :: 0 <= i < |OwnFamilies()| && OfFamily(s, OwnFamilies()[i]))
    && forall s, t :: s in own && t in own && s.Key == t.Key ==> s == t
  }

  /** What a scrape needs: samples of one name agree on label names, help and kind,
      and no series is given twice. */
  ghost predicate Gathers(stored: set<Sample>, own: set<Sample>) {
    && (forall s, t :: s in stored + own && t in stored + own && s.Key.Name == t.Key.Name ==>
          s.Key.LabelNames == t.Key.LabelNames && s.Help == t.Help && s.Kind == t.Kind)
    && (forall s, t :: s in stored + own && t in stored + own && s.Key == t.Key ==> s == t)
    && (forall s, t :: s in stored && t in own ==> s.Key != t.Key)
  }

  /** No rule or heartbeat takes the name of one of the program's own families. */
  predicate OwnApart(uses: seq<Use>) {
    forall i, k :: 0 <= i < |uses| && 0 <= k < |OwnFamilies()| ==> uses[i].name != OwnFamilies()[k].name
  }

  lemma OwnNamesDiffer(i: nat, j: nat)
    requires i < |OwnFamilies()| && j < |OwnFamilies()| && OwnFamilies()[i].name == OwnFamilies()[j].name
    ensures i == j
  {
    var lengths := [20, 24, 31, 33, 32, 30, 16];
    assert forall k :: 0 <= k < 7 ==> |OwnFamilies()[k].name| == lengths[k];
  }

  lemma OwnSamplesAgree(own: set<Sample>, s: Sample, t: Sample)
    requires OwnSamples(own) && s in own && t in own && s.Key.Name == t.Key.Name
    ensures s.Key.LabelNames == t.Key.LabelNames && s.Help == t.Help && s.Kind == t.Kind
  {
    hide OwnFamilies;
    var i :| 0 <= i < |OwnFamilies()| && OfFamily(s, OwnFamilies()[i]);
    var j :| 0 <= j < |OwnFamilies()| && OfFamily(t, OwnFamilies()[j]);
    OwnNamesDiffer(i, j);
    KindNames();
  }

  /** Samples of a store, by their entries. */
  lemma StoredSamples(round: real -> real, m: Contents, s: Sample, t: Sample)
    requires WellKeyed(m) && FamiliesAgree(m) && s in SamplesOf(round, m) && t in SamplesOf(round, m)
    ensures s.Key.Name == t.Key.Name ==>
              s.Key.LabelNames == t.Key.LabelNames && s.Help == t.Help && s.Kind == t.Kind
    ensures s.Key == t.Key ==> s == t
  {
    hide IdentityOf;
    var a :| a in m && s == SampleOf(round, m[a]);
    var b :| b in m && t == SampleOf(round, m[b]);
  }

  /** A store whose samples have none of the program's own names is gathered well
      when its families agree. */
  lemma GathersApart(round: real -> real, m: Contents, own: set<Sample>)
    requires WellKeyed(m) && FamiliesAgree(m) && OwnSamples(own)
    requires forall s, k :: s in SamplesOf(round, m) && 0 <= k < |OwnFamilies()| ==> s.Key.Name != OwnFamilies()[k].name
    ensures Gathers(SamplesOf(round, m), own)
  {
    hide OwnFamilies, WellKeyed, FamiliesAgree, SamplesOf;
    var stored := SamplesOf(round, m);
    forall s, t | s in stored && t in own ensures s.Key.Name != t.Key.Name {
      var i :| 0 <= i < |OwnFamilies()| && OfFamily(t, OwnFamilies()[i]);
    }
    forall s, t | s in stored + own && t in stored + own && s.Key.Name == t.Key.Name
      ensures s.Key.LabelNames == t.Key.LabelNames && s.Help == t.Help && s.Kind == t.Kind
      ensures s.Key == t.Key ==> s == t
    {
      if s in stored && t in stored { StoredSamples(round, m, s, t); }
      else if s in own && t in own { OwnSamplesAgree(own, s, t); }
    }
  }

  lemma StoredNames(uses: seq<Use>, round: real -> real, ws: seq<Write>, s: Sample) returns (i: nat)
    requires AllChecked(uses, ws) && s in SamplesOf(round, PutAll(round, ws))
    ensures i < |uses| && s.Key.Name == uses[i].name
  {
    hide PutAll;
    var m := PutAll(round, ws);
    var a :| a in m && s == SampleOf(round, m[a]);
    var v, w := FirstAndLast(round, ws, a);
    var k :| 0 <= k < |ws| && ws[k] == v;
    assert Checked(uses, ws[k]);
    var u :| u in uses && Conforms(v, u);
    i :| 0 <= i < |uses| && uses[i] == u;
  }

  lemma CheckedScrapesGather(uses: seq<Use>, round: real -> real, ws: seq<Write>, own: set<Sample>)
    requires AllChecked(uses, ws) && FamiliesAgree(PutAll(round, ws)) && OwnApart(uses) && OwnSamples(own)
    ensures Gathers(SamplesOf(round, PutAll(round, ws)), own)
  {
    hide AllChecked, PutAll, FamiliesAgree, OwnFamilies, OwnSamples, WellKeyed, SamplesOf, Gathers;
    StoreStaysWellKeyed(round, ws);
    forall s, k | s in SamplesOf(round, PutAll(round, ws)) && 0 <= k < |OwnFamilies()|
      ensures s.Key.Name != OwnFamilies()[k].name
    {
      var i := StoredNames(uses, round, ws, s);
    }
    GathersApart(round, PutAll(round, ws), own);
  }

  lemma GatheredFamiliesAgree(round: real -> real, m: Contents)
    requires Gathers(SamplesOf(round, m), {})
    ensures FamiliesAgree(m)
  {
    forall a, b | a in m && b in m && m[a].name == m[b].name
      ensures m[a].names == m[b].names && m[a].help == m[b].help && m[a].kind == m[b].kind
    {
      var s, t := SampleOf(round, m[a]), SampleOf(round, m[b]);
      assert s in SamplesOf(round, m) + {} && t in SamplesOf(round, m) + {};
    }
  }

  ghost function OwnSampleOf(o: Use): Sample {
    Sample(Key(o.name, o.labels, Blanks(|o.labels|)), if o.kind == TYPE_COUNTER then Counter else Gauge, o.help, 0.0)
  }

  lemma OneOwnSample(k: nat)
    requires k < |OwnFamilies()|
    ensures OwnSamples({OwnSampleOf(OwnFamilies()[k])})
  {
    var o := OwnFamilies()[k];
    assert o.kind == TYPE_COUNTER || o.kind == TYPE_GAUGE;
    hide OwnFamilies, Blanks;
    KindNames();
    assert OfFamily(OwnSampleOf(o), OwnFamilies()[k]);
  }

  /** A use with an own name: one write, and the own family given as well, make a
      scrape that disagrees with itself or holds a series twice. */
  lemma TakenName(u: Use, round: real -> real, k: nat)
    requires Shaped(u) && k < |OwnFamilies()| && u.name == OwnFamilies()[k].name
    ensures var w := WriteOf(u, Blanks(|u.labels|));
            !Gathers(SamplesOf(round, PutAll(round, [w])), {OwnSampleOf(OwnFamilies()[k])})
  {
    hide OwnFamilies, Blanks, WriteId, WritesTo, Replay, PutAll, LabelMapOf, ValuesOf, IdentityOf, SortedSeq;
    var w, t := WriteOf(u, Blanks(|u.labels|)), OwnSampleOf(OwnFamilies()[k]);
    var m, id := PutAll(round, [w]), WriteId(w);
    WriteOfUse(u, Blanks(|u.labels|));
    NothingWritten(id);
    WritesToStep([], w, id);
    assert [] + [w] == [w];
    HistoryDecides(round, [w], id);
    ReplayFields(round, [w]);
    UseValues(u, Blanks(|u.labels|));
    var s := SampleOf(round, m[id]);
    assert s.Key == Key(u.name, u.labels, Blanks(|u.labels|));
    assert s in SamplesOf(round, m);
    assert s in SamplesOf(round, m) + {t} && t in SamplesOf(round, m) + {t};
  }

  lemma NothingWritten(id: string)
    ensures WritesTo([], id) == []
  {}

  lemma UseValues(u: Use, values: seq<string>)
    requires Shaped(u) && |values| == |u.labels|
    ensures SortedSeq(WriteOf(u, values).labels.Keys) == u.labels
    ensures ValuesOf(WriteOf(u, values).labels, u.labels) == values
  {
    hide LabelMapOf, ValuesOf, StrictWeakOrder, Less;
    WriteOfUse(u, values);
    LessIsStrictWeakOrder();
    assert StrictlySortedBy(Less, u.labels);
    StrictlySortedIsDistinct(Less, u.labels);
    LabelMapValues(u.labels, values);
  }

  /** The exact condition for whole scrapes: over all label values and all samples of
      the own families, a scrape is good if and only if the clashes are harmless and
      no use has an own name. */
  lemma ScrapesGatherExactly(uses: seq<Use>, round: real -> real)
    requires UsesAgree(uses) && forall u :: u in uses ==> Shaped(u)
    ensures (forall ws, own :: AllChecked(uses, ws) && OwnSamples(own) ==>
               Gathers(SamplesOf(round, PutAll(round, ws)), own)) <==>
            HarmlessClashes(uses) && OwnApart(uses)
  {
    hide AllChecked, FamiliesAgree, PutAll, UsesAgree, Shaped, HarmlessClashes, OwnFamilies, OwnSamples, Gathers,
        SamplesOf, WriteOf;
    FamiliesAgreeExactly(uses, round);
    if HarmlessClashes(uses) && OwnApart(uses) {
      forall ws, own | AllChecked(uses, ws) && OwnSamples(own)
        ensures Gathers(SamplesOf(round, PutAll(round, ws)), own)
      {
        CheckedScrapesGather(uses, round, ws, own);
      }
    } else if !HarmlessClashes(uses) {
      var ws :| AllChecked(uses, ws) && !FamiliesAgree(PutAll(round, ws));
      NoOwnSamples();
      if Gathers(SamplesOf(round, PutAll(round, ws)), {}) { GatheredFamiliesAgree(round, PutAll(round, ws)); }
    } else {
      var i, k :| 0 <= i < |uses| && 0 <= k < |OwnFamilies()| && uses[i].name == OwnFamilies()[k].name;
      var w := WriteOf(uses[i], Blanks(|uses[i].labels|));
      TakenName(uses[i], round, k);
      OneOwnSample(k);
      OneChecked(uses, i, Blanks(|uses[i].labels|));
    }
  }

  lemma NoOwnSamples()
    ensures OwnSamples({})
  {}

  lemma OneChecked(uses: seq<Use>, i: nat, values: seq<string>)
    requires i < |uses| && Shaped(uses[i]) && |values| == |uses[i].labels|
    ensures AllChecked(uses, [WriteOf(uses[i], values)])
  {
    hide WriteOf, Shaped;
    WriteOfUse(uses[i], values);
    assert Checked(uses, WriteOf(uses[i], values));
  }

  /** Validate's promise for whole scrapes: in every run, at every moment, the own
      families and the snapshot together are a good scrape, as long as sources cannot
      overwrite each other's series and none takes an own name. */
  lemma ValidatedScrapesGather(lib: Lib, c: Config, actions: seq<Action>, own: set<Sample>)
    requires Accepted(lib, c) && NeverOverwritten(lib, c) && OwnApart(AllUses(lib, c.SourceList)) && OwnSamples(own)
    ensures Gathers(SamplesOf(lib.round, StoreAfter(lib, c, actions)), own)
  {
    hide Accepted, NeverOverwritten, AllPossible, AllChecked, UsesAgree, PutAll, FamiliesAgree, OwnFamilies, OwnSamples,
        OwnApart, SamplesOf, Gathers, Run;
    RunWritesArePossible(lib, c, actions);
    var ws := SetsOf(lib, c, actions);
    FamiliesAgreeInEveryStore(lib, c, lib.round, ws);
    PossibleRunIsChecked(lib, c, ws);
    CheckedScrapesGather(AllUses(lib, c.SourceList), lib.round, ws, own);
  }

  /** Validate accepts an own name, and one message then spoils every scrape. */
  lemma OwnNameIsAccepted(lib: Lib, now: real)
    requires MatchesT(lib) && ReadsOne(lib)
    ensures var c, own := TwoRuleConfig("mqtt2prom_series"), {OwnSampleOf(SeriesFamily())};
            && Accepted(lib, c) && CleanHeartbeats(c) && OwnSamples(own)
            && !Gathers(SamplesOf(lib.round, StoreAfter(lib, c, OneMessage("mqtt2prom_series", now))), own)
  {
    hide Accepted, PutAll, Gathers, SamplesOf, OwnSamples, OwnSampleOf, StoreAfter, SetsOf, OneMessage, ThreeWrites;
    SeriesIsOwn();
    TwoRuleRun(lib, "mqtt2prom_series", now);
    HeartbeatSample(lib.round, now);
  }

  lemma SeriesIsOwn()
    ensures OwnSamples({OwnSampleOf(SeriesFamily())})
  {
    OneOwnSample(6);
  }

  lemma HeartbeatSample(round: real -> real, now: real)
    ensures !Gathers(SamplesOf(round, PutAll(round, ThreeWrites("mqtt2prom_series", now))),
                     {OwnSampleOf(SeriesFamily())})
  {
    hide WriteId, WritesTo, Replay, PutAll, IdOf;
    var ws, t := ThreeWrites("mqtt2prom_series", now), OwnSampleOf(SeriesFamily());
    var m, id := PutAll(round, ws), WriteId(ws[2]);
    HistoryDecides(round, ws, id);
    WritesToAreWrites(ws, id);
    HeartbeatAlone(ws, now);
    ReplayFields(round, WritesTo(ws, id));
    var s := SampleOf(round, m[id]);
    assert s.Key.Name == t.Key.Name && s.Help != t.Help;
    assert s in SamplesOf(round, m) + {t} && t in SamplesOf(round, m) + {t};
  }

  lemma HeartbeatAlone(ws: seq<Write>, now: real)
    requires ws == ThreeWrites("mqtt2prom_series", now)
    ensures WritesTo(ws, WriteId(ws[2])) == [ws[2]]
  {
    hide IdOf, WritesTo;
    IdOfNoLabel("mqtt2prom_series");
    IdOfOneLabel("a", "b", "c");
    IdOfOneLabel("a", "b", "d");
    assert WriteId(ws[0])[0] == 'a' && WriteId(ws[1])[0] == 'a' && WriteId(ws[2])[0] == 'm';
    NothingWritten(WriteId(ws[2]));
    WritesToStep([], ws[0], WriteId(ws[2]));
    WritesToStep([ws[0]], ws[1], WriteId(ws[2]));
    WritesToStep([ws[0], ws[1]], ws[2], WriteId(ws[2]));
    assert [] + [ws[0]] == [ws[0]] && [ws[0]] + [ws[1]] == [ws[0], ws[1]] && [ws[0], ws[1]] + [ws[2]] == ws;
  }
}
