/** Which metrics a configuration uses, place by place: the uses compared are those the
    files declare, in the order of the files, and no others. */
module Uses {
  import opened Text
  import opened Library
  import opened Config
  import opened Labels
  import opened Validate
  import opened Acceptance

  /** Where a metric is used: a rule for its metric and its heartbeat, or the place
      after the last rule for the heartbeat of the source. */
  datatype Place = Place(source: nat, rule: nat, heartbeat: bool)

  predicate Earlier(a: Place, b: Place) {
    || a.source < b.source
    || (a.source == b.source && a.rule < b.rule)
    || (a.source == b.source && a.rule == b.rule && !a.heartbeat && b.heartbeat)
  }

  /** The sorted label names of a metric: declared in a label map, or a named group no
      template refers to. */
  ghost predicate NamesOfMetric(names: seq<string>, groups: seq<string>, sets: seq<map<string, Label>>) {
    && InOrder(names)
    && forall x :: x in names <==>
         || (exists i :: 0 <= i < |sets| && x in sets[i])
         || (x != "" && x in groups && !exists i :: 0 <= i < |sets| && Refers(sets[i], x))
  }

  ghost predicate UsedByRule(lib: Lib, s: Source, k: nat, heartbeat: bool, u: Use)
    requires k < |s.Rules|
  {
    var r := s.Rules[k];
    && r.MetricName != "" && r.Match != "" && lib.compile(r.Match).Some?
    && u.site == RuleOf(s.Path, k)
    && NamesOfMetric(u.labels, lib.compile(r.Match).value.names, [r.Labels, s.Labels])
    && (if heartbeat then
          u.name == r.LastUpdatedMetric != "" && u.help == HEARTBEAT_HELP && u.kind == "gauge"
        else
          u.name == r.MetricName && u.help == r.Help && u.kind == r.Type)
  }

  ghost predicate UsedBySource(s: Source, u: Use) {
    && u.site == SourceFile(s.Path) && u.name == s.LastUpdatedMetric != ""
    && u.help == HEARTBEAT_HELP && u.kind == "gauge" && NamesOfMetric(u.labels, [], [s.Labels])
  }

  ghost predicate UsedAt(lib: Lib, sources: seq<Source>, at: Place, u: Use) {
    at.source < |sources| &&
    var s := sources[at.source];
    if at.rule < |s.Rules| then UsedByRule(lib, s, at.rule, at.heartbeat, u)
    else at.rule == |s.Rules| && at.heartbeat && UsedBySource(s, u)
  }

  lemma SortedNamesAre(groups: seq<string>, sets: seq<map<string, Label>>)
    ensures NamesOfMetric(SortedSeq(LabelSet(Named(groups), sets)), groups, sets)
  {
    hide LabelSet, Refers;
    var names := SortedSeq(LabelSet(Named(groups), sets));
    SortedSeqInOrder(LabelSet(Named(groups), sets));
    forall x ensures x in names <==>
      || (exists i :: 0 <= i < |sets| && x in sets[i])
      || (x != "" && x in groups && !exists i :: 0 <= i < |sets| && Refers(sets[i], x))
    {
      assert x in names <==> x in Elements(names);
      LabelNamesExactly(Named(groups), sets, x);
      NamedGroups(groups, x);
    }
  }

  lemma OrderedNamesAreOne(a: seq<string>, b: seq<string>)
    requires InOrder(a) && InOrder(b) && forall x :: x in a <==> x in b
    ensures a == b
  {
    hide Less, Precedes;
    LessIsStrictWeakOrder();
    forall i, j | 0 <= i < j < |a| ensures Less(a[i], a[j]) { LessIsFirstDifference(a[i], a[j]); }
    forall i, j | 0 <= i < j < |b| ensures Less(b[i], b[j]) { LessIsFirstDifference(b[i], b[j]); }
    assert Elements(a) == Elements(b);
    StrictlySortedIsUnique(Less, a, b);
  }

  /** A place has one use at most. */
  lemma OneUse(lib: Lib, sources: seq<Source>, at: Place, u: Use, v: Use)
    requires UsedAt(lib, sources, at, u) && UsedAt(lib, sources, at, v)
    ensures u == v
  {
    hide InOrder, Refers;
    OrderedNamesAreOne(u.labels, v.labels);
  }

  /** The list holds the uses of the places from `lo` up to `hi`, in order. */
  ghost predicate Covers(lib: Lib, sources: seq<Source>, lo: Place, hi: Place, places: seq<Place>, uses: seq<Use>) {
    && |places| == |uses|
    && (forall i :: 0 <= i < |uses| ==> UsedAt(lib, sources, places[i], uses[i]))
    && (forall i :: 0 <= i < |places| ==> !Earlier(places[i], lo) && Earlier(places[i], hi))
    && (forall i, j :: 0 <= i < j < |places| ==> Earlier(places[i], places[j]))
    && (forall at, u :: UsedAt(lib, sources, at, u) && !Earlier(at, lo) && Earlier(at, hi) ==> at in places)
  }

  lemma CoversBoth(lib: Lib, sources: seq<Source>, lo: Place, mid: Place, hi: Place,
                   places: seq<Place>, uses: seq<Use>, more: seq<Place>, others: seq<Use>)
    requires !Earlier(mid, lo) && !Earlier(hi, mid)
    requires Covers(lib, sources, lo, mid, places, uses) && Covers(lib, sources, mid, hi, more, others)
    ensures Covers(lib, sources, lo, hi, places + more, uses + others)
  {
    hide UsedAt;
  }

  lemma RuleIsCovered(lib: Lib, sources: seq<Source>, n: nat, k: nat) returns (places: seq<Place>)
    requires n < |sources| && k < |sources[n].Rules|
    ensures Covers(lib, sources, Place(n, k, false), Place(n, k + 1, false), places,
                   RuleUses(lib, sources[n], RuleOf(sources[n].Path, k), sources[n].Rules[k]))
  {
    hide NamesOfMetric, LabelSet, Named;
    var r := sources[n].Rules[k];
    var here, next := Place(n, k, false), Place(n, k, true);
    if r.MetricName == "" || r.Match == "" || lib.compile(r.Match).None? {
      places := [];
    } else {
      SortedNamesAre(lib.compile(r.Match).value.names, [r.Labels, sources[n].Labels]);
      places := if r.LastUpdatedMetric == "" then [here] else [here, next];
    }
    forall at, u | UsedAt(lib, sources, at, u) && !Earlier(at, here) && Earlier(at, Place(n, k + 1, false))
      ensures at in places
    {
      assert at == here || at == next;
    }
  }

  lemma {:induction false} RulesAreCovered(lib: Lib, sources: seq<Source>, n: nat, k: nat) returns (places: seq<Place>)
    requires n < |sources| && k <= |sources[n].Rules|
    ensures Covers(lib, sources, Place(n, 0, false), Place(n, k, false), places,
                   RuleListUses(lib, sources[n], sources[n].Rules[..k]))
  {
    hide UsedAt, RuleUses;
    var s := sources[n];
    if k == 0 {
      places := [];
    } else {
      places := RulesAreCovered(lib, sources, n, k - 1);
      var last := RuleIsCovered(lib, sources, n, k - 1);
      assert s.Rules[..k][..k - 1] == s.Rules[..k - 1];
      CoversBoth(lib, sources, Place(n, 0, false), Place(n, k - 1, false), Place(n, k, false), places,
                 RuleListUses(lib, s, s.Rules[..k - 1]), last, RuleUses(lib, s, RuleOf(s.Path, k - 1), s.Rules[k - 1]));
      places := places + last;
    }
  }

  lemma HeartbeatIsCovered(lib: Lib, sources: seq<Source>, n: nat) returns (places: seq<Place>)
    requires n < |sources|
    ensures Covers(lib, sources, Place(n, |sources[n].Rules|, false), Place(n + 1, 0, false), places,
                   HeartbeatUses(sources[n]))
  {
    hide NamesOfMetric, LabelSet;
    var s := sources[n];
    assert Named([]) == [];
    SortedNamesAre([], [s.Labels]);
    places := if s.LastUpdatedMetric == "" then [] else [Place(n, |s.Rules|, true)];
  }

  lemma {:induction false} SourcesAreCovered(lib: Lib, sources: seq<Source>, n: nat) returns (places: seq<Place>)
    requires n <= |sources|
    ensures Covers(lib, sources, Place(0, 0, false), Place(n, 0, false), places, AllUses(lib, sources[..n]))
  {
    hide UsedAt, RuleListUses, HeartbeatUses;
    if n == 0 {
      places := [];
    } else {
      var s, first := sources[n - 1], Place(0, 0, false);
      var from, mid, hi := Place(n - 1, 0, false), Place(n - 1, |s.Rules|, false), Place(n, 0, false);
      places := SourcesAreCovered(lib, sources, n - 1);
      var rules := RulesAreCovered(lib, sources, n - 1, |s.Rules|);
      assert s.Rules[..|s.Rules|] == s.Rules;
      var heartbeat := HeartbeatIsCovered(lib, sources, n - 1);
      CoversBoth(lib, sources, from, mid, hi, rules, RuleListUses(lib, s, s.Rules), heartbeat, HeartbeatUses(s));
      assert sources[..n][..n - 1] == sources[..n - 1] && sources[..n][n - 1] == s;
      CoversBoth(lib, sources, first, from, hi, places, AllUses(lib, sources[..n - 1]),
                 rules + heartbeat, SourceUses(lib, s));
      places := places + (rules + heartbeat);
    }
  }

  /** The compared uses are the declared ones, in the order of their places. */
  lemma UsesAreDeclared(lib: Lib, sources: seq<Source>) returns (places: seq<Place>)
    ensures |places| == |AllUses(lib, sources)|
    ensures forall i :: 0 <= i < |places| ==> UsedAt(lib, sources, places[i], AllUses(lib, sources)[i])
    ensures forall i, j :: 0 <= i < j < |places| ==> Earlier(places[i], places[j])
    ensures forall at, u :: UsedAt(lib, sources, at, u) ==> at in places
  {
    hide UsedByRule, UsedBySource, AllUses;
    places := SourcesAreCovered(lib, sources, |sources|);
    assert sources[..|sources|] == sources;
  }
}
