/** When two uses of different metrics can spell one series identity, and what
    that does to the store: the exact condition under which metric families agree. */
module Clashes {
  import opened Text
  import opened Library
  import opened Config
  import opened Labels
  import opened Validate
  import opened Acceptance
  import opened SeriesStore
  import opened StoreLaws

  // ------------------------------------------------- what an identity can spell

  /** `s` is the identity of a series of the metric, for some label values. */
  predicate Spells(s: string, name: string, labels: seq<string>)
    decreases |labels|
  {
    if labels == [] then s == name else
    var n := |labels| - 1;
    exists k :: 0 <= k <= |s| && [NUL] + labels[n] + [NUL] <= s[k..] && Spells(s[..k], name, labels[..n])
  }

  lemma {:induction false} SpelledHasValues(s: string, name: string, labels: seq<string>) returns (values: seq<string>)
    requires Spells(s, name, labels)
    ensures |values| == |labels| && IdentityOf(name, labels, values) == s
    decreases |labels|
  {
    if labels == [] {
      values := [];
      NoLabels(name);
    } else {
      hide IdentityOf, Spells;
      var n := |labels| - 1;
      var sep := [NUL] + labels[n] + [NUL];
      var k :| 0 <= k <= |s| && sep <= s[k..] && Spells(s[..k], name, labels[..n]);
      var before := SpelledHasValues(s[..k], name, labels[..n]);
      var last := s[k..][|sep|..];
      LastPart(name, labels, before, last);
      CutTwice(s, k, sep);
      values := before + [last];
    }
  }

  lemma CutTwice(s: string, k: nat, sep: string)
    requires k <= |s| && sep <= s[k..]
    ensures s == s[..k] + sep + s[k..][|sep|..]
  {
    assert s[k..] == sep + s[k..][|sep|..];
    assert s == s[..k] + s[k..];
  }

  lemma {:induction false} IdentityIsSpelled(name: string, labels: seq<string>, values: seq<string>)
    requires |labels| == |values|
    ensures Spells(IdentityOf(name, labels, values), name, labels)
    decreases |labels|
  {
    hide IdentityOf;
    if labels == [] {
      NoLabels(name);
    } else {
      var n := |labels| - 1;
      var s, k := IdentityOf(name, labels, values), |IdentityOf(name, labels[..n], values[..n])|;
      LastPart(name, labels, values[..n], values[n]);
      assert values == values[..n] + [values[n]];
      assert s[..k] == IdentityOf(name, labels[..n], values[..n]);
      assert s[k..] == [NUL] + labels[n] + [NUL] + values[n];
      IdentityIsSpelled(name, labels[..n], values[..n]);
    }
  }

  lemma NoLabels(name: string)
    ensures IdentityOf(name, [], []) == name
  {}

  lemma LastPart(name: string, labels: seq<string>, values: seq<string>, last: string)
    requires |labels| == |values| + 1
    ensures IdentityOf(name, labels, values + [last]) ==
            IdentityOf(name, labels[..|values|], values) + ([NUL] + labels[|values|] + [NUL]) + last
  {
    assert (values + [last])[..|values|] == values;
  }

  /** What every identity of the metric begins with, and what its other label
      names take when their values are empty. */
  function Head(name: string, labels: seq<string>): string
    requires labels != []
  {
    name + [NUL] + labels[0] + [NUL]
  }

  function Tail(labels: seq<string>): string {
    if |labels| <= 1 then "" else
    var n := |labels| - 1;
    Tail(labels[..n]) + ([NUL] + labels[n] + [NUL])
  }

  function Blanks(n: nat): (r: seq<string>)
    ensures |r| == n
  {
    if n == 0 then [] else Blanks(n - 1) + [""]
  }

  lemma {:induction false} StartsWithHead(name: string, labels: seq<string>, values: seq<string>)
    requires |labels| == |values| && labels != []
    ensures Head(name, labels) <= IdentityOf(name, labels, values)
  {
    var n := |labels| - 1;
    LastPart(name, labels, values[..n], values[n]);
    assert values == values[..n] + [values[n]];
    if n == 0 {
      assert IdentityOf(name, labels[..0], values[..0]) == name;
      assert name + ([NUL] + labels[0] + [NUL]) == Head(name, labels);
    } else {
      StartsWithHead(name, labels[..n], values[..n]);
    }
  }

  /** The identity with a first value and empty other values. */
  lemma {:induction false} FirstValueOnly(name: string, labels: seq<string>, first: string)
    requires labels != []
    ensures IdentityOf(name, labels, [first] + Blanks(|labels| - 1)) == Head(name, labels) + first + Tail(labels)
  {
    var n := |labels| - 1;
    if n == 0 {
      LastPart(name, labels, [], first);
      assert IdentityOf(name, labels[..0], []) == name;
      assert [] + [first] == [first] + Blanks(0);
      assert name + ([NUL] + labels[0] + [NUL]) + first == Head(name, labels) + first + Tail(labels);
    } else {
      var values := [first] + Blanks(n - 1);
      FirstValueOnly(name, labels[..n], first);
      LastPart(name, labels, values, "");
      assert [first] + Blanks(n) == values + [""];
      Regroup(Head(name, labels) + first, Tail(labels[..n]), [NUL] + labels[n] + [NUL]);
    }
  }

  lemma Regroup(a: string, b: string, c: string)
    ensures a + b + c + "" == a + (b + c)
  {}

  /** Longer last value, longer identity. */
  lemma GrowLast(name: string, labels: seq<string>, values: seq<string>, x: string)
    requires |labels| == |values| && labels != []
    ensures var n := |labels| - 1;
            IdentityOf(name, labels, values[n := values[n] + x]) == IdentityOf(name, labels, values) + x
  {
    var n := |labels| - 1;
    assert values[n := values[n] + x][..n] == values[..n];
    var before := IdentityOf(name, labels[..n], values[..n]) + [NUL] + labels[n] + [NUL];
    assert before + (values[n] + x) == before + values[n] + x;
  }

  // -------------------------------------------------------------------- clashes

  /** Some label values give the two metrics one identity. */
  ghost predicate Clash(name: string, labels: seq<string>, name': string, labels': seq<string>) {
    exists a: seq<string>, b: seq<string> ::
      |a| == |labels| && |b| == |labels'| && IdentityOf(name, labels, a) == IdentityOf(name', labels', b)
  }

  /** The same, decided from the names alone. */
  predicate CanClash(name: string, labels: seq<string>, name': string, labels': seq<string>) {
    if labels == [] then Spells(name, name', labels')
    else if labels' == [] then Spells(name', name, labels)
    else Head(name, labels) <= Head(name', labels') || Head(name', labels') <= Head(name, labels)
  }

  lemma ClashIsDecided(name: string, labels: seq<string>, name': string, labels': seq<string>)
    ensures Clash(name, labels, name', labels') <==> CanClash(name, labels, name', labels')
  {
    hide Head, IdentityOf, Spells;
    NoLabels(name);
    NoLabels(name');
    if a, b :| |a| == |labels| && |b| == |labels'| && IdentityOf(name, labels, a) == IdentityOf(name', labels', b) {
      IdentityIsSpelled(name, labels, a);
      IdentityIsSpelled(name', labels', b);
      if labels != [] && labels' != [] {
        StartsWithHead(name, labels, a);
        StartsWithHead(name', labels', b);
        PrefixesCompare(Head(name, labels), Head(name', labels'), IdentityOf(name, labels, a));
      } else {
        assert labels == [] ==> a == [];
        assert labels' == [] ==> b == [];
      }
    }
    if CanClash(name, labels, name', labels') {
      if labels == [] {
        var b := SpelledHasValues(name, name', labels');
      } else if labels' == [] {
        var a := SpelledHasValues(name', name, labels);
      } else if Head(name, labels) <= Head(name', labels') {
        var a, b := HeadsMeet(name, labels, name', labels');
      } else {
        var b, a := HeadsMeet(name', labels', name, labels);
      }
    }
  }

  lemma PrefixesCompare(a: string, b: string, s: string)
    requires a <= s && b <= s
    ensures a <= b || b <= a
  {
    assert a == s[..|a|] && b == s[..|b|];
  }

  /** One head begins the other: then values meet, whatever the other labels. */
  lemma HeadsMeet(name: string, labels: seq<string>, name': string, labels': seq<string>)
    returns (a: seq<string>, b: seq<string>)
    requires labels != [] && labels' != [] && Head(name, labels) <= Head(name', labels')
    ensures |a| == |labels| && |b| == |labels'|
    ensures IdentityOf(name, labels, a) == IdentityOf(name', labels', b)
  {
    hide Head;
    var head, head' := Head(name, labels), Head(name', labels');
    var rest := head'[|head|..];
    assert head' == head + rest;
    a := [rest] + Blanks(|labels| - 1);
    FirstValueOnly(name, labels, rest);
    GrowLast(name, labels, a, Tail(labels'));
    a := a[|labels| - 1 := a[|labels| - 1] + Tail(labels')];
    b := [Tail(labels)] + Blanks(|labels'| - 1);
    FirstValueOnly(name', labels', Tail(labels));
  }

  /** Wherever two uses of different metrics can share a series, they agree on help
      and kind. */
  predicate HarmlessClashes(uses: seq<Use>) {
    forall i, j :: 0 <= i < |uses| && 0 <= j < |uses| && uses[i].name != uses[j].name ==>
      CanClash(uses[i].name, uses[i].labels, uses[j].name, uses[j].labels) ==>
      uses[i].help == uses[j].help && uses[i].kind == uses[j].kind
  }

  /** The same for the kind alone. */
  predicate HarmlessKinds(uses: seq<Use>) {
    forall i, j :: 0 <= i < |uses| && 0 <= j < |uses| && uses[i].name != uses[j].name ==>
      CanClash(uses[i].name, uses[i].labels, uses[j].name, uses[j].labels) ==> uses[i].kind == uses[j].kind
  }

  /** No two metric names have the same part before the first NUL. */
  ghost predicate NamesApart(uses: seq<Use>) {
    forall u, v :: u in uses && v in uses && Family(u.name) == Family(v.name) ==> u.name == v.name
  }

  /** Names apart cannot clash at all. */
  lemma NamesApartNeverClash(uses: seq<Use>)
    requires NamesApart(uses)
    ensures HarmlessClashes(uses)
  {
    hide CanClash, Family, IdentityOf;
    forall i, j | 0 <= i < |uses| && 0 <= j < |uses| && CanClash(uses[i].name, uses[i].labels, uses[j].name,
        uses[j].labels)
      ensures uses[i].name == uses[j].name
    {
      var u, v := uses[i], uses[j];
      ClashIsDecided(u.name, u.labels, v.name, v.labels);
      var a, b :| |a| == |u.labels| && |b| == |v.labels| &&
        IdentityOf(u.name, u.labels, a) == IdentityOf(v.name, v.labels, b);
      FamilyOfIdentity(u.name, u.labels, a);
      FamilyOfIdentity(v.name, v.labels, b);
    }
  }

  // ------------------------------------------------- writes belong to uses

  function KindName(k: Kind): string {
    if k == Counter then TYPE_COUNTER else TYPE_GAUGE
  }

  /** The write has the name, label names, help and kind of the use. */
  ghost predicate Conforms(w: Write, u: Use) {
    w.name == u.name && SortedSeq(w.labels.Keys) == u.labels && w.help == u.help && KindName(w.kind) == u.kind
  }

  ghost predicate Checked(uses: seq<Use>, w: Write) {
    exists u :: u in uses && Conforms(w, u)
  }

  ghost predicate AllChecked(uses: seq<Use>, ws: seq<Write>) {
    forall i :: 0 <= i < |ws| ==> Checked(uses, ws[i])
  }

  lemma SameNameSameShape(uses: seq<Use>, v: Write, w: Write)
    requires UsesAgree(uses) && Checked(uses, v) && Checked(uses, w) && v.name == w.name
    ensures SortedSeq(v.labels.Keys) == SortedSeq(w.labels.Keys) && v.help == w.help && v.kind == w.kind
  {
    var u :| u in uses && Conforms(v, u);
    var u' :| u' in uses && Conforms(w, u');
    var i :| 0 <= i < |uses| && uses[i] == u;
    var j :| 0 <= j < |uses| && uses[j] == u';
    assert SameFamily(uses[i], uses[j]);
    assert TYPE_COUNTER != TYPE_GAUGE;
  }

  // ---------------------------------------------------- one shape for a series

  /** All writes to one series carry one help text and one kind. */
  ghost predicate OneShape(ws: seq<Write>) {
    forall i, j :: 0 <= i < |ws| && 0 <= j < |ws| && WriteId(ws[i]) == WriteId(ws[j]) ==>
      ws[i].help == ws[j].help && ws[i].kind == ws[j].kind
  }

  /** All writes to one series carry one kind. */
  ghost predicate OneKind(ws: seq<Write>) {
    forall i, j :: 0 <= i < |ws| && 0 <= j < |ws| && WriteId(ws[i]) == WriteId(ws[j]) ==> ws[i].kind == ws[j].kind
  }

  /** Writes of different metrics to one series belong to uses that can clash. */
  lemma SharedSeriesClashes(uses: seq<Use>, v: Write, w: Write) returns (i: nat, j: nat)
    requires Checked(uses, v) && Checked(uses, w) && WriteId(v) == WriteId(w)
    ensures i < |uses| && j < |uses| && Conforms(v, uses[i]) && Conforms(w, uses[j])
    ensures CanClash(uses[i].name, uses[i].labels, uses[j].name, uses[j].labels)
  {
    hide CanClash, IdentityOf;
    var u :| u in uses && Conforms(v, u);
    var u' :| u' in uses && Conforms(w, u');
    i :| 0 <= i < |uses| && uses[i] == u;
    j :| 0 <= j < |uses| && uses[j] == u';
    var a, b := ValuesOf(v.labels, u.labels), ValuesOf(w.labels, u'.labels);
    assert IdentityOf(u.name, u.labels, a) == IdentityOf(u'.name, u'.labels, b);
    ClashIsDecided(u.name, u.labels, u'.name, u'.labels);
  }

  lemma KindNames()
    ensures TYPE_COUNTER != TYPE_GAUGE
  {}

  lemma HarmlessShares(uses: seq<Use>, v: Write, w: Write)
    requires UsesAgree(uses) && Checked(uses, v) && Checked(uses, w) && WriteId(v) == WriteId(w)
    ensures HarmlessClashes(uses) ==> v.help == w.help && v.kind == w.kind
    ensures HarmlessKinds(uses) ==> v.kind == w.kind
  {
    hide CanClash, UsesAgree, Checked, WriteId;
    KindNames();
    if v.name == w.name {
      SameNameSameShape(uses, v, w);
    } else {
      var i, j := SharedSeriesClashes(uses, v, w);
    }
  }

  lemma HarmlessGivesOneShape(uses: seq<Use>, ws: seq<Write>)
    requires UsesAgree(uses) && HarmlessClashes(uses) && AllChecked(uses, ws)
    ensures OneShape(ws)
  {
    hide UsesAgree, HarmlessClashes, HarmlessKinds, Checked, WriteId;
    forall i, j | 0 <= i < |ws| && 0 <= j < |ws| && WriteId(ws[i]) == WriteId(ws[j])
      ensures ws[i].help == ws[j].help && ws[i].kind == ws[j].kind
    {
      HarmlessShares(uses, ws[i], ws[j]);
    }
  }

  /** NUL-free writes never share a series across metrics, so need no condition. */
  lemma CleanGivesOneShape(uses: seq<Use>, ws: seq<Write>)
    requires UsesAgree(uses) && AllChecked(uses, ws) && CleanWrites(ws)
    ensures OneShape(ws)
  {
    hide UsesAgree, Checked, IdOf, Clean, CleanLabels;
    forall i, j | 0 <= i < |ws| && 0 <= j < |ws| && WriteId(ws[i]) == WriteId(ws[j])
      ensures ws[i].help == ws[j].help && ws[i].kind == ws[j].kind
    {
      IdOfInjective(ws[i].name, ws[i].labels, ws[j].name, ws[j].labels);
      SameNameSameShape(uses, ws[i], ws[j]);
    }
  }

  /** No series ever changes kind. */
  lemma KindsNeverChange(ws: seq<Write>, id: string)
    requires OneKind(ws)
    ensures var history := WritesTo(ws, id); history != [] ==> AllOfKind(history, history[|history| - 1].kind)
  {
    hide WriteId;
    var history := WritesTo(ws, id);
    WritesToAreWrites(ws, id);
    forall i | 0 <= i < |history| ensures history[i].kind == history[|history| - 1].kind {
      assert history[i] in history && history[|history| - 1] in history;
    }
  }

  /** Every series has the name, label names, help and kind of its first write. */
  lemma EntryHasAWrite(uses: seq<Use>, round: real -> real, ws: seq<Write>, id: string) returns (w: Write)
    requires AllChecked(uses, ws) && OneShape(ws)
    requires id in PutAll(round, ws)
    ensures Checked(uses, w)
    ensures var e := PutAll(round, ws)[id];
            e.name == w.name && e.names == SortedSeq(w.labels.Keys) && e.help == w.help && e.kind == w.kind
  {
    hide Checked, WriteId, Replay;
    var history := WritesTo(ws, id);
    HistoryDecides(round, ws, id);
    ReplayFields(round, history);
    WritesToAreWrites(ws, id);
    assert history[0] in history && history[|history| - 1] in history;
    w := history[0];
  }

  lemma OneShapeGivesFamilies(uses: seq<Use>, round: real -> real, ws: seq<Write>)
    requires UsesAgree(uses) && AllChecked(uses, ws) && OneShape(ws)
    ensures FamiliesAgree(PutAll(round, ws))
  {
    hide UsesAgree, Checked, AllChecked, OneShape, PutAll;
    var m := PutAll(round, ws);
    forall a, b | a in m && b in m && m[a].name == m[b].name
      ensures m[a].names == m[b].names && m[a].help == m[b].help && m[a].kind == m[b].kind
    {
      var v := EntryHasAWrite(uses, round, ws, a);
      var w := EntryHasAWrite(uses, round, ws, b);
      SameNameSameShape(uses, v, w);
    }
  }

  // ------------------------------------------------------ the exact condition

  /** Sorted label names and one of the two kinds, as validated uses have. */
  ghost predicate Shaped(u: Use) {
    u.labels == SortedSeq(Elements(u.labels)) && (u.kind == TYPE_GAUGE || u.kind == TYPE_COUNTER)
  }

  function LabelMapOf(names: seq<string>, values: seq<string>): map<string, string>
    requires |names| == |values|
  {
    if names == [] then map[] else
    var n := |names| - 1;
    LabelMapOf(names[..n], values[..n])[names[n] := values[n]]
  }

  lemma {:induction false} LabelMapLookup(names: seq<string>, values: seq<string>, i: nat)
    requires |names| == |values| && Distinct(names) && i < |names|
    ensures Lookup(LabelMapOf(names, values), names[i]) == values[i]
  {
    var n := |names| - 1;
    if i < n { LabelMapLookup(names[..n], values[..n], i); }
  }

  lemma {:induction false} LabelMapKeys(names: seq<string>, values: seq<string>)
    requires |names| == |values|
    ensures LabelMapOf(names, values).Keys == Elements(names)
  {
    if names != [] {
      var n := |names| - 1;
      LabelMapKeys(names[..n], values[..n]);
      Appended(names[..n], names[n]);
      assert names == names[..n] + [names[n]];
    }
  }

  ghost function WriteOf(u: Use, values: seq<string>): Write
    requires |values| == |u.labels|
  {
    Write(u.name, if u.kind == TYPE_COUNTER then Counter else Gauge, u.help, LabelMapOf(u.labels, values), 0.0)
  }

  lemma LabelMapValues(names: seq<string>, values: seq<string>)
    requires |names| == |values| && Distinct(names)
    ensures ValuesOf(LabelMapOf(names, values), names) == values
  {
    hide LabelMapOf, Distinct, ValuesOf, Lookup;
    var labels := LabelMapOf(names, values);
    assert |ValuesOf(labels, names)| == |values|;
    forall i | 0 <= i < |values| ensures ValuesOf(labels, names)[i] == values[i] {
      ValuesAt(labels, names, i);
      LabelMapLookup(names, values, i);
    }
  }

  lemma WriteOfUse(u: Use, values: seq<string>)
    requires Shaped(u) && |values| == |u.labels|
    ensures Conforms(WriteOf(u, values), u)
    ensures WriteId(WriteOf(u, values)) == IdentityOf(u.name, u.labels, values)
  {
    hide IdentityOf, LabelMapOf, ValuesOf, StrictWeakOrder, Less, Distinct;
    LessIsStrictWeakOrder();
    assert StrictlySortedBy(Less, u.labels);
    StrictlySortedIsDistinct(Less, u.labels);
    LabelMapKeys(u.labels, values);
    LabelMapValues(u.labels, values);
    assert TYPE_COUNTER != TYPE_GAUGE;
  }

  lemma HistoryOfThree(ws: seq<Write>, id: string)
    requires |ws| == 3
    ensures WriteId(ws[0]) == id == WriteId(ws[2]) && WriteId(ws[1]) != id ==> WritesTo(ws, id) == [ws[0], ws[2]]
    ensures WriteId(ws[0]) != id && id != WriteId(ws[2]) && WriteId(ws[1]) == id ==> WritesTo(ws, id) == [ws[1]]
  {
    hide WriteId;
    assert ws[..2][..1] == ws[..1] && ws[..1][..0] == [];
    assert WritesTo([], id) == [];
    assert WritesTo(ws[..1], id) == if WriteId(ws[0]) == id then [ws[0]] else [];
    assert WritesTo(ws[..2], id) ==
           if WriteId(ws[1]) == id then WritesTo(ws[..1], id) + [ws[1]] else WritesTo(ws[..1], id);
  }

  /** A series of one metric overwritten by another leaves its family split. */
  lemma OverwrittenSeries(round: real -> real, ws: seq<Write>)
    requires |ws| == 3 && WriteId(ws[0]) == WriteId(ws[2]) != WriteId(ws[1])
    requires ws[0].name == ws[1].name && (ws[1].help != ws[2].help || ws[1].kind != ws[2].kind)
    ensures !FamiliesAgree(PutAll(round, ws))
  {
    hide WriteId, WritesTo, Replay, PutAll;
    var a, b := WriteId(ws[0]), WriteId(ws[1]);
    HistoryOfThree(ws, a);
    HistoryOfThree(ws, b);
    HistoryDecides(round, ws, a);
    HistoryDecides(round, ws, b);
    ReplayFields(round, [ws[0], ws[2]]);
    ReplayFields(round, [ws[1]]);
  }

  lemma HarmfulClash(uses: seq<Use>, round: real -> real, u: Use, v: Use, a: seq<string>, b: seq<string>)
    returns (ws: seq<Write>)
    requires u in uses && v in uses && Shaped(u) && Shaped(v) && v.labels != []
    requires |a| == |u.labels| && |b| == |v.labels|
    requires IdentityOf(u.name, u.labels, a) == IdentityOf(v.name, v.labels, b)
    requires u.help != v.help || u.kind != v.kind
    ensures AllChecked(uses, ws) && !FamiliesAgree(PutAll(round, ws))
  {
    hide IdentityOf, Shaped, WriteId, FamiliesAgree, PutAll, SortedSeq;
    var n := |v.labels| - 1;
    var b' := b[n := b[n] + "x"];
    GrowLast(v.name, v.labels, b, "x");
    WriteOfUse(v, b);
    WriteOfUse(v, b');
    WriteOfUse(u, a);
    ws := [WriteOf(v, b), WriteOf(v, b'), WriteOf(u, a)];
    KindsDiffer(u, v);
    OverwrittenSeries(round, ws);
  }

  lemma KindsDiffer(u: Use, v: Use)
    requires Shaped(u) && Shaped(v)
    ensures u.kind != v.kind <==> (u.kind == TYPE_COUNTER <==> v.kind != TYPE_COUNTER)
  {}

  /** The exact condition: whatever label values are written to uses that agree
      name by name, all families of the store agree if and only if no two uses of
      different metrics that can share a series differ in help or kind. */
  lemma FamiliesAgreeExactly(uses: seq<Use>, round: real -> real)
    requires UsesAgree(uses) && forall u :: u in uses ==> Shaped(u)
    ensures (forall ws :: AllChecked(uses, ws) ==> FamiliesAgree(PutAll(round, ws))) <==> HarmlessClashes(uses)
  {
    hide AllChecked, FamiliesAgree, PutAll, UsesAgree, Shaped, CanClash, IdentityOf;
    if HarmlessClashes(uses) {
      forall ws | AllChecked(uses, ws) ensures FamiliesAgree(PutAll(round, ws)) {
        HarmlessGivesOneShape(uses, ws);
        OneShapeGivesFamilies(uses, round, ws);
      }
    } else {
      var i, j :| 0 <= i < |uses| && 0 <= j < |uses| && uses[i].name != uses[j].name
        && CanClash(uses[i].name, uses[i].labels, uses[j].name, uses[j].labels)
        && !(uses[i].help == uses[j].help && uses[i].kind == uses[j].kind);
      var u, v := uses[i], uses[j];
      ClashIsDecided(u.name, u.labels, v.name, v.labels);
      var a, b :| |a| == |u.labels| && |b| == |v.labels| &&
        IdentityOf(u.name, u.labels, a) == IdentityOf(v.name, v.labels, b);
      NoLabels(u.name);
      NoLabels(v.name);
      if v.labels != [] {
        var ws := HarmfulClash(uses, round, u, v, a, b);
      } else {
        assert b == [] && (u.labels == [] ==> a == []);
        var ws := HarmfulClash(uses, round, v, u, b, a);
      }
    }
  }
}
