/** What the store means: it is a plain map from metric name and labels, each
    series is decided by the writes to it alone, counters never go back, and the
    snapshot is determined by the contents. */
module StoreLaws {
  import opened Text
  import opened Library
  import opened Labels
  import opened SeriesStore

  ghost predicate Clean(s: string) {
    NUL !in s
  }

  ghost predicate CleanLabels(labels: map<string, string>) {
    forall name :: name in labels ==> Clean(name) && Clean(labels[name])
  }

  // ------------------------------------------------------------------ identity

  /** The NUL-separated parts of an identity. */
  ghost function Segments(name: string, names: seq<string>, values: seq<string>): seq<string>
    requires |names| == |values|
  {
    if names == [] then [name] else
    var n := |names| - 1;
    Segments(name, names[..n], values[..n]) + [names[n], values[n]]
  }

  lemma {:induction false} JoinAppend(parts: seq<string>, x: string, sep: char)
    requires parts != []
    ensures Join(parts + [x], sep) == Join(parts, sep) + [sep] + x
  {
    if |parts| == 1 {
      assert (parts + [x])[1..] == [x];
    } else {
      JoinAppend(parts[1..], x, sep);
      assert (parts + [x])[0] == parts[0] && (parts + [x])[1..] == parts[1..] + [x];
      JoinFour(parts[0] + [sep], Join(parts[1..], sep), [sep], x);
    }
  }

  lemma JoinFour(a: string, b: string, c: string, d: string)
    ensures a + (b + c + d) == (a + b) + c + d
  {}

  lemma {:induction false} IdentityIsJoin(name: string, names: seq<string>, values: seq<string>)
    requires |names| == |values|
    ensures Segments(name, names, values) != []
    ensures IdentityOf(name, names, values) == Join(Segments(name, names, values), NUL)
  {
    if names != [] {
      var n := |names| - 1;
      var before := Segments(name, names[..n], values[..n]);
      IdentityIsJoin(name, names[..n], values[..n]);
      JoinAppend(before, names[n], NUL);
      JoinAppend(before + [names[n]], values[n], NUL);
      assert before + [names[n]] + [values[n]] == before + [names[n], values[n]];
    }
  }

  lemma {:induction false} CleanSegments(name: string, names: seq<string>, values: seq<string>)
    requires |names| == |values| && Clean(name) && Without(NUL, names) && Without(NUL, values)
    ensures Without(NUL, Segments(name, names, values))
  {
    if names != [] { CleanSegments(name, names[..|names| - 1], values[..|names| - 1]); }
  }

  lemma {:induction false} SegmentsDetermine(name: string, names: seq<string>, values: seq<string>,
                                             name': string, names': seq<string>, values': seq<string>)
    requires |names| == |values| && |names'| == |values'|
    requires Segments(name, names, values) == Segments(name', names', values')
    ensures name == name' && names == names' && values == values'
    decreases |names|
  {
    SegmentCount(name, names, values);
    SegmentCount(name', names', values');
    if names != [] {
      var n := |names| - 1;
      var s, s' := Segments(name, names, values), Segments(name', names', values');
      var a, a' := Segments(name, names[..n], values[..n]), Segments(name', names'[..n], values'[..n]);
      SegmentCount(name, names[..n], values[..n]);
      SegmentCount(name', names'[..n], values'[..n]);
      assert a == s[..|a|] && a' == s'[..|a|];
      SegmentsDetermine(name, names[..n], values[..n], name', names'[..n], values'[..n]);
      assert names[n] == s[|a|] == s'[|a|] == names'[n];
      assert values[n] == s[|a| + 1] == s'[|a| + 1] == values'[n];
      assert names == names[..n] + [names[n]] && names' == names'[..n] + [names'[n]];
      assert values == values[..n] + [values[n]] && values' == values'[..n] + [values'[n]];
    }
  }

  lemma {:induction false} SegmentCount(name: string, names: seq<string>, values: seq<string>)
    requires |names| == |values|
    ensures |Segments(name, names, values)| == 1 + 2 * |names|
  {
    if names != [] { SegmentCount(name, names[..|names| - 1], values[..|names| - 1]); }
  }

  /** Without NUL in its parts, an identity determines them. */
  lemma IdentityInjective(name: string, names: seq<string>, values: seq<string>,
                          name': string, names': seq<string>, values': seq<string>)
    requires |names| == |values| && Clean(name) && Without(NUL, names) && Without(NUL, values)
    requires |names'| == |values'| && Clean(name') && Without(NUL, names') && Without(NUL, values')
    requires IdentityOf(name, names, values) == IdentityOf(name', names', values')
    ensures name == name' && names == names' && values == values'
  {
    var s, s' := Segments(name, names, values), Segments(name', names', values');
    IdentityIsJoin(name, names, values);
    IdentityIsJoin(name', names', values');
    CleanSegments(name, names, values);
    CleanSegments(name', names', values');
    SplitOfJoin(s, NUL);
    SplitOfJoin(s', NUL);
    SegmentsDetermine(name, names, values, name', names', values');
  }

  /** The metric an identity belongs to: the part before its first NUL. */
  ghost function Family(id: string): string {
    Split(id, NUL)[0]
  }

  lemma FamilyOfIdentity(name: string, names: seq<string>, values: seq<string>)
    requires |names| == |values|
    ensures Family(IdentityOf(name, names, values)) == Family(name)
  {
    var rest := IdentityTail(name, names, values);
    FirstSegment(name, rest, NUL);
  }

  lemma FamilyOfCleanName(name: string)
    requires Clean(name)
    ensures Family(name) == name
  {
    SplitFirst(name, "", NUL);
  }

  lemma {:induction false} IdentityTail(name: string, names: seq<string>, values: seq<string>) returns (rest: string)
    requires |names| == |values|
    ensures IdentityOf(name, names, values) == name + rest
    ensures rest == "" || rest[0] == NUL
  {
    if names == [] {
      rest := "";
    } else {
      var n := |names| - 1;
      var before := IdentityTail(name, names[..n], values[..n]);
      rest := before + [NUL] + names[n] + [NUL] + values[n];
      JoinFive(name, before, [NUL], names[n], values[n]);
    }
  }

  lemma JoinFive(a: string, b: string, c: string, d: string, e: string)
    ensures a + b + c + d + c + e == a + (b + c + d + c + e)
  {}

  lemma {:induction false} ValuesAt(labels: map<string, string>, names: seq<string>, i: nat)
    requires i < |names|
    ensures ValuesOf(labels, names)[i] == Lookup(labels, names[i])
  {
    var n := |names| - 1;
    if i < n { ValuesAt(labels, names[..n], i); }
  }

  lemma CleanParts(labels: map<string, string>)
    requires CleanLabels(labels)
    ensures var names := SortedSeq(labels.Keys); Without(NUL, names) && Without(NUL, ValuesOf(labels, names))
  {
    var names := SortedSeq(labels.Keys);
    forall i | 0 <= i < |names| ensures NUL !in names[i] && NUL !in ValuesOf(labels, names)[i] {
      assert names[i] in Elements(names);
      ValuesAt(labels, names, i);
    }
  }

  /** Flattening loses nothing. */
  lemma FlattenInjective(labels: map<string, string>, labels': map<string, string>)
    requires SortedSeq(labels.Keys) == SortedSeq(labels'.Keys)
    requires ValuesOf(labels, SortedSeq(labels.Keys)) == ValuesOf(labels', SortedSeq(labels.Keys))
    ensures labels == labels'
  {
    var names := SortedSeq(labels.Keys);
    assert labels.Keys == Elements(names) == labels'.Keys;
    forall name | name in labels ensures labels[name] == labels'[name] {
      assert name in Elements(names);
      var i :| 0 <= i < |names| && names[i] == name;
      ValuesAt(labels, names, i);
      ValuesAt(labels', names, i);
    }
  }

  /** The key of a series determines its metric name and its labels, in whatever
      order the label map was iterated. */
  lemma IdOfInjective(name: string, labels: map<string, string>, name': string, labels': map<string, string>)
    requires Clean(name) && CleanLabels(labels) && Clean(name') && CleanLabels(labels')
    requires IdOf(name, labels) == IdOf(name', labels')
    ensures name == name' && labels == labels'
  {
    CleanParts(labels);
    CleanParts(labels');
    var names, names' := SortedSeq(labels.Keys), SortedSeq(labels'.Keys);
    IdentityInjective(name, names, ValuesOf(labels, names), name', names', ValuesOf(labels', names'));
    FlattenInjective(labels, labels');
  }

  // ------------------------------------------------- a series and its writes

  /** The store after the given writes to an empty one. */
  ghost function PutAll(round: real -> real, ws: seq<Write>): Contents {
    PutFrom(round, map[], ws)
  }

  ghost function WriteId(w: Write): string {
    IdOf(w.name, w.labels)
  }

  /** The writes to one series, in order. */
  ghost function WritesTo(ws: seq<Write>, id: string): seq<Write> {
    if ws == [] then [] else
    var n := |ws| - 1;
    if WriteId(ws[n]) == id then WritesTo(ws[..n], id) + [ws[n]] else WritesTo(ws[..n], id)
  }

  /** A series made by its first write and updated by the others. */
  ghost function Replay(round: real -> real, ws: seq<Write>): Entry
    requires ws != []
  {
    var w := ws[|ws| - 1];
    var before := if |ws| == 1 then NewEntry(w) else Replay(round, ws[..|ws| - 1]);
    Updated(round, before, w.kind, w.help, w.value)
  }

  lemma ReplayStep(round: real -> real, before: seq<Write>, w: Write)
    ensures Replay(round, before + [w]) ==
            Updated(round, if before == [] then NewEntry(w) else Replay(round, before), w.kind, w.help, w.value)
  {
    hide Updated, NewEntry;
    assert (before + [w])[..|before|] == before;
  }

  /** What the store holds is decided, series by series, by the writes to it. */
  lemma {:induction false} HistoryDecides(round: real -> real, ws: seq<Write>, id: string)
    ensures id in PutAll(round, ws) <==> WritesTo(ws, id) != []
    ensures id in PutAll(round, ws) ==> PutAll(round, ws)[id] == Replay(round, WritesTo(ws, id))
  {
    hide Updated, NewEntry, IdOf, Replay;
    if ws != [] {
      var n := |ws| - 1;
      HistoryDecides(round, ws[..n], id);
      ReplayStep(round, WritesTo(ws[..n], id), ws[n]);
    }
  }

  lemma {:induction false} WritesToAreWrites(ws: seq<Write>, id: string)
    ensures forall w :: w in WritesTo(ws, id) <==> w in ws && WriteId(w) == id
  {
    if ws != [] {
      var n := |ws| - 1;
      WritesToAreWrites(ws[..n], id);
      assert ws == ws[..n] + [ws[n]];
    }
  }

  lemma {:induction false} StoreStaysWellKeyed(round: real -> real, ws: seq<Write>)
    ensures WellKeyed(PutAll(round, ws))
  {
    if ws != [] {
      StoreStaysWellKeyed(round, ws[..|ws| - 1]);
      PutKeepsWellKeyed(round, PutAll(round, ws[..|ws| - 1]), ws[|ws| - 1]);
    }
  }

  /** Name, labels, kind and help of a series: the key parts are its first
      write's, kind and help its last write's. */
  lemma {:induction false} ReplayFields(round: real -> real, ws: seq<Write>)
    requires ws != []
    ensures var e := Replay(round, ws);
            && e.name == ws[0].name && e.names == SortedSeq(ws[0].labels.Keys) &&
                e.values == ValuesOf(ws[0].labels, e.names)
            && e.kind == ws[|ws| - 1].kind && e.help == ws[|ws| - 1].help && e.last == ws[|ws| - 1].value && e.seen
  {
    if |ws| > 1 { ReplayFields(round, ws[..|ws| - 1]); }
  }

  // ------------------------------------------------------------ gauge, counter

  ghost function Exported(round: real -> real, e: Entry): real {
    SampleOf(round, e).Value
  }

  ghost predicate Exact(round: real -> real) {
    forall x :: round(x) == x
  }

  /** Rounding to the nearest float64: order is kept, representable numbers stay. */
  ghost predicate FloatRounding(round: real -> real) {
    && (forall x, y :: x <= y ==> round(x) <= round(y))
    && (forall x :: round(round(x)) == round(x))
  }

  ghost predicate AllOfKind(ws: seq<Write>, kind: Kind) {
    forall i :: 0 <= i < |ws| ==> ws[i].kind == kind
  }

  /** A series written only as a gauge never gets an offset. */
  lemma {:induction false} GaugeHasNoOffset(round: real -> real, ws: seq<Write>)
    requires ws != [] && AllOfKind(ws, Gauge)
    ensures Replay(round, ws).offset == 0.0
  {
    if |ws| > 1 { GaugeHasNoOffset(round, ws[..|ws| - 1]); }
  }

  /** It exports the value written last, as a float64. */
  lemma GaugeExportsLastValue(round: real -> real, ws: seq<Write>)
    requires ws != [] && AllOfKind(ws, Gauge)
    ensures Exported(round, Replay(round, ws)) == round(ws[|ws| - 1].value)
  {
    GaugeHasNoOffset(round, ws);
    ReplayFields(round, ws);
    assert ws[|ws| - 1].value + 0.0 == ws[|ws| - 1].value;
  }

  /** The readings before each drop, added up in float arithmetic. */
  ghost function Carried(round: real -> real, ws: seq<Write>): real {
    if |ws| <= 1 then 0.0 else
    var n := |ws| - 1;
    var before := Carried(round, ws[..n]);
    if ws[n].value < ws[n - 1].value then FloatAdd(round, before, ws[n - 1].value) else before
  }

  /** Rounding included, a counter exports its last reading plus those before each
      drop. */
  lemma {:induction false} CounterExportsReadings(round: real -> real, ws: seq<Write>)
    requires ws != [] && AllOfKind(ws, Counter)
    ensures Replay(round, ws).offset == Carried(round, ws)
    ensures Exported(round, Replay(round, ws)) == FloatAdd(round, ws[|ws| - 1].value, Carried(round, ws))
  {
    if |ws| > 1 {
      CounterExportsReadings(round, ws[..|ws| - 1]);
      ReplayFields(round, ws[..|ws| - 1]);
    }
  }

  /** What a reading adds to a counter: its whole value after a restart. */
  function Increment(before: real, value: real): real {
    if value < before then value else value - before
  }

  ghost function Total(ws: seq<Write>): real
    requires ws != []
  {
    var n := |ws| - 1;
    if n == 0 then ws[0].value else Total(ws[..n]) + Increment(ws[n - 1].value, ws[n].value)
  }

  /** A counter exports its first value plus all increments, across any number
      of restarts. */
  lemma {:induction false} CounterExportsTotal(round: real -> real, ws: seq<Write>)
    requires Exact(round) && ws != [] && AllOfKind(ws, Counter)
    ensures Exported(round, Replay(round, ws)) == Total(ws)
  {
    var n := |ws| - 1;
    if n > 0 {
      hide Replay, Observed, Increment, Exact, Exported;
      var before := ws[..n];
      CounterExportsTotal(round, before);
      ReplayFields(round, before);
      var e := Replay(round, before);
      CounterStep(round, e, ws[n].value);
      LastReading(round, ws);
    }
  }

  lemma LastReading(round: real -> real, ws: seq<Write>)
    requires |ws| > 1 && AllOfKind(ws, Counter)
    ensures var n := |ws| - 1;
            Exported(round, Replay(round, ws)) ==
            Exported(round, Observed(round, Replay(round, ws[..n]), ws[n].value))
  {}

  lemma CounterStep(round: real -> real, e: Entry, value: real)
    requires Exact(round) && e.seen
    ensures Exported(round, Observed(round, e, value)) == Exported(round, e) + Increment(e.last, value)
  {
    assert round(e.last + e.offset) == e.last + e.offset;
    assert round(e.offset + e.last) == e.offset + e.last;
  }

  /** With every addition rounded, a reading that is no drop or not negative
      still never lowers the exported value. */
  lemma RoundedCounterStep(round: real -> real, e: Entry, value: real)
    requires FloatRounding(round) && e.seen
    requires value >= e.last || value >= 0.0
    ensures Exported(round, Observed(round, e, value)) >= Exported(round, e)
  {
    if value < e.last {
      var shown := round(e.last + e.offset);
      assert FloatAdd(round, e.offset, e.last) == shown;
      assert shown <= value + shown;
      assert round(shown) <= round(value + shown);
    } else {
      assert e.last + e.offset <= value + e.offset;
    }
  }

  /** No reading is both a drop and negative. */
  ghost predicate NoNegativeDrop(ws: seq<Write>) {
    forall i :: 0 < i < |ws| ==> ws[i].value >= ws[i - 1].value || ws[i].value >= 0.0
  }

  /** The exported value after the first `k` writes. */
  ghost function ExportedAfter(round: real -> real, ws: seq<Write>, k: nat): real
    requires 0 < k <= |ws|
  {
    Exported(round, Replay(round, ws[..k]))
  }

  lemma ExportedNext(round: real -> real, ws: seq<Write>, k: nat)
    requires 0 < k < |ws| && AllOfKind(ws, Counter)
    ensures var e := Replay(round, ws[..k]).(kind := Counter, help := ws[k].help);
            && ExportedAfter(round, ws, k) == Exported(round, e)
            && ExportedAfter(round, ws, k + 1) == Exported(round, Observed(round, e, ws[k].value))
            && e.seen && e.last == ws[k - 1].value
  {
    ReplayFields(round, ws[..k]);
    assert ws[..k + 1][..k] == ws[..k];
  }

  /** With every addition rounded, the exported value of a counter never falls as
      long as no reading is both a drop and negative. */
  lemma {:induction false} CounterNeverDecreases(round: real -> real, ws: seq<Write>, j: nat, k: nat)
    requires FloatRounding(round) && AllOfKind(ws, Counter) && NoNegativeDrop(ws)
    requires 0 < j <= k <= |ws|
    ensures ExportedAfter(round, ws, j) <= ExportedAfter(round, ws, k)
  {
    hide Replay;
    if j < k {
      CounterNeverDecreases(round, ws, j, k - 1);
      ExportedNext(round, ws, k - 1);
      var w := ws[k - 1];
      RoundedCounterStep(round, Replay(round, ws[..k - 1]).(kind := Counter, help := w.help), w.value);
    }
  }

  /** In exact arithmetic that is the exact condition: over a whole run the counter
      never falls if and only if no reading is both a drop and negative. */
  lemma CounterNeverFallsExactly(round: real -> real, ws: seq<Write>)
    requires Exact(round) && AllOfKind(ws, Counter)
    ensures (forall j, k :: 0 < j <= k <= |ws| ==> ExportedAfter(round, ws, j) <= ExportedAfter(round, ws, k)) <==>
            NoNegativeDrop(ws)
  {
    hide Replay;
    if NoNegativeDrop(ws) {
      forall j, k | 0 < j <= k <= |ws| ensures ExportedAfter(round, ws, j) <= ExportedAfter(round, ws, k) {
        CounterNeverDecreases(round, ws, j, k);
      }
    } else {
      var i :| 0 < i < |ws| && ws[i].value < ws[i - 1].value && ws[i].value < 0.0;
      ExportedNext(round, ws, i);
      CounterStep(round, Replay(round, ws[..i]).(kind := Counter, help := ws[i].help), ws[i].value);
      assert ExportedAfter(round, ws, i) > ExportedAfter(round, ws, i + 1);
    }
  }

  // -------------------------------------------------------------- the plain map

  datatype PlainKey = PlainKey(name: string, labels: map<string, string>)

  datatype Cell = Cell(kind: Kind, help: string, last: real, offset: real, seen: bool)

  type Plain = map<PlainKey, Cell>

  /** One Set on a map keyed by name and labels themselves. */
  function PlainPut(round: real -> real, a: Plain, w: Write): Plain {
    var key := PlainKey(w.name, w.labels);
    var cell := if key in a then a[key] else Cell(w.kind, w.help, 0.0, 0.0, false);
    var reset := w.kind == Counter && cell.seen && w.value < cell.last;
    var offset := if reset then FloatAdd(round, cell.offset, cell.last) else cell.offset;
    a[key := Cell(w.kind, w.help, w.value, offset, true)]
  }

  ghost predicate CleanKey(k: PlainKey) {
    Clean(k.name) && CleanLabels(k.labels)
  }

  ghost function KeyId(k: PlainKey): string {
    IdOf(k.name, k.labels)
  }

  ghost function EntryAt(k: PlainKey, c: Cell): Entry {
    var names := SortedSeq(k.labels.Keys);
    Entry(c.kind, c.help, names, ValuesOf(k.labels, names), k.name, c.last, c.offset, c.seen)
  }

  /** The store holds the plain map, one entry for each key. */
  ghost predicate Represents(m: Contents, a: Plain) {
    && (forall k :: k in a ==> CleanKey(k) && KeyId(k) in m && m[KeyId(k)] == EntryAt(k, a[k]))
    && m.Keys == KeyIds(a.Keys)
  }

  ghost function KeyIds(keys: set<PlainKey>): set<string> {
    set k | k in keys :: KeyId(k)
  }

  lemma CellStep(round: real -> real, a: Plain, w: Write)
    ensures var key := PlainKey(w.name, w.labels);
            EntryAt(key, PlainPut(round, a, w)[key]) ==
            Updated(round, if key in a then EntryAt(key, a[key]) else NewEntry(w), w.kind, w.help, w.value)
  {}

  lemma RepresentsCell(m: Contents, a: Plain, key: PlainKey, c: Cell)
    requires Represents(m, a) && CleanKey(key)
    ensures Represents(m[KeyId(key) := EntryAt(key, c)], a[key := c])
    ensures KeyId(key) in m <==> key in a
  {
    hide IdOf, EntryAt, Clean, CleanLabels;
    forall k | k in a && k != key ensures KeyId(k) != KeyId(key) {
      if KeyId(k) == KeyId(key) { IdOfInjective(k.name, k.labels, key.name, key.labels); }
    }
    assert KeyIds(a[key := c].Keys) == KeyIds(a.Keys) + {KeyId(key)};
  }

  lemma PutRefinesPlainPut(round: real -> real, m: Contents, a: Plain, w: Write)
    requires Represents(m, a) && Clean(w.name) && CleanLabels(w.labels)
    ensures Represents(Put(round, m, w), PlainPut(round, a, w))
  {
    hide IdOf, Updated, EntryAt, NewEntry, Clean, CleanLabels, KeyIds;
    var key := PlainKey(w.name, w.labels);
    CellStep(round, a, w);
    RepresentsCell(m, a, key, PlainPut(round, a, w)[key]);
  }

  ghost function PlainPutAll(round: real -> real, ws: seq<Write>): Plain {
    if ws == [] then map[] else
    PlainPut(round, PlainPutAll(round, ws[..|ws| - 1]), ws[|ws| - 1])
  }

  ghost predicate CleanWrites(ws: seq<Write>) {
    forall i :: 0 <= i < |ws| ==> Clean(ws[i].name) && CleanLabels(ws[i].labels)
  }

  /** The store after any writes is the plain map after the same writes. */
  lemma {:induction false} StoreIsThePlainMap(round: real -> real, ws: seq<Write>)
    requires CleanWrites(ws)
    ensures Represents(PutAll(round, ws), PlainPutAll(round, ws))
  {
    if ws == [] {
      assert KeyIds({}) == {};
    } else {
      var n := |ws| - 1;
      StoreIsThePlainMap(round, ws[..n]);
      PutRefinesPlainPut(round, PutAll(round, ws[..n]), PlainPutAll(round, ws[..n]), ws[n]);
    }
  }

  /** Len counts the keys of the plain map. */
  lemma LenOfPlainMap(m: Contents, a: Plain)
    requires Represents(m, a)
    ensures |m| == |a|
  {
    DistinctIds(a.Keys);
    assert |m| == |m.Keys| && |a| == |a.Keys|;
  }

  lemma {:induction false} DistinctIds(keys: set<PlainKey>)
    requires forall k :: k in keys ==> CleanKey(k)
    ensures |KeyIds(keys)| == |keys|
  {
    hide IdOf, Clean, CleanLabels;
    if keys == {} {
      assert KeyIds(keys) == {};
    } else {
      var k :| k in keys;
      DistinctIds(keys - {k});
      forall k' | k' in keys - {k} ensures KeyId(k') != KeyId(k) {
        if KeyId(k') == KeyId(k) { IdOfInjective(k.name, k.labels, k'.name, k'.labels); }
      }
      assert KeyIds(keys) == KeyIds(keys - {k}) + {KeyId(k)};
    }
  }

  /** The snapshot lists the plain map: one sample a key, with its labels sorted. */
  lemma SamplesOfPlainMap(round: real -> real, m: Contents, a: Plain)
    requires Represents(m, a)
    ensures SamplesOf(round, m) == set k | k in a :: SampleOf(round, EntryAt(k, a[k]))
  {
    forall id | id in m ensures exists k :: k in a && SampleOf(round, m[id]) == SampleOf(round, EntryAt(k, a[k])) {
      assert id in KeyIds(a.Keys);
      var k :| k in a && KeyId(k) == id;
      assert m[id] == EntryAt(k, a[k]);
    }
    forall k | k in a ensures SampleOf(round, EntryAt(k, a[k])) in SamplesOf(round, m) {
      assert m[KeyId(k)] == EntryAt(k, a[k]);
    }
  }

  // ------------------------------------------------------------------ snapshots

  /** No two samples of a snapshot share a key. */
  lemma SnapshotKeysDiffer(round: real -> real, m: Contents, out: seq<Sample>, i: nat, j: nat)
    requires WellKeyed(m) && IsSnapshot(round, m, out) && i < j < |out|
    ensures out[i].Key != out[j].Key
  {
    hide IdentityOf, SampleLess;
    assert out[i] in Elements(out) && out[j] in Elements(out);
    var a :| a in m && out[i] == SampleOf(round, m[a]);
    var b :| b in m && out[j] == SampleOf(round, m[b]);
  }

  ghost predicate TieFree(samples: set<Sample>) {
    forall s, t :: s in samples && t in samples && s != t ==> SampleLess(s, t) || SampleLess(t, s)
  }

  /** Without ties the snapshot is a function of the contents, whatever the map
      order and the unstable sort did. */
  lemma SnapshotIsDetermined(round: real -> real, m: Contents, out: seq<Sample>, out': seq<Sample>)
    requires IsSnapshot(round, m, out) && IsSnapshot(round, m, out')
    requires TieFree(SamplesOf(round, m))
    ensures out == out'
  {
    SampleLessIsStrictWeakOrder();
    TieFreeIsStrict(out);
    TieFreeIsStrict(out');
    StrictlySortedIsUnique(SampleLess, out, out');
  }

  lemma TieFreeIsStrict(out: seq<Sample>)
    requires Distinct(out) && Ordered(SampleLess, out) && TieFree(Elements(out))
    ensures StrictlySortedBy(SampleLess, out)
  {
    hide SampleLess;
    forall i, j | 0 <= i < j < |out| ensures SampleLess(out[i], out[j]) {
      assert out[i] in Elements(out) && out[j] in Elements(out);
    }
  }

  /** With a tie there is a second snapshot of the same contents. */
  lemma TieLeavesAChoice(round: real -> real, m: Contents, out: seq<Sample>) returns (out': seq<Sample>)
    requires IsSnapshot(round, m, out) && !TieFree(SamplesOf(round, m))
    ensures IsSnapshot(round, m, out') && out' != out
  {
    hide SampleLess, SamplesAt, Ordered, StrictWeakOrder;
    var s, t :| s in Elements(out) && t in Elements(out) && s != t && !SampleLess(s, t) && !SampleLess(t, s);
    var i :| 0 <= i < |out| && out[i] == s;
    var j :| 0 <= j < |out| && out[j] == t;
    SampleLessIsStrictWeakOrder();
    out' := out[i := t][j := s];
    SwapTied(SampleLess, out, if i < j then i else j, if i < j then j else i);
    assert out' == if i < j then out[i := out[j]][j := out[i]] else out[j := out[i]][i := out[j]];
  }

  lemma SwapTied<T(!new)>(less: (T, T) -> bool, s: seq<T>, i: nat, j: nat)
    requires StrictWeakOrder(less) && Ordered(less, s) && Distinct(s) && i < j < |s|
    requires !less(s[i], s[j]) && !less(s[j], s[i])
    ensures var r := s[i := s[j]][j := s[i]]; Ordered(less, r) && Distinct(r) && Elements(r) == Elements(s)
  {
    var r := s[i := s[j]][j := s[i]];
    forall a, b | 0 <= a < b < |r| ensures !less(r[b], r[a]) { OrderAfterSwap(less, s, i, j, a, b); }
    forall x ensures x in r <==> x in s {
      if x in s { var k :| 0 <= k < |s| && s[k] == x; assert r[if k == i then j else if k == j then i else k] == x; }
    }
  }

  lemma OrderAfterSwap<T(!new)>(less: (T, T) -> bool, s: seq<T>, i: nat, j: nat, a: nat, b: nat)
    requires StrictWeakOrder(less) && Ordered(less, s) && i < j < |s| && a < b < |s|
    requires !less(s[i], s[j]) && !less(s[j], s[i])
    ensures var r := s[i := s[j]][j := s[i]]; !less(r[b], r[a])
  {
    var r := s[i := s[j]][j := s[i]];
    var x, y, p, q := r[a], r[b], s[i], s[j];
    assert less(y, x) ==> less(y, p) || less(p, x);
    assert less(y, x) ==> less(y, q) || less(q, x);
    assert less(y, p) ==> less(y, q) || less(q, p);
    assert less(y, q) ==> less(y, p) || less(p, q);
    assert less(p, x) ==> less(p, q) || less(q, x);
    assert less(q, x) ==> less(q, p) || less(p, x);
  }

  /** A store has one snapshot exactly when none of its samples tie. */
  lemma SnapshotIsUniqueExactly(round: real -> real, m: Contents, out: seq<Sample>)
    requires IsSnapshot(round, m, out)
    ensures (forall out' :: IsSnapshot(round, m, out') ==> out' == out) <==> TieFree(SamplesOf(round, m))
  {
    hide IsSnapshot, TieFree, SamplesOf;
    if TieFree(SamplesOf(round, m)) {
      forall out' | IsSnapshot(round, m, out') ensures out' == out { SnapshotIsDetermined(round, m, out', out); }
    } else {
      var other := TieLeavesAChoice(round, m, out);
    }
  }

  /** All series of one metric have its label names, help and kind. */
  ghost predicate FamiliesAgree(m: Contents) {
    forall a, b :: a in m && b in m && m[a].name == m[b].name ==>
      m[a].names == m[b].names && m[a].help == m[b].help && m[a].kind == m[b].kind
  }

  ghost predicate CleanValues(m: Contents) {
    forall id :: id in m ==> Without(NUL, m[id].values)
  }

  /** In a store whose families agree, with NUL-free values, nothing ties. */
  lemma AgreeingFamiliesHaveNoTies(round: real -> real, m: Contents)
    requires WellKeyed(m) && FamiliesAgree(m) && CleanValues(m)
    ensures TieFree(SamplesOf(round, m))
  {
    hide IdentityOf;
    forall s, t | s in SamplesOf(round, m) && t in SamplesOf(round, m) && s != t
      ensures SampleLess(s, t) || SampleLess(t, s)
    {
      var a :| a in m && s == SampleOf(round, m[a]);
      var b :| b in m && t == SampleOf(round, m[b]);
      LessTotal(s.Key.Name, t.Key.Name);
      LessTotal(Join(s.Key.LabelValues, NUL), Join(t.Key.LabelValues, NUL));
      if s.Key.Name == t.Key.Name && Join(s.Key.LabelValues, NUL) == Join(t.Key.LabelValues, NUL) {
        JoinInjective(s.Key.LabelValues, t.Key.LabelValues, NUL);
      }
    }
  }

  // --------------------------------------------------------------- independence

  /** The writes to one metric, in order. */
  ghost function ByName(ws: seq<Write>, name: string): seq<Write> {
    if ws == [] then [] else
    var n := |ws| - 1;
    if ws[n].name == name then ByName(ws[..n], name) + [ws[n]] else ByName(ws[..n], name)
  }

  lemma FamilyOfWrite(w: Write)
    ensures Family(WriteId(w)) == Family(w.name)
  {
    var names := SortedSeq(w.labels.Keys);
    FamilyOfIdentity(w.name, names, ValuesOf(w.labels, names));
  }

  ghost predicate CleanNames(ws: seq<Write>) {
    forall i :: 0 <= i < |ws| ==> Clean(ws[i].name)
  }

  lemma WritesToStep(ws: seq<Write>, w: Write, id: string)
    ensures WritesTo(ws + [w], id) == if WriteId(w) == id then WritesTo(ws, id) + [w] else WritesTo(ws, id)
  {
    assert (ws + [w])[..|ws|] == ws;
  }

  /** A series is written by its metric's writes only. */
  lemma {:induction false} SeriesNeedsItsFamily(ws: seq<Write>, id: string)
    requires CleanNames(ws)
    ensures WritesTo(ws, id) == WritesTo(ByName(ws, Family(id)), id)
  {
    hide WriteId, Family;
    if ws != [] {
      var n := |ws| - 1;
      SeriesNeedsItsFamily(ws[..n], id);
      FamilyOfWrite(ws[n]);
      FamilyOfCleanName(ws[n].name);
      WritesToStep(ByName(ws[..n], Family(id)), ws[n], id);
    }
  }

  /** Only the order of writes within each metric matters: two write sequences
      with the same writes to every metric give the same store. */
  lemma FamiliesAreIndependent(round: real -> real, ws: seq<Write>, ws': seq<Write>)
    requires CleanNames(ws) && CleanNames(ws')
    requires forall name :: Clean(name) ==> ByName(ws, name) == ByName(ws', name)
    ensures PutAll(round, ws) == PutAll(round, ws')
  {
    hide Put, Replay, WritesTo, ByName;
    var m, m' := PutAll(round, ws), PutAll(round, ws');
    forall id ensures (id in m <==> id in m') && (id in m ==> m[id] == m'[id]) {
      SeriesNeedsItsFamily(ws, id);
      SeriesNeedsItsFamily(ws', id);
      HistoryDecides(round, ws, id);
      HistoryDecides(round, ws', id);
      FamilyIsClean(id);
    }
  }

  lemma FamilyIsClean(id: string)
    ensures Clean(Family(id))
  {
    JoinOfSplit(id, NUL);
  }
}
