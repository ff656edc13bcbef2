/** internal/store/store.go: the index of series and its snapshot. */
module SeriesStore {
  import opened Text
  import opened Library
  import opened Labels

  datatype Kind = Gauge | Counter

  datatype Key = Key(Name: string, LabelNames: seq<string>, LabelValues: seq<string>)

  datatype Sample = Sample(Key: Key, Kind: Kind, Help: string, Value: real)

  /** The fields of one series. */
  datatype Entry = Entry(kind: Kind, help: string, names: seq<string>, values: seq<string>, name: string,
                         last: real, offset: real, seen: bool)

  type Contents = map<string, Entry>

  /** The arguments of one call of Set. */
  datatype Write = Write(name: string, kind: Kind, help: string, labels: map<string, string>, value: real)

  // ---------------------------------------------------------- series identity

  function ValuesOf(labels: map<string, string>, names: seq<string>): (r: seq<string>)
    ensures |r| == |names|
  {
    if names == [] then [] else
    var n := |names| - 1;
    ValuesOf(labels, names[..n]) + [Lookup(labels, names[n])]
  }

  method Flatten(labels: map<string, string>) returns (names: seq<string>, values: seq<string>)
    ensures names == SortedSeq(labels.Keys)
    ensures values == ValuesOf(labels, names)
  {
    hide SortedSeq, StrictlySorted, Distinct, Elements;
    names := ListKeys(labels.Keys);
    names := SortNames(names);
    values := [];
    for i := 0 to |names|
      invariant values == ValuesOf(labels, names[..i])
    {
      values := values + [Lookup(labels, names[i])];
      assert names[..i + 1][..i] == names[..i];
    }
    assert names[..|names|] == names;
  }

  function IdentityOf(name: string, labelNames: seq<string>, labelValues: seq<string>): string
    requires |labelNames| == |labelValues|
  {
    if labelNames == [] then name else
    var n := |labelNames| - 1;
    IdentityOf(name, labelNames[..n], labelValues[..n]) + [NUL] + labelNames[n] + [NUL] + labelValues[n]
  }

  method Identity(name: string, labelNames: seq<string>, labelValues: seq<string>) returns (b: string)
    requires |labelNames| == |labelValues|
    ensures b == IdentityOf(name, labelNames, labelValues)
  {
    b := name;
    for i := 0 to |labelNames|
      invariant b == IdentityOf(name, labelNames[..i], labelValues[..i])
    {
      b := b + [NUL];
      b := b + labelNames[i];
      b := b + [NUL];
      b := b + labelValues[i];
      assert labelNames[..i + 1][..i] == labelNames[..i] && labelValues[..i + 1][..i] == labelValues[..i];
    }
    assert labelNames[..|labelNames|] == labelNames && labelValues[..|labelNames|] == labelValues;
  }

  ghost function IdOf(name: string, labels: map<string, string>): string {
    var names := SortedSeq(labels.Keys);
    IdentityOf(name, names, ValuesOf(labels, names))
  }

  // --------------------------------------------------------------------- Set

  /** observeCounter: a drop carries the value before it over into the offset. */
  function Observed(round: real -> real, e: Entry, value: real): Entry {
    var offset := if e.seen && value < e.last then FloatAdd(round, e.offset, e.last) else e.offset;
    e.(offset := offset, last := value, seen := true)
  }

  /** What Set does to the series it found or made. */
  function Updated(round: real -> real, e: Entry, kind: Kind, help: string, value: real): Entry {
    var e := e.(kind := kind, help := help);
    if kind == Counter then Observed(round, e, value) else e.(last := value, seen := true)
  }

  ghost function NewEntry(w: Write): Entry {
    var names := SortedSeq(w.labels.Keys);
    Entry(w.kind, w.help, names, ValuesOf(w.labels, names), w.name, 0.0, 0.0, false)
  }

  ghost function Put(round: real -> real, m: Contents, w: Write): Contents {
    var id := IdOf(w.name, w.labels);
    m[id := Updated(round, if id in m then m[id] else NewEntry(w), w.kind, w.help, w.value)]
  }

  /** The writes made one after another. */
  ghost function PutFrom(round: real -> real, m: Contents, ws: seq<Write>): Contents {
    if ws == [] then m else
    Put(round, PutFrom(round, m, ws[..|ws| - 1]), ws[|ws| - 1])
  }

  lemma {:induction false} PutFromConcat(round: real -> real, m: Contents, a: seq<Write>, b: seq<Write>)
    ensures PutFrom(round, m, a + b) == PutFrom(round, PutFrom(round, m, a), b)
  {
    hide Put;
    if b == [] {
      assert a + b == a;
    } else {
      PutFromConcat(round, m, a, b[..|b| - 1]);
      assert (a + b)[..|a + b| - 1] == a + b[..|b| - 1];
    }
  }

  /** Every entry is filed under the identity its own fields spell. */
  ghost predicate WellKeyed(m: Contents) {
    forall id :: id in m ==> |m[id].names| == |m[id].values| && IdentityOf(m[id].name, m[id].names, m[id].values) == id
  }

  lemma IdentityOfWrite(round: real -> real, m: Contents, w: Write, names: seq<string>, values: seq<string>, id: string)
    requires names == SortedSeq(w.labels.Keys) && values == ValuesOf(w.labels, names)
    requires id == IdentityOf(w.name, names, values)
    ensures Put(round, m, w) ==
            var made := Entry(w.kind, w.help, names, values, w.name, 0.0, 0.0, false);
            m[id := Updated(round, if id in m then m[id] else made, w.kind, w.help, w.value)]
  {}

  lemma PutKeepsWellKeyed(round: real -> real, m: Contents, w: Write)
    requires WellKeyed(m)
    ensures WellKeyed(Put(round, m, w))
  {}

  // ------------------------------------------------------------------ snapshot

  function SampleOf(round: real -> real, e: Entry): Sample {
    Sample(Key(e.name, e.names, e.values), e.kind, e.help, FloatAdd(round, e.last, e.offset))
  }

  ghost function SamplesAt(round: real -> real, m: Contents, ids: set<string>): set<Sample>
    requires ids <= m.Keys
  {
    set id | id in ids :: SampleOf(round, m[id])
  }

  ghost function SamplesOf(round: real -> real, m: Contents): set<Sample> {
    SamplesAt(round, m, m.Keys)
  }

  /** Different entries give different samples. */
  lemma OneMoreSample(round: real -> real, m: Contents, done: set<string>, id: string, out: seq<Sample>)
    requires WellKeyed(m) && done <= m.Keys && id in m && id !in done
    requires Distinct(out) && Elements(out) == SamplesAt(round, m, done)
    ensures Distinct(out + [SampleOf(round, m[id])])
    ensures Elements(out + [SampleOf(round, m[id])]) == SamplesAt(round, m, done + {id})
  {
    hide IdentityOf;
    var sample := SampleOf(round, m[id]);
    Appended(out, sample);
    assert forall other :: other in done ==> SampleOf(round, m[other]) != sample;
    assert SamplesAt(round, m, done + {id}) == SamplesAt(round, m, done) + {sample};
  }

  lemma NoSamples(round: real -> real, m: Contents)
    ensures SamplesAt(round, m, {}) == {}
  {}

  /** The comparator of Snapshot. */
  predicate SampleLess(a: Sample, b: Sample) {
    if a.Key.Name != b.Key.Name then Less(a.Key.Name, b.Key.Name)
    else Less(Join(a.Key.LabelValues, NUL), Join(b.Key.LabelValues, NUL))
  }

  /** The samples by name, and those of one name by their values joined with NUL, in
      the order of the first differing byte. */
  ghost predicate SamplesInOrder(out: seq<Sample>) {
    forall i, j :: 0 <= i < j < |out| ==>
      if out[i].Key.Name != out[j].Key.Name then Precedes(out[i].Key.Name, out[j].Key.Name)
      else
        var a, b := Join(out[i].Key.LabelValues, NUL), Join(out[j].Key.LabelValues, NUL);
        a == b || Precedes(a, b)
  }

  lemma OrderedIsInOrder(out: seq<Sample>)
    requires Ordered(SampleLess, out)
    ensures SamplesInOrder(out)
  {
    hide Less, Precedes, Join;
    forall i, j | 0 <= i < j < |out|
      ensures if out[i].Key.Name != out[j].Key.Name then Precedes(out[i].Key.Name, out[j].Key.Name)
              else
                var a, b := Join(out[i].Key.LabelValues, NUL), Join(out[j].Key.LabelValues, NUL);
                a == b || Precedes(a, b)
    {
      var s, t := out[i].Key, out[j].Key;
      var a, b := Join(s.LabelValues, NUL), Join(t.LabelValues, NUL);
      assert !SampleLess(out[j], out[i]);
      LessTotal(s.Name, t.Name);
      LessTotal(a, b);
      LessIsFirstDifference(s.Name, t.Name);
      LessIsFirstDifference(a, b);
    }
  }

  lemma SampleLessIsStrictWeakOrder()
    ensures StrictWeakOrder(SampleLess)
  {
    forall a { SampleLessIsIrreflexive(a); }
    forall a, b, c | SampleLess(a, b) && SampleLess(b, c) ensures SampleLess(a, c) { SampleLessIsTransitive(a, b, c); }
    forall a, b, c | SampleLess(a, c) ensures SampleLess(a, b) || SampleLess(b, c) { SampleLessSplits(a, b, c); }
  }

  lemma SampleLessIsIrreflexive(a: Sample)
    ensures !SampleLess(a, a)
  {
    LessIrreflexive(Join(a.Key.LabelValues, NUL));
  }

  lemma SampleLessIsTransitive(a: Sample, b: Sample, c: Sample)
    requires SampleLess(a, b) && SampleLess(b, c)
    ensures SampleLess(a, c)
  {
    if a.Key.Name == b.Key.Name && b.Key.Name == c.Key.Name {
      LessTransitive(Join(a.Key.LabelValues, NUL), Join(b.Key.LabelValues, NUL), Join(c.Key.LabelValues, NUL));
    } else if a.Key.Name != b.Key.Name && b.Key.Name != c.Key.Name {
      LessTransitive(a.Key.Name, b.Key.Name, c.Key.Name);
      LessIrreflexive(a.Key.Name);
    }
  }

  lemma SampleLessSplits(a: Sample, b: Sample, c: Sample)
    requires SampleLess(a, c)
    ensures SampleLess(a, b) || SampleLess(b, c)
  {
    LessIsStrictWeakOrder();
    LessTotal(a.Key.Name, b.Key.Name);
    LessTotal(b.Key.Name, c.Key.Name);
    if a.Key.Name != b.Key.Name && Less(b.Key.Name, a.Key.Name) && a.Key.Name != c.Key.Name {
      LessTransitive(b.Key.Name, a.Key.Name, c.Key.Name);
      LessIrreflexive(b.Key.Name);
    }
  }

  /** A listing of the store's samples, each once, in the comparator's order. */
  ghost predicate IsSnapshot(round: real -> real, m: Contents, out: seq<Sample>) {
    && Distinct(out) && Elements(out) == SamplesOf(round, m) && |out| == |m|
    && Ordered(SampleLess, out)
  }

  class Series {
    var kind: Kind
    var help: string
    const names: seq<string>
    const values: seq<string>
    const name: string
    var last: real
    var offset: real
    var seen: bool

    ghost function State(): Entry
      reads this
    {
      Entry(kind, help, names, values, name, last, offset, seen)
    }

    constructor (kind: Kind, help: string, names: seq<string>, values: seq<string>, name: string)
      ensures State() == Entry(kind, help, names, values, name, 0.0, 0.0, false)
    {
      this.kind, this.help, this.names, this.values, this.name := kind, help, names, values, name;
      last, offset, seen := 0.0, 0.0, false;
    }

    method ObserveCounter(round: real -> real, value: real)
      modifies `last, `offset, `seen
      ensures State() == Observed(round, old(State()), value)
    {
      if seen && value < last {
        offset := FloatAdd(round, offset, last);
      }
      last := value;
      seen := true;
    }

    /** The part of Set after the lookup. */
    method Update(round: real -> real, kind: Kind, help: string, value: real)
      modifies this
      ensures State() == Updated(round, old(State()), kind, help, value)
    {
      this.kind := kind;
      this.help := help;
      if kind == Counter {
        ObserveCounter(round, value);
        return;
      }
      last := value;
      seen := true;
    }
  }

  class Store {
    const round: real -> real
    var series: map<string, Series>

    ghost predicate Valid()
      reads this, series.Values
    {
      Separate() && WellKeyed(Model())
    }

    /** No two identities share a series. */
    ghost predicate Separate()
      reads this
    {
      forall a, b :: a in series && b in series && a != b ==> series[a] != series[b]
    }

    ghost function Model(): Contents
      reads this, series.Values
    {
      map id | id in series :: series[id].State()
    }

    constructor (round: real -> real)
      ensures Valid() && Model() == map[] && series == map[] && this.round == round
    {
      this.round := round;
      series := map[];
    }

    method Set(name: string, kind: Kind, help: string, labels: map<string, string>, value: real)
      requires Valid()
      modifies this`series, series.Values
      ensures Valid() && fresh(series.Values - old(series.Values))
      ensures Model() == Put(round, old(Model()), Write(name, kind, help, labels, value))
    {
      hide WellKeyed, Put, IdentityOf, Updated, ValuesOf, SortedSeq, StrictlySorted, Elements, Separate, Model;
      ghost var w, before := Write(name, kind, help, labels, value), Model();
      PutKeepsWellKeyed(round, before, w);
      var names, values := Flatten(labels);
      var id := Identity(name, names, values);
      IdentityOfWrite(round, before, w, names, values, id);
      var existing := FindOrAdd(id, name, kind, help, names, values);
      UpdateAt(id, existing, kind, help, value);
      assert Model() == Put(round, before, w);
    }

    /** The part of Set after the lookup, seen from the whole index. */
    method UpdateAt(id: string, existing: Series, kind: Kind, help: string, value: real)
      requires Separate() && id in series && series[id] == existing
      modifies existing
      ensures Separate()
      ensures Model() == old(Model())[id := Updated(round, old(Model())[id], kind, help, value)]
    {
      hide Updated;
      ghost var found := Model();
      existing.Update(round, kind, help, value);
      forall other | other in series && other != id ensures series[other].State() == found[other] {
        assert series[other] != existing;
      }
    }

    /** The lookup at the head of Set. */
    method FindOrAdd(id: string, name: string, kind: Kind, help: string, names: seq<string>, values: seq<string>)
      returns (existing: Series)
      requires Separate()
      modifies `series
      ensures Separate() && fresh(series.Values - old(series.Values))
      ensures id in series && series[id] == existing
      ensures var made := Entry(kind, help, names, values, name, 0.0, 0.0, false);
              Model() == old(if id in Model() then Model() else Model()[id := made])
    {
      if id in series {
        return series[id];
      }
      existing := new Series(kind, help, names, values, name);
      ghost var before := Model();
      series := series[id := existing];
      assert Model() == before[id := existing.State()];
    }

    method Snapshot() returns (out: seq<Sample>)
      requires Valid()
      ensures IsSnapshot(round, Model(), out) && SamplesInOrder(out)
    {
      hide WellKeyed, SampleLess, SamplesInOrder;
      var listed := ListSamples();
      SampleLessIsStrictWeakOrder();
      out := Sort(listed, SampleLess);
      PermutationOfDistinct(listed, out);
      OrderedIsInOrder(out);
    }

    /** The map iteration of Snapshot. */
    method ListSamples() returns (out: seq<Sample>)
      requires Valid()
      ensures Distinct(out) && Elements(out) == SamplesOf(round, Model()) && |out| == |Model()|
    {
      hide WellKeyed, SamplesAt;
      ghost var m := Model();
      assert m.Keys == series.Keys && |m| == |m.Keys| && |series| == |series.Keys|;
      NoSamples(round, m);
      out := [];
      var rest := series.Keys;
      assert m.Keys - rest == {};
      while rest != {}
        invariant rest <= series.Keys && |out| + |rest| == |series.Keys|
        invariant Distinct(out) && Elements(out) == SamplesAt(round, m, m.Keys - rest)
      {
        var id :| id in rest;
        var entry := series[id];
        OneMoreSample(round, m, m.Keys - rest, id, out);
        assert m.Keys - (rest - {id}) == m.Keys - rest + {id};
        out := out + [Sample(Key(entry.name, entry.names, entry.values), entry.kind, entry.help,
                             FloatAdd(round, entry.last, entry.offset))];
        rest := rest - {id};
      }
      assert m.Keys - rest == m.Keys;
    }

    method Len() returns (n: nat)
      ensures n == |Model()|
    {
      assert Model().Keys == series.Keys && |Model()| == |Model().Keys| && |series| == |series.Keys|;
      return |series|;
    }
  }
}
