/** internal/config/labels.go: label templates and the label names a metric gets. */
module Labels {
  import opened Text
  import opened Library
  import opened Config

  // ------------------------------------------------------------ name patterns

  predicate IsLetter(c: char) {
    'a' <= c <= 'z' || 'A' <= c <= 'Z' || c == '_'
  }

  predicate IsIdentChar(c: char) {
    IsLetter(c) || '0' <= c <= '9'
  }

  /** `^[a-zA-Z_][a-zA-Z0-9_]*$`, also the identifier of a template reference. */
  predicate IsLabelName(s: string) {
    s != "" && IsLetter(s[0]) && forall i :: 0 <= i < |s| ==> IsIdentChar(s[i])
  }

  /** `^[a-zA-Z_:][a-zA-Z0-9_:]*$` */
  predicate IsMetricName(s: string) {
    && s != "" && (IsLetter(s[0]) || s[0] == ':')
    && forall i :: 0 <= i < |s| ==> IsIdentChar(s[i]) || s[i] == ':'
  }

  /** The characters of the two name patterns, by their codes. */
  predicate LetterCode(n: int) {
    0x41 <= n <= 0x5A || 0x61 <= n <= 0x7A || n == 0x5F
  }

  predicate NameCode(n: int) {
    LetterCode(n) || 0x30 <= n <= 0x39
  }

  lemma NamePatterns(s: string)
    ensures IsLabelName(s) <==>
            s != "" && LetterCode(s[0] as int) && forall i :: 0 <= i < |s| ==> NameCode(s[i] as int)
    ensures IsMetricName(s) <==>
            s != "" && (LetterCode(s[0] as int) || s[0] as int == 0x3A) &&
            forall i :: 0 <= i < |s| ==> NameCode(s[i] as int) || s[i] as int == 0x3A
  {}

  // ---------------------------------------------------------- template scanner

  datatype Piece = Literal(c: char) | Reference(name: string)

  function Braced(name: string): string {
    "{" + name + "}"
  }

  /** `\{([A-Za-z_][A-Za-z0-9_]*)\}` matches at the start of `s`, capturing `name`. */
  predicate MatchesRef(s: string, name: string) {
    IsLabelName(name) && Braced(name) <= s
  }

  function IdentRun(s: string): (n: nat)
    ensures n <= |s|
    ensures forall i :: 0 <= i < n ==> IsIdentChar(s[i])
    ensures n < |s| ==> !IsIdentChar(s[n])
  {
    if s != "" && IsIdentChar(s[0]) then 1 + IdentRun(s[1..]) else 0
  }

  /** The reference `s` starts with, if any. */
  function RefAt(s: string): (r: Option<string>)
    ensures r.Some? ==> |r.value| + 2 <= |s|
  {
    if s == "" || s[0] != '{' then None else
    var n := IdentRun(s[1..]);
    if 0 < n < |s| - 1 && IsLetter(s[1]) && s[n + 1] == '}' then Some(s[1..n + 1]) else None
  }

  lemma RefAtIsAMatch(s: string)
    requires RefAt(s).Some?
    ensures MatchesRef(s, RefAt(s).value)
    ensures s == Braced(RefAt(s).value) + s[|RefAt(s).value| + 2..]
  {
    var name := RefAt(s).value;
    assert forall i :: 0 <= i < |name| ==> name[i] == s[1..][i];
    assert Braced(name) == s[..|name| + 2];
  }

  /** RefAt finds the match of the reference pattern, if there is one. */
  lemma RefAtFindsTheMatch(s: string, name: string)
    ensures MatchesRef(s, name) <==> RefAt(s) == Some(name)
  {
    if RefAt(s) == Some(name) { RefAtIsAMatch(s); }
    if MatchesRef(s, name) { RefLength(s, name); }
  }

  lemma RefLength(s: string, name: string)
    requires MatchesRef(s, name)
    ensures |s| >= |name| + 2 && s[0] == '{' && s[|name| + 1] == '}'
    ensures IdentRun(s[1..]) == |name| && name == s[1..|name| + 1]
  {
    var b := Braced(name);
    assert b == s[..|name| + 2];
    assert forall i :: 0 <= i < |name| ==> b[i + 1] == name[i] == s[1..][i];
    assert b[|name| + 1] == s[1..][|name|] == '}';
    assert !IsIdentChar('}');
  }

  /** All leftmost, non-overlapping matches of the reference pattern, with the
      text between them. */
  function Scan(s: string): seq<Piece>
    decreases |s|
  {
    if s == "" then [] else
    var ref := RefAt(s);
    if ref.Some? then [Reference(ref.value)] + Scan(s[|ref.value| + 2..])
    else [Literal(s[0])] + Scan(s[1..])
  }

  function PrintPiece(p: Piece): string {
    match p
    case Literal(c) => [c]
    case Reference(name) => Braced(name)
  }

  function Print(ps: seq<Piece>): string {
    if ps == [] then "" else PrintPiece(ps[0]) + Print(ps[1..])
  }

  /** References carry identifiers, and no literal is where a reference starts:
      what "leftmost, non-overlapping" means for a split of a text into pieces. */
  ghost predicate Leftmost(ps: seq<Piece>) {
    ps != [] ==>
      && (match ps[0]
          case Reference(name) => IsLabelName(name)
          case Literal(_) => forall name :: !MatchesRef(Print(ps), name))
      && Leftmost(ps[1..])
  }

  /** Printing undoes scanning. */
  lemma {:induction false} PrintOfScan(s: string)
    ensures Print(Scan(s)) == s
    ensures Leftmost(Scan(s))
    decreases |s|
  {
    hide RefAt, MatchesRef, IsLabelName;
    if s != "" {
      var ref := RefAt(s);
      var n := if ref.Some? then |ref.value| + 2 else 1;
      PrintOfScan(s[n..]);
      var ps := Scan(s);
      assert ps[1..] == Scan(s[n..]);
      if ref.Some? { RefAtIsAMatch(s); }
      assert s == PrintPiece(ps[0]) + s[n..];
      forall name { RefAtFindsTheMatch(s, name); }
      if ref.Some? { MatchIsIdentifier(s, ref.value); }
    }
  }

  lemma MatchIsIdentifier(s: string, name: string)
    requires MatchesRef(s, name)
    ensures IsLabelName(name)
  {}

  /** Scanning undoes printing: the split is the only leftmost one. */
  lemma {:induction false} ScanOfPrint(ps: seq<Piece>)
    requires Leftmost(ps)
    ensures Scan(Print(ps)) == ps
  {
    hide MatchesRef, IsLabelName, Scan;
    if ps == [] {
      NothingToScan();
    } else {
      ScanOfPrint(ps[1..]);
      assert Print(ps) == PrintPiece(ps[0]) + Print(ps[1..]);
      ScanHead(ps[0], Print(ps[1..]));
      assert ps == [ps[0]] + ps[1..];
    }
  }

  lemma NothingToScan()
    ensures Scan("") == []
  {}

  lemma ScanHead(p: Piece, rest: string)
    requires p.Reference? ==> IsLabelName(p.name)
    requires p.Literal? ==> forall name :: !MatchesRef([p.c] + rest, name)
    ensures Scan(PrintPiece(p) + rest) == [p] + Scan(rest)
  {
    var s := PrintPiece(p) + rest;
    match p
    case Literal(c) =>
      assert s[1..] == rest;
      if RefAt(s).Some? { RefAtIsAMatch(s); }
    case Reference(name) =>
      assert MatchesRef(s, name);
      RefAtFindsTheMatch(s, name);
      assert s[|name| + 2..] == rest;
  }

  /** The names of the references, in order of appearance. */
  function RefsOf(ps: seq<Piece>): seq<string> {
    if ps == [] then []
    else (if ps[0].Reference? then [ps[0].name] else []) + RefsOf(ps[1..])
  }

  function Refs(s: string): seq<string> {
    RefsOf(Scan(s))
  }

  /** A Go map read: the zero value when the key is missing. */
  function Lookup(values: map<string, string>, name: string): string {
    if name in values then values[name] else ""
  }

  function ExpandPieces(ps: seq<Piece>, values: map<string, string>): string {
    if ps == [] then ""
    else (if ps[0].Reference? then Lookup(values, ps[0].name) else [ps[0].c]) + ExpandPieces(ps[1..], values)
  }

  function ExpandTemplate(s: string, values: map<string, string>): string {
    ExpandPieces(Scan(s), values)
  }

  method TemplateRefs(s: string) returns (names: seq<string>)
    ensures names == Refs(s)
  {
    var matches := Scan(s);
    names := [];
    for i := 0 to |matches|
      invariant names + RefsOf(matches[i..]) == Refs(s)
    {
      if matches[i].Reference? {
        names := names + [matches[i].name];
      }
    }
  }

  /** The reference list holds the names of the reference pieces, all identifiers. */
  lemma {:induction false} RefsAreIdentifiers(ps: seq<Piece>, name: string)
    requires Leftmost(ps)
    ensures name in RefsOf(ps) <==> Reference(name) in ps
    ensures name in RefsOf(ps) ==> IsLabelName(name)
  {
    if ps != [] {
      RefsAreIdentifiers(ps[1..], name);
      assert ps == [ps[0]] + ps[1..];
    }
  }

  /** The reference list is read off the pieces one by one, in order. */
  lemma {:induction false} RefsInOrder(ps: seq<Piece>, qs: seq<Piece>)
    ensures RefsOf(ps + qs) == RefsOf(ps) + RefsOf(qs)
  {
    if ps == [] {
      assert ps + qs == qs;
    } else {
      RefsInOrder(ps[1..], qs);
      assert (ps + qs)[0] == ps[0] && (ps + qs)[1..] == ps[1..] + qs;
      GroupLeft(if ps[0].Reference? then [ps[0].name] else [], RefsOf(ps[1..]), RefsOf(qs));
    }
  }

  lemma RefsOfOne(p: Piece)
    ensures RefsOf([p]) == if p.Reference? then [p.name] else []
  {
    assert [p][1..] == [] && RefsOf([]) == [];
  }

  lemma Associative(a: string, b: string, c: string)
    ensures a + (b + c) == (a + b) + c
  {}

  /** Text put in for one part is never scanned again: expansion works piece by
      piece. */
  lemma {:induction false} ExpansionIsPiecewise(ps: seq<Piece>, qs: seq<Piece>, values: map<string, string>)
    ensures ExpandPieces(ps + qs, values) == ExpandPieces(ps, values) + ExpandPieces(qs, values)
  {
    if ps == [] {
      assert ps + qs == qs;
    } else {
      ExpansionIsPiecewise(ps[1..], qs, values);
      assert (ps + qs)[0] == ps[0] && (ps + qs)[1..] == ps[1..] + qs;
      var head := if ps[0].Reference? then Lookup(values, ps[0].name) else [ps[0].c];
      Associative(head, ExpandPieces(ps[1..], values), ExpandPieces(qs, values));
    }
  }

  /** One piece expands to its character or its value; a missing value is empty. */
  lemma ExpansionOfOne(p: Piece, values: map<string, string>)
    ensures ExpandPieces([p], values) ==
            if p.Literal? then [p.c] else if p.name in values then values[p.name] else ""
  {
    assert [p][1..] == [] && ExpandPieces([], values) == "";
  }

  /** The result depends on the values of the referenced names only. */
  lemma {:induction false} ExpansionDependsOnRefs(ps: seq<Piece>, v: map<string, string>, w: map<string, string>)
    requires forall name :: name in RefsOf(ps) ==> Lookup(v, name) == Lookup(w, name)
    ensures ExpandPieces(ps, v) == ExpandPieces(ps, w)
  {
    if ps != [] { ExpansionDependsOnRefs(ps[1..], v, w); }
  }

  /** Everything outside the references is kept: putting every reference back in
      for itself gives the text. */
  lemma {:induction false} SelfExpansion(ps: seq<Piece>, values: map<string, string>)
    requires forall name :: name in RefsOf(ps) ==> Lookup(values, name) == Braced(name)
    ensures ExpandPieces(ps, values) == Print(ps)
  {
    if ps != [] { SelfExpansion(ps[1..], values); }
  }

  /** A template without references is a constant. */
  lemma ConstantTemplate(s: string, values: map<string, string>)
    requires Refs(s) == []
    ensures ExpandTemplate(s, values) == s
  {
    SelfExpansion(Scan(s), values);
    PrintOfScan(s);
  }

  // -------------------------------------------------------------- label names

  /** The names some label in `sets` references. */
  ghost function Consumed(sets: seq<map<string, Label>>): set<string> {
    if sets == [] then {} else
    (set name, ref | name in sets[0] && ref in Refs(sets[0][name].Value) :: ref) + Consumed(sets[1..])
  }

  ghost function Declared(sets: seq<map<string, Label>>): set<string> {
    if sets == [] then {} else sets[0].Keys + Declared(sets[1..])
  }

  /** Declared labels, and the captures no template consumes. */
  ghost function LabelSet(captures: seq<string>, sets: seq<map<string, Label>>): set<string> {
    Declared(sets) + (Elements(captures) - Consumed(sets))
  }

  method LabelNames(captures: seq<string>, labelSets: seq<map<string, Label>>) returns (names: seq<string>)
    ensures names == SortedSeq(LabelSet(captures, labelSets)) && InOrder(names)
  {
    var consumed: set<string>, all: set<string> := {}, {};
    for i := 0 to |labelSets|
      invariant consumed + Consumed(labelSets[i..]) == Consumed(labelSets)
      invariant all + Declared(labelSets[i..]) == Declared(labelSets)
    {
      var refs := RefsOfLabels(labelSets[i]);
      consumed := consumed + refs;
      all := all + labelSets[i].Keys;
      assert labelSets[i..][1..] == labelSets[i + 1..];
    }
    for i := 0 to |captures|
      invariant all == Declared(labelSets) + (Elements(captures[..i]) - consumed)
    {
      if captures[i] !in consumed {
        all := all + {captures[i]};
      }
      assert captures[..i + 1] == captures[..i] + [captures[i]];
    }
    assert captures[..|captures|] == captures;
    var listed := ListKeys(all);
    names := SortNames(listed);
  }

  /** The inner loop of LabelNames over one label map, in any order. */
  method RefsOfLabels(labels: map<string, Label>) returns (consumed: set<string>)
    ensures consumed == set name, ref | name in labels && ref in Refs(labels[name].Value) :: ref
  {
    consumed := {};
    var rest := labels.Keys;
    while rest != {}
      invariant rest <= labels.Keys
      invariant consumed == set name, ref | name in labels.Keys - rest && ref in Refs(labels[name].Value) :: ref
    {
      var name :| name in rest;
      var refs := TemplateRefs(labels[name].Value);
      consumed := consumed + set ref | ref in refs;
      rest := rest - {name};
    }
  }

  /** A map iteration: the keys, each once, in an order nobody knows. */
  method ListKeys(keys: set<string>) returns (names: seq<string>)
    ensures Distinct(names) && Elements(names) == keys && |names| == |keys|
  {
    names := [];
    var rest := keys;
    while rest != {}
      invariant rest <= keys
      invariant Distinct(names) && Elements(names) == keys - rest && |names| + |rest| == |keys|
    {
      var name :| name in rest;
      Appended(names, name);
      assert name !in Elements(names);
      names := names + [name];
      rest := rest - {name};
    }
  }

  /** The named groups, in order. */
  function Named(names: seq<string>): seq<string> {
    if names == [] then []
    else (if names[0] != "" then [names[0]] else []) + Named(names[1..])
  }

  method CaptureNames(re: Regexp) returns (names: seq<string>)
    ensures names == Named(re.names)
  {
    names := [];
    for i := 0 to |re.names|
      invariant names + Named(re.names[i..]) == Named(re.names)
    {
      if re.names[i] != "" {
        names := names + [re.names[i]];
      }
    }
  }

  lemma {:induction false} NamedGroups(names: seq<string>, x: string)
    ensures x in Named(names) <==> x != "" && x in names
  {
    if names != [] {
      NamedGroups(names[1..], x);
      assert names == [names[0]] + names[1..];
    }
  }

  /** The named groups are read off one by one, in order. */
  lemma {:induction false} NamedInOrder(a: seq<string>, b: seq<string>)
    ensures Named(a + b) == Named(a) + Named(b)
  {
    if a == [] {
      assert a + b == b;
    } else {
      NamedInOrder(a[1..], b);
      assert (a + b)[0] == a[0] && (a + b)[1..] == a[1..] + b;
      GroupLeft(if a[0] != "" then [a[0]] else [], Named(a[1..]), Named(b));
    }
  }

  lemma GroupLeft(a: seq<string>, b: seq<string>, c: seq<string>)
    ensures a + (b + c) == (a + b) + c
  {}

  lemma NamedOfOne(x: string)
    ensures Named([x]) == if x == "" then [] else [x]
  {
    assert [x][1..] == [] && Named([]) == [];
  }

  /** The set predicted from the two label maps side by side is the set computed
      from the merged map, when the source's labels reference nothing, however
      many of them the rule overrides. */
  lemma PredictionMatchesMerge(captures: seq<string>, rule: map<string, Label>, source: map<string, Label>)
    requires forall name :: name in source ==> Refs(source[name].Value) == []
    ensures LabelSet(captures, [rule, source]) == LabelSet(captures, [source + rule])
  {
    var merged := source + rule;
    ConsumedByOne(merged);
    ConsumedByOne(source);
    assert [rule, source][1..] == [source];
    assert Declared([rule, source]) == rule.Keys + Declared([source]);
    assert Declared([source]) == source.Keys && Declared([merged]) == merged.Keys;
    assert Consumed([source]) == {};
    forall ref ensures ref in Consumed([rule, source]) <==> ref in Consumed([merged]) {
      if name :| name in rule && ref in Refs(rule[name].Value) {
        assert name in merged && merged[name] == rule[name];
      }
    }
  }

  /** Some label of the map has a template that refers to the name. */
  ghost predicate Refers(labels: map<string, Label>, ref: string) {
    exists name :: name in labels && ref in Refs(labels[name].Value)
  }

  lemma {:induction false} ConsumedExactly(sets: seq<map<string, Label>>, ref: string)
    ensures ref in Consumed(sets) <==> exists i :: 0 <= i < |sets| && Refers(sets[i], ref)
  {
    if sets != [] {
      ConsumedExactly(sets[1..], ref);
      assert ref in Consumed(sets) <==> Refers(sets[0], ref) || ref in Consumed(sets[1..]);
      if i :| 0 <= i < |sets| && Refers(sets[i], ref) { assert i > 0 ==> sets[1..][i - 1] == sets[i]; }
      if i :| 0 <= i < |sets[1..]| && Refers(sets[1..][i], ref) { assert sets[i + 1] == sets[1..][i]; }
    }
  }

  lemma {:induction false} DeclaredExactly(sets: seq<map<string, Label>>, name: string)
    ensures name in Declared(sets) <==> exists i :: 0 <= i < |sets| && name in sets[i]
  {
    if sets != [] {
      DeclaredExactly(sets[1..], name);
      if i :| 0 <= i < |sets| && name in sets[i] { assert i > 0 ==> sets[1..][i - 1] == sets[i]; }
      if i :| 0 <= i < |sets[1..]| && name in sets[1..][i] { assert sets[i + 1] == sets[1..][i]; }
    }
  }

  /** A metric's label names: those some label map declares, and the captures no
      label's template refers to. */
  lemma LabelNamesExactly(captures: seq<string>, sets: seq<map<string, Label>>, x: string)
    ensures x in LabelSet(captures, sets) <==>
            || (exists i :: 0 <= i < |sets| && x in sets[i])
            || (x in captures && !exists i :: 0 <= i < |sets| && Refers(sets[i], x))
  {
    hide Refers;
    ConsumedExactly(sets, x);
    DeclaredExactly(sets, x);
  }

  lemma ConsumedByOne(labels: map<string, Label>)
    ensures Consumed([labels]) == set name, ref | name in labels && ref in Refs(labels[name].Value) :: ref
    ensures Declared([labels]) == labels.Keys
  {
    assert [labels][1..] == [];
  }
}
