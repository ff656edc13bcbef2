/** internal/rules: label.go, value.go and rule.go. Each extractor has a function
    that says what it yields for a body decoded on its own, and a method that
    works on the shared, memoised payload and is proved to yield the same. */
module Rules {
  import opened Text
  import opened Library
  import opened Config
  import opened Labels
  import opened Payloads

  // --------------------------------------------------------------------- label.go

  datatype LabelExtractor = LabelExtractor(template: string, fromJSON: bool, path: seq<string>,
      mapping: Option<map<string, string>>)

  function NewLabelExtractor(declared: Label): LabelExtractor {
    var fromJSON := declared.From == FROM_JSON;
    LabelExtractor(declared.Value, fromJSON, if fromJSON then Split(declared.Path, '.') else [], declared.Map)
  }

  function AsLabel(lib: Lib, raw: Json): Result<Option<string>> {
    match raw
    case Text(s) => Ok(Some(s))
    case Number(n) => Ok(Some(lib.formatFloat(n)))
    case Bool(b) => Ok(Some(if b then "true" else "false"))
    case _ => Err(NotALabel)
  }

  function MapLabel(e: LabelExtractor, read: Result<Option<string>>): Result<Option<string>> {
    if read.Err? || read.value.None? || e.mapping.None? then read
    else if read.value.value in e.mapping.value then Ok(Some(e.mapping.value[read.value.value]))
    else Ok(None)
  }

  function ReadLabel(lib: Lib, e: LabelExtractor, captured: map<string, string>, body: string): Result<Option<string>> {
    if !e.fromJSON then Ok(Some(ExpandTemplate(e.template, captured))) else
    match WalkBody(lib, body, e.path)
    case Err(error) => Err(error)
    case Ok(None) => Ok(None)
    case Ok(Some(raw)) => AsLabel(lib, raw)
  }

  /** The label's value; `None` when the sample is to be skipped. */
  function LabelValue(lib: Lib, e: LabelExtractor, captured: map<string, string>, body: string): Result<Option<string>>
  {
    MapLabel(e, ReadLabel(lib, e, captured, body))
  }

  method Read(lib: Lib, e: LabelExtractor, captured: map<string, string>,
      payload: Payload) returns (r: Result<Option<string>>)
    requires payload.Valid(lib)
    modifies payload
    ensures payload.Valid(lib)
    ensures r == ReadLabel(lib, e, captured, payload.raw)
  {
    if !e.fromJSON { return Ok(Some(ExpandTemplate(e.template, captured))); }
    var walked := payload.Walk(lib, e.path);
    if walked.Err? { return Err(walked.error); }
    if walked.value.None? { return Ok(None); }
    return AsLabel(lib, walked.value.value);
  }

  method ResolveLabel(lib: Lib, e: LabelExtractor, captured: map<string, string>, payload: Payload)
    returns (r: Result<Option<string>>)
    requires payload.Valid(lib)
    modifies payload
    ensures payload.Valid(lib)
    ensures r == LabelValue(lib, e, captured, payload.raw)
  {
    r := Read(lib, e, captured, payload);
    if r.Err? || r.value.None? || e.mapping.None? { return; }
    var value := r.value.value;
    r := if value in e.mapping.value then Ok(Some(e.mapping.value[value])) else Ok(None);
  }

  /** The Go type rules.Labels. */
  datatype LabelRules = LabelRules(names: seq<string>, extractors: map<string, LabelExtractor>)

  ghost predicate AllDeclared(l: LabelRules) {
    forall i :: 0 <= i < |l.names| ==> l.names[i] in l.extractors
  }

  ghost function CompiledLabels(declared: map<string, Label>): LabelRules {
    LabelRules(SortedSeq(declared.Keys), map name | name in declared :: NewLabelExtractor(declared[name]))
  }

  method CompileLabels(declared: map<string, Label>) returns (compiled: LabelRules)
    ensures compiled == CompiledLabels(declared) && AllDeclared(compiled)
  {
    var names: seq<string>, extractors: map<string, LabelExtractor> := [], map[];
    var rest := declared.Keys;
    while rest != {}
      invariant rest <= declared.Keys
      invariant Distinct(names) && Elements(names) == declared.Keys - rest
      invariant extractors == map name | name in declared.Keys - rest :: NewLabelExtractor(declared[name])
    {
      var name :| name in rest;
      Appended(names, name);
      assert name !in Elements(names);
      names := names + [name];
      extractors := extractors[name := NewLabelExtractor(declared[name])];
      rest := rest - {name};
    }
    assert extractors == map name | name in declared :: NewLabelExtractor(declared[name]);
    assert Elements(names) == declared.Keys;
    names := SortNames(names);
    assert forall i :: 0 <= i < |names| ==> names[i] in Elements(names);
    compiled := LabelRules(names, extractors);
  }

  type LabelMap = Result<Option<map<string, string>>>

  /** The labels called `names`, resolved in that order until one fails or is
      absent. A name without an extractor takes the captured value. */
  function ResolvedLabels(lib: Lib, extractors: map<string, LabelExtractor>, names: seq<string>,
                          captured: map<string, string>, body: string): LabelMap
  {
    if names == [] then Ok(Some(map[])) else
    var n := |names| - 1;
    var before := ResolvedLabels(lib, extractors, names[..n], captured, body);
    if before.Err? || before.value.None? then before else
    var value := if names[n] in extractors then LabelValue(lib, extractors[names[n]], captured, body)
                 else Ok(Some(Lookup(captured, names[n])));
    match value
    case Err(e) => Err(InLabel(names[n], e))
    case Ok(None) => Ok(None)
    case Ok(Some(v)) => Ok(Some(before.value.value[names[n] := v]))
  }

  /** Once a label fails or is absent, the labels after it change nothing. */
  lemma {:induction false} ResolutionStops(lib: Lib, extractors: map<string, LabelExtractor>, names: seq<string>,
                                           n: nat, captured: map<string, string>, body: string)
    requires n <= |names|
    ensures var before := ResolvedLabels(lib, extractors, names[..n], captured, body);
            before.Err? || before.value.None? ==> ResolvedLabels(lib, extractors, names, captured, body) == before
  {
    if n == |names| {
      assert names[..n] == names;
    } else {
      ResolutionStops(lib, extractors, names[..|names| - 1], n, captured, body);
      assert names[..|names| - 1][..n] == names[..n];
    }
  }

  /** What label `i` does to the map of the labels before it. */
  lemma NextLabel(lib: Lib, extractors: map<string, LabelExtractor>, names: seq<string>, i: nat,
                  captured: map<string, string>, body: string, before: map<string, string>)
    requires i < |names| && ResolvedLabels(lib, extractors, names[..i], captured, body) == Ok(Some(before))
    ensures var value := if names[i] in extractors then LabelValue(lib, extractors[names[i]], captured, body)
                         else Ok(Some(Lookup(captured, names[i])));
            var all := ResolvedLabels(lib, extractors, names, captured, body);
            && (value.Err? ==> all == Err(InLabel(names[i], value.error)))
            && (value.Ok? && value.value.None? ==> all == Ok(None))
            && (value.Ok? && value.value.Some? ==>
                  ResolvedLabels(lib, extractors, names[..i + 1], captured, body) ==
                  Ok(Some(before[names[i] := value.value.value])))
  {
    hide LabelValue;
    assert names[..i + 1][..i] == names[..i];
    ResolutionStops(lib, extractors, names, i + 1, captured, body);
  }

  /** A resolved label map has exactly the asked names. */
  lemma {:induction false} ResolvedNames(lib: Lib, extractors: map<string, LabelExtractor>, names: seq<string>,
                                         captured: map<string, string>, body: string)
    ensures var r := ResolvedLabels(lib, extractors, names, captured, body);
            r.Ok? && r.value.Some? ==> r.value.value.Keys == Elements(names)
  {
    if names != [] {
      var n := |names| - 1;
      ResolvedNames(lib, extractors, names[..n], captured, body);
      assert names == names[..n] + [names[n]];
      Appended(names[..n], names[n]);
    }
  }

  lemma NothingToResolve(lib: Lib, extractors: map<string, LabelExtractor>, captured: map<string, string>, body: string)
    ensures ResolvedLabels(lib, extractors, [], captured, body) == Ok(Some(map[]))
  {}

  /** Labels.Resolve */
  method ResolveAll(lib: Lib, l: LabelRules, captured: map<string, string>, payload: Payload) returns (r: LabelMap)
    requires payload.Valid(lib) && AllDeclared(l)
    modifies payload
    ensures payload.Valid(lib)
    ensures r == ResolvedLabels(lib, l.extractors, l.names, captured, payload.raw)
  {
    hide LabelValue, ResolvedLabels;
    var resolved: map<string, string> := map[];
    NothingToResolve(lib, l.extractors, captured, payload.raw);
    for i := 0 to |l.names|
      invariant payload.Valid(lib)
      invariant ResolvedLabels(lib, l.extractors, l.names[..i], captured, payload.raw) == Ok(Some(resolved))
    {
      var name := l.names[i];
      NextLabel(lib, l.extractors, l.names, i, captured, payload.raw, resolved);
      var value := ResolveLabel(lib, l.extractors[name], captured, payload);
      if value.Err? { return Err(InLabel(name, value.error)); }
      if value.value.None? { return Ok(None); }
      resolved := resolved[name := value.value.value];
    }
    assert l.names[..|l.names|] == l.names;
    return Ok(Some(resolved));
  }

  // --------------------------------------------------------------------- value.go

  datatype ValueExtractor = ValueExtractor(fromJSON: bool, path: seq<string>, regex: Option<Regexp>,
                                           scale: Option<real>, mapping: Option<map<string, real>>)

  datatype CompileError = BadMatchRegexp | BadValueRegexp

  datatype Compiled<+T> = Good(value: T) | Bad(error: CompileError)

  function NewExtractor(lib: Lib, v: Value): Compiled<ValueExtractor> {
    var fromJSON := v.From == FROM_JSON;
    var path := if fromJSON then Split(v.Path, '.') else [];
    if v.Regex == "" then Good(ValueExtractor(fromJSON, path, None, v.Scale, v.Map))
    else if lib.compile(v.Regex).None? then Bad(BadValueRegexp)
    else Good(ValueExtractor(fromJSON, path, lib.compile(v.Regex), v.Scale, v.Map))
  }

  /** The value regex has a first group, which `found[1]` reads. */
  predicate HasGroup(e: ValueExtractor) {
    e.regex.Some? ==> |e.regex.value.names| >= 2
  }

  /** A number, or `None` when the value is skipped. */
  type Reading = Result<Option<real>>

  function FromString(lib: Lib, e: ValueExtractor, s: string): Reading
    requires HasGroup(e)
  {
    if e.regex.Some? && e.regex.value.find(s).None? then Err(RegexNoMatch) else
    var s := if e.regex.Some? then e.regex.value.find(s).value[1] else s;
    if e.mapping.Some? then
      Ok(if s in e.mapping.value then Some(e.mapping.value[s]) else None)
    else
      match lib.parseFloat(lib.trimSpace(s))
      case None => Err(NotNumeric)
      case Some(number) => Ok(Some(number))
  }

  function ToNumber(lib: Lib, e: ValueExtractor, raw: Json): Reading
    requires HasGroup(e)
  {
    match raw
    case Number(n) => Ok(Some(n))
    case Bool(b) => Ok(Some(if b then 1.0 else 0.0))
    case Text(s) => FromString(lib, e, s)
    case _ => Err(NotNumeric)
  }

  function Scaled(lib: Lib, e: ValueExtractor, r: Reading): Reading {
    if r.Ok? && r.value.Some? && e.scale.Some? then Ok(Some(FloatMul(lib.round, r.value.value, e.scale.value))) else r
  }

  function RawValue(lib: Lib, e: ValueExtractor, body: string): Result<Option<Json>> {
    if e.fromJSON then WalkBody(lib, body, e.path) else Ok(Some(Text(body)))
  }

  function Extracted(lib: Lib, e: ValueExtractor, body: string): Reading
    requires HasGroup(e)
  {
    var raw := RawValue(lib, e, body);
    if raw.Err? then Err(raw.error)
    else if raw.value.None? then Ok(None)
    else Scaled(lib, e, ToNumber(lib, e, raw.value.value))
  }

  method Extract(lib: Lib, e: ValueExtractor, payload: Payload) returns (r: Reading)
    requires payload.Valid(lib) && HasGroup(e)
    modifies payload
    ensures payload.Valid(lib)
    ensures r == Extracted(lib, e, payload.raw)
  {
    var raw: Result<Option<Json>> := Ok(Some(Text(payload.raw)));
    if e.fromJSON {
      raw := payload.Walk(lib, e.path);
    }
    if raw.Err? { return Err(raw.error); }
    if raw.value.None? { return Ok(None); }
    r := ToNumber(lib, e, raw.value.value);
    if r.Err? || r.value.None? { return; }
    if e.scale.Some? {
      r := Ok(Some(FloatMul(lib.round, r.value.value, e.scale.value)));
    }
  }

  // ---------------------------------------------------------------------- rule.go

  datatype CompiledRule = CompiledRule(
    MetricName: string, Help: string, Counter: bool, LastUpdatedMetric: string,
    re: Regexp, captures: seq<string>, labels: LabelRules, autoLabels: seq<string>, value: ValueExtractor)

  ghost function CompiledForm(lib: Lib, src: Source, rule: Rule): Compiled<CompiledRule> {
    if lib.compile(rule.Match).None? then Bad(BadMatchRegexp) else
    var value := NewExtractor(lib, rule.Value);
    if value.Bad? then Bad(value.error) else
    var re := lib.compile(rule.Match).value;
    var declared := src.Labels + rule.Labels;
    Good(CompiledRule(
           rule.MetricName, rule.Help, rule.Type == TYPE_COUNTER, rule.LastUpdatedMetric,
           re, Named(re.names), CompiledLabels(declared),
           SortedSeq(LabelSet(Named(re.names), [declared])), value.value))
  }

  /** The two loops of Compile: a rule's labels replace the source's of the same name. */
  method MergeLabels(first: map<string, Label>, second: map<string, Label>) returns (declared: map<string, Label>)
    ensures declared == first + second
  {
    declared := map[];
    var rest := first.Keys;
    while rest != {}
      invariant rest <= first.Keys
      invariant declared == map name | name in first.Keys - rest :: first[name]
    {
      var name :| name in rest;
      declared := declared[name := first[name]];
      rest := rest - {name};
    }
    assert declared == first;
    rest := second.Keys;
    while rest != {}
      invariant rest <= second.Keys
      invariant declared == first + (map name | name in second.Keys - rest :: second[name])
    {
      var name :| name in rest;
      declared := declared[name := second[name]];
      rest := rest - {name};
    }
    assert (map name | name in second.Keys - rest :: second[name]) == second;
  }

  method Compile(lib: Lib, src: Source, rule: Rule) returns (r: Compiled<CompiledRule>)
    ensures r == CompiledForm(lib, src, rule)
  {
    var re := lib.compile(rule.Match);
    if re.None? { return Bad(BadMatchRegexp); }
    var value := NewExtractor(lib, rule.Value);
    if value.Bad? { return Bad(value.error); }
    var declared := MergeLabels(src.Labels, rule.Labels);
    var captures := CaptureNames(re.value);
    var labels := CompileLabels(declared);
    var autoLabels := LabelNames(captures, [declared]);
    return Good(CompiledRule(
                  rule.MetricName, rule.Help, rule.Type == TYPE_COUNTER, rule.LastUpdatedMetric,
                  re.value, captures, labels, autoLabels, value.value));
  }

  /** The named groups' texts. */
  function Captured(names: seq<string>, found: seq<string>): map<string, string>
    requires |found| == |names|
  {
    if names == [] then map[] else
    var n := |names| - 1;
    var before := Captured(names[..n], found[..n]);
    if names[n] != "" then before[names[n] := found[n]] else before
  }

  lemma NamedBeforeLast(names: seq<string>)
    requires names != []
    ensures var n := |names| - 1;
            Elements(Named(names)) == Elements(Named(names[..n])) + if names[n] != "" then {names[n]} else {}
  {
    hide Named;
    var n := |names| - 1;
    assert names == names[..n] + [names[n]];
    forall x ensures x in Named(names) <==> x in Named(names[..n]) || (x == names[n] && x != "") {
      NamedGroups(names, x);
      NamedGroups(names[..n], x);
    }
  }

  lemma {:induction false} CapturedKeys(names: seq<string>, found: seq<string>)
    requires |found| == |names|
    ensures Captured(names, found).Keys == Elements(Named(names))
  {
    if names != [] {
      CapturedKeys(names[..|names| - 1], found[..|names| - 1]);
      NamedBeforeLast(names);
    }
  }

  method CaptureValues(names: seq<string>, found: seq<string>) returns (captured: map<string, string>)
    requires |found| == |names|
    ensures captured == Captured(names, found)
  {
    captured := map[];
    for i := 0 to |names|
      invariant captured == Captured(names[..i], found[..i])
    {
      assert names[..i + 1][..i] == names[..i] && found[..i + 1][..i] == found[..i];
      if names[i] != "" {
        captured := captured[names[i] := found[i]];
      }
    }
    assert names[..|names|] == names && found[..|names|] == found;
  }

  /** The results of Rule.Apply: `(_, false, nil)`, `(_, true, err)`,
      `(Match{}, true, nil)` and `(Match{labels, value}, true, nil)`. */
  datatype Outcome = NoMatch | Failed(error: RuleError) | Skipped | Produced(labels: map<string, string>, value: real)

  /** What a rule makes of a message, on its own. */
  function Evaluate(lib: Lib, r: CompiledRule, topic: string, body: string): Outcome
    requires HasGroup(r.value)
  {
    var found := r.re.find(topic);
    if found.None? then NoMatch else
    var value := Extracted(lib, r.value, body);
    if value.Err? then Failed(value.error)
    else if value.value.None? then Skipped
    else
      var labels := ResolvedLabels(lib, r.labels.extractors, r.autoLabels, Captured(r.re.names, found.value), body);
      if labels.Err? then Failed(labels.error)
      else if labels.value.None? then Skipped
      else Produced(labels.value.value, value.value.value)
  }

  method Apply(lib: Lib, r: CompiledRule, topic: string, payload: Payload) returns (o: Outcome)
    requires payload.Valid(lib) && HasGroup(r.value)
    modifies payload
    ensures payload.Valid(lib)
    ensures o == Evaluate(lib, r, topic, payload.raw)
  {
    var found := r.re.find(topic);
    if found.None? { return NoMatch; }
    var captured := CaptureValues(r.re.names, found.value);
    var value := Extract(lib, r.value, payload);
    if value.Err? { return Failed(value.error); }
    if value.value.None? { return Skipped; }
    var labels := ResolveRuleLabels(lib, r, captured, payload);
    if labels.Err? { return Failed(labels.error); }
    if labels.value.None? { return Skipped; }
    return Produced(labels.value.value, value.value.value);
  }

  /** Rule.resolveLabels */
  method ResolveRuleLabels(lib: Lib, r: CompiledRule, captured: map<string, string>, payload: Payload)
    returns (resolved: LabelMap)
    requires payload.Valid(lib)
    modifies payload
    ensures payload.Valid(lib)
    ensures resolved == ResolvedLabels(lib, r.labels.extractors, r.autoLabels, captured, payload.raw)
  {
    hide LabelValue, ResolvedLabels;
    var labels: map<string, string> := map[];
    NothingToResolve(lib, r.labels.extractors, captured, payload.raw);
    for i := 0 to |r.autoLabels|
      invariant payload.Valid(lib)
      invariant ResolvedLabels(lib, r.labels.extractors, r.autoLabels[..i], captured, payload.raw) == Ok(Some(labels))
    {
      var name := r.autoLabels[i];
      NextLabel(lib, r.labels.extractors, r.autoLabels, i, captured, payload.raw, labels);
      if name !in r.labels.extractors {
        labels := labels[name := Lookup(captured, name)];
      } else {
        var value := ResolveLabel(lib, r.labels.extractors[name], captured, payload);
        if value.Err? { return Err(InLabel(name, value.error)); }
        if value.value.None? { return Ok(None); }
        labels := labels[name := value.value.value];
      }
    }
    assert r.autoLabels[..|r.autoLabels|] == r.autoLabels;
    return Ok(Some(labels));
  }

  /** A sample is produced with exactly the rule's label names. */
  lemma ProducedLabels(lib: Lib, r: CompiledRule, topic: string, body: string)
    requires HasGroup(r.value)
    ensures var o := Evaluate(lib, r, topic, body); o.Produced? ==> o.labels.Keys == Elements(r.autoLabels)
  {
    var found := r.re.find(topic);
    if found.Some? {
      ResolvedNames(lib, r.labels.extractors, r.autoLabels, Captured(r.re.names, found.value), body);
    }
  }

  /** Each name of a resolved map has the value of its own extractor, or the
      captured text when it has none. */
  lemma {:induction false} ResolvedValues(lib: Lib, extractors: map<string, LabelExtractor>, names: seq<string>,
                                          captured: map<string, string>, body: string, name: string)
    ensures var r := ResolvedLabels(lib, extractors, names, captured, body);
            r.Ok? && r.value.Some? && name in names ==>
              && name in r.value.value
              && if name in extractors then
                   LabelValue(lib, extractors[name], captured, body) == Ok(Some(r.value.value[name]))
                 else r.value.value[name] == Lookup(captured, name)
  {
    hide LabelValue;
    if names != [] {
      var n := |names| - 1;
      ResolvedValues(lib, extractors, names[..n], captured, body, name);
      assert names == names[..n] + [names[n]];
    }
  }

  /** Where each label of a produced sample comes from: the rule's declaration of
      that name, failing that the source's, failing that the captured group. */
  lemma ProducedValues(lib: Lib, src: Source, rule: Rule, topic: string, body: string, name: string)
    requires CompiledForm(lib, src, rule).Good? && HasGroup(CompiledForm(lib, src, rule).value.value)
    ensures var cr := CompiledForm(lib, src, rule).value;
            var o := Evaluate(lib, cr, topic, body);
            o.Produced? && name in o.labels ==>
              var captured := Captured(cr.re.names, cr.re.find(topic).value);
              if name in rule.Labels then
                LabelValue(lib, NewLabelExtractor(rule.Labels[name]), captured, body) == Ok(Some(o.labels[name]))
              else if name in src.Labels then
                LabelValue(lib, NewLabelExtractor(src.Labels[name]), captured, body) == Ok(Some(o.labels[name]))
              else o.labels[name] == Lookup(captured, name)
  {
    hide LabelSet, LabelValue, ResolvedLabels, Extracted, Captured, Evaluate, HasGroup, NewLabelExtractor;
    var cr := CompiledForm(lib, src, rule).value;
    var o := Evaluate(lib, cr, topic, body);
    if o.Produced? {
      ProducedIsResolved(lib, cr, topic, body);
      var captured := Captured(cr.re.names, cr.re.find(topic).value);
      ResolvedNames(lib, cr.labels.extractors, cr.autoLabels, captured, body);
      ResolvedValues(lib, cr.labels.extractors, cr.autoLabels, captured, body, name);
      ExtractorIsDeclared(lib, src, rule, name);
    }
  }

  lemma ProducedIsResolved(lib: Lib, r: CompiledRule, topic: string, body: string)
    requires HasGroup(r.value) && Evaluate(lib, r, topic, body).Produced?
    ensures r.re.find(topic).Some?
    ensures var captured := Captured(r.re.names, r.re.find(topic).value);
            ResolvedLabels(lib, r.labels.extractors, r.autoLabels, captured, body) ==
            Ok(Some(Evaluate(lib, r, topic, body).labels))
  {
    hide Extracted, ResolvedLabels, Captured;
  }

  /** A rule's label replaces the source's of the same name. */
  lemma ExtractorIsDeclared(lib: Lib, src: Source, rule: Rule, name: string)
    requires CompiledForm(lib, src, rule).Good?
    ensures var extractors := CompiledForm(lib, src, rule).value.labels.extractors;
            if name in rule.Labels then
              name in extractors && extractors[name] == NewLabelExtractor(rule.Labels[name])
            else if name in src.Labels then
              name in extractors && extractors[name] == NewLabelExtractor(src.Labels[name])
            else name !in extractors
  {
    hide NewLabelExtractor, LabelSet, NewExtractor, Named;
  }
}
