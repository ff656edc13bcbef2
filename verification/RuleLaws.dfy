/** What rules read, from the declared rule: which text a label takes, which number
    a value is, and when either is absent or an error. */
module RuleLaws {
  import opened Text
  import opened Library
  import opened Config
  import opened Labels
  import opened Payloads
  import opened Rules

  // --------------------------------------------------------------------- labels

  /** The text of a JSON value used as a label. */
  ghost predicate TextOf(lib: Lib, raw: Json, t: string) {
    || raw == Text(t)
    || (raw.Number? && t == lib.formatFloat(raw.n))
    || (raw == Bool(true) && t == "true")
    || (raw == Bool(false) && t == "false")
  }

  /** The declared label reads the text, before its map. */
  ghost predicate ReadsText(lib: Lib, l: Label, captured: map<string, string>, body: string, t: string) {
    if l.From == FROM_JSON then
      exists raw :: WalkBody(lib, body, Split(l.Path, '.')) == Ok(Some(raw)) && TextOf(lib, raw, t)
    else t == ExpandTemplate(l.Value, captured)
  }

  lemma TextIsRead(lib: Lib, l: Label, captured: map<string, string>, body: string, t: string)
    ensures ReadLabel(lib, NewLabelExtractor(l), captured, body) == Ok(Some(t)) <==>
            ReadsText(lib, l, captured, body, t)
  {
    hide WalkBody, ExpandTemplate, Split;
    if l.From == FROM_JSON {
      var read := WalkBody(lib, body, Split(l.Path, '.'));
      if read.Ok? && read.value.Some? {
        assert AsLabel(lib, read.value.value) == Ok(Some(t)) <==> TextOf(lib, read.value.value, t);
      }
    }
  }

  /** A label has a value exactly when it reads a text, and its map, if it has one,
      has that text as a key: the map's value, or without a map the text itself. */
  lemma LabelHasValue(lib: Lib, l: Label, captured: map<string, string>, body: string, v: string)
    ensures LabelValue(lib, NewLabelExtractor(l), captured, body) == Ok(Some(v)) <==>
            exists t :: ReadsText(lib, l, captured, body, t) &&
              if l.Map.Some? then t in l.Map.value && l.Map.value[t] == v else t == v
  {
    hide ReadLabel, ReadsText;
    var read := ReadLabel(lib, NewLabelExtractor(l), captured, body);
    forall t ensures read == Ok(Some(t)) <==> ReadsText(lib, l, captured, body, t) {
      TextIsRead(lib, l, captured, body, t);
    }
    if read.Ok? && read.value.Some? { assert ReadsText(lib, l, captured, body, read.value.value); }
  }

  /** It is absent exactly when the path is, or the text read is no key of the map. */
  lemma LabelIsAbsent(lib: Lib, l: Label, captured: map<string, string>, body: string)
    ensures LabelValue(lib, NewLabelExtractor(l), captured, body) == Ok(None) <==>
            || (l.From == FROM_JSON && WalkBody(lib, body, Split(l.Path, '.')) == Ok(None))
            || (l.Map.Some? && exists t :: ReadsText(lib, l, captured, body, t) && t !in l.Map.value)
  {
    hide WalkBody, ExpandTemplate, Split, ReadsText;
    var read := ReadLabel(lib, NewLabelExtractor(l), captured, body);
    forall t ensures read == Ok(Some(t)) <==> ReadsText(lib, l, captured, body, t) {
      TextIsRead(lib, l, captured, body, t);
    }
    if read.Ok? && read.value.Some? { assert ReadsText(lib, l, captured, body, read.value.value); }
  }

  /** It fails exactly when the body is not JSON or the value is an object or array. */
  lemma LabelFails(lib: Lib, l: Label, captured: map<string, string>, body: string, e: RuleError)
    ensures LabelValue(lib, NewLabelExtractor(l), captured, body) == Err(e) <==>
            l.From == FROM_JSON &&
            var read := WalkBody(lib, body, Split(l.Path, '.'));
            || read == Err(e)
            || (e == NotALabel && read.Ok? && read.value.Some? && (read.value.value.Array? || read.value.value.Object?))
  {
    hide WalkBody, ExpandTemplate, Split;
    WalkOfBody(lib, body, Split(l.Path, '.'));
  }

  /** The label of that name a rule uses: its own, failing that the source's. */
  ghost function DeclaredLabel(src: Source, rule: Rule, name: string): Option<Label> {
    if name in rule.Labels then Some(rule.Labels[name])
    else if name in src.Labels then Some(src.Labels[name])
    else None
  }

  /** Each label of a produced sample that is declared with a map has one of the
      map's values. */
  lemma MappedLabelsStayInTheMap(lib: Lib, src: Source, rule: Rule, topic: string, body: string, name: string)
    requires CompiledForm(lib, src, rule).Good? && HasGroup(CompiledForm(lib, src, rule).value.value)
    ensures var o := Evaluate(lib, CompiledForm(lib, src, rule).value, topic, body);
            o.Produced? && name in o.labels && DeclaredLabel(src, rule, name).Some? &&
            DeclaredLabel(src, rule, name).value.Map.Some? ==>
              o.labels[name] in DeclaredLabel(src, rule, name).value.Map.value.Values
  {
    hide CompiledForm, LabelValue, ReadsText;
    var cr := CompiledForm(lib, src, rule).value;
    var o := Evaluate(lib, cr, topic, body);
    ProducedValues(lib, src, rule, topic, body, name);
    if o.Produced? && name in o.labels && DeclaredLabel(src, rule, name).Some? {
      var captured := Captured(cr.re.names, cr.re.find(topic).value);
      LabelHasValue(lib, DeclaredLabel(src, rule, name).value, captured, body, o.labels[name]);
    }
  }

  // --------------------------------------------------------------------- values

  /** The text a declared value starts from. */
  ghost predicate StartsFrom(lib: Lib, v: Value, body: string, t: string) {
    if v.From == FROM_JSON then WalkBody(lib, body, Split(v.Path, '.')) == Ok(Some(Text(t))) else t == body
  }

  /** The part of the text that counts: the first group of the regex. */
  ghost predicate Selects(lib: Lib, v: Value, t: string, g: string)
    requires HasOneGroup(lib, v)
  {
    if v.Regex == "" then g == t
    else
      var found := lib.compile(v.Regex).value.find(t);
      found.Some? && g == found.value[1]
  }

  ghost predicate HasOneGroup(lib: Lib, v: Value) {
    v.Regex != "" ==> lib.compile(v.Regex).Some? && |lib.compile(v.Regex).value.names| >= 2
  }

  /** The number a declared value is, before its scale. */
  ghost predicate IsNumber(lib: Lib, v: Value, body: string, n: real)
    requires HasOneGroup(lib, v)
  {
    || (v.From == FROM_JSON &&
        var read := WalkBody(lib, body, Split(v.Path, '.'));
        read == Ok(Some(Number(n))) || (read == Ok(Some(Bool(true))) && n == 1.0) ||
        (read == Ok(Some(Bool(false))) && n == 0.0))
    || exists t, g :: StartsFrom(lib, v, body, t) && Selects(lib, v, t, g) &&
         if v.Map.Some? then g in v.Map.value && n == v.Map.value[g]
         else lib.parseFloat(lib.trimSpace(g)) == Some(n)
  }

  lemma ExtractorOf(lib: Lib, v: Value)
    requires HasOneGroup(lib, v)
    ensures NewExtractor(lib, v).Good? && HasGroup(NewExtractor(lib, v).value)
  {}

  /** What reading a text comes to. */
  lemma TextReading(lib: Lib, v: Value, t: string)
    requires HasOneGroup(lib, v)
    ensures var r := FromString(lib, NewExtractor(lib, v).value, t);
            && (forall n :: r == Ok(Some(n)) <==>
                  exists g :: Selects(lib, v, t, g) &&
                    if v.Map.Some? then g in v.Map.value && n == v.Map.value[g]
                    else lib.parseFloat(lib.trimSpace(g)) == Some(n))
            && (r == Ok(None) <==> v.Map.Some? && exists g :: Selects(lib, v, t, g) && g !in v.Map.value)
            && (r == Err(RegexNoMatch) <==> v.Regex != "" && lib.compile(v.Regex).value.find(t).None?)
            && (r == Err(NotNumeric) <==>
                  v.Map.None? && exists g :: Selects(lib, v, t, g) && lib.parseFloat(lib.trimSpace(g)).None?)
            && (r.Err? ==> r.error == RegexNoMatch || r.error == NotNumeric)
  {
    ExtractorOf(lib, v);
    if v.Regex == "" {
      assert Selects(lib, v, t, t);
    } else if lib.compile(v.Regex).value.find(t).Some? {
      assert Selects(lib, v, t, lib.compile(v.Regex).value.find(t).value[1]);
    }
  }

  /** A value reads as a number exactly when it is one, times the scale if there is
      one, rounded. */
  lemma ReadsAsNumber(lib: Lib, v: Value, body: string, x: real)
    requires HasOneGroup(lib, v)
    ensures Extracted(lib, NewExtractor(lib, v).value, body) == Ok(Some(x)) <==>
            exists n :: IsNumber(lib, v, body, n) && x == if v.Scale.Some? then lib.round(n * v.Scale.value) else n
  {
    hide WalkBody, Split, FromString, Selects;
    ExtractorOf(lib, v);
    var e := NewExtractor(lib, v).value;
    var raw := RawValue(lib, e, body);
    if raw.Ok? && raw.value.Some? {
      var r := ToNumber(lib, e, raw.value.value);
      forall n ensures r == Ok(Some(n)) <==> IsNumber(lib, v, body, n) { NumberIsRead(lib, v, body, n); }
    } else {
      forall n ensures !IsNumber(lib, v, body, n) {}
    }
  }

  lemma NumberIsRead(lib: Lib, v: Value, body: string, n: real)
    requires HasOneGroup(lib, v)
    ensures var e := NewExtractor(lib, v).value;
            var raw := RawValue(lib, e, body);
            raw.Ok? && raw.value.Some? ==>
              (ToNumber(lib, e, raw.value.value) == Ok(Some(n)) <==> IsNumber(lib, v, body, n))
  {
    hide WalkBody, Split, FromString, Selects;
    ExtractorOf(lib, v);
    var raw := RawValue(lib, NewExtractor(lib, v).value, body);
    if raw.Ok? && raw.value.Some? && raw.value.value.Text? {
      TextReading(lib, v, raw.value.value.s);
    }
  }

  /** It is skipped exactly when the path is absent or the text is no key of the map. */
  lemma ReadsAsNothing(lib: Lib, v: Value, body: string)
    requires HasOneGroup(lib, v)
    ensures Extracted(lib, NewExtractor(lib, v).value, body) == Ok(None) <==>
            || (v.From == FROM_JSON && WalkBody(lib, body, Split(v.Path, '.')) == Ok(None))
            || (v.Map.Some? &&
                exists t, g :: StartsFrom(lib, v, body, t) && Selects(lib, v, t, g) && g !in v.Map.value)
  {
    hide WalkBody, Split, FromString, Selects;
    ExtractorOf(lib, v);
    var raw := RawValue(lib, NewExtractor(lib, v).value, body);
    if raw.Ok? && raw.value.Some? && raw.value.value.Text? {
      TextReading(lib, v, raw.value.value.s);
    }
  }

  /** It fails exactly when the body is not JSON, the regex does not match, or what is
      left is not a number. */
  lemma ReadsAsError(lib: Lib, v: Value, body: string, err: RuleError)
    requires HasOneGroup(lib, v)
    ensures Extracted(lib, NewExtractor(lib, v).value, body) == Err(err) <==>
            || (v.From == FROM_JSON && WalkBody(lib, body, Split(v.Path, '.')) == Err(err))
            || (err == RegexNoMatch && v.Regex != "" &&
                exists t :: StartsFrom(lib, v, body, t) && lib.compile(v.Regex).value.find(t).None?)
            || (err == NotNumeric && v.From == FROM_JSON &&
                var read := WalkBody(lib, body, Split(v.Path, '.'));
                read.Ok? && read.value.Some? && (read.value.value.Array? || read.value.value.Object?))
            || (err == NotNumeric && v.Map.None? &&
                exists t, g :: StartsFrom(lib, v, body, t) && Selects(lib, v, t, g) &&
                  lib.parseFloat(lib.trimSpace(g)).None?)
  {
    hide WalkBody, Split, FromString, Selects;
    ExtractorOf(lib, v);
    WalkOfBody(lib, body, Split(v.Path, '.'));
    var raw := RawValue(lib, NewExtractor(lib, v).value, body);
    if raw.Ok? && raw.value.Some? && raw.value.value.Text? {
      TextReading(lib, v, raw.value.value.s);
    }
  }

  /** With a regex a raw value reads as its first group would without one, so bodies
      with equal first groups read alike. */
  lemma RegexReadsItsGroup(lib: Lib, e: ValueExtractor, body: string)
    requires HasGroup(e) && !e.fromJSON && e.regex.Some? && e.regex.value.find(body).Some?
    ensures Extracted(lib, e, body) == Extracted(lib, e.(regex := None), e.regex.value.find(body).value[1])
  {}

  // ------------------------------------------------------------- label resolution

  /** What one name comes to. */
  function ValueFor(lib: Lib, extractors: map<string, LabelExtractor>, name: string, captured: map<string, string>,
      body: string): Result<Option<string>>
  {
    if name in extractors then LabelValue(lib, extractors[name], captured, body) else Ok(Some(Lookup(captured, name)))
  }

  ghost predicate AllPresent(lib: Lib, extractors: map<string, LabelExtractor>, names: seq<string>,
      captured: map<string, string>, body: string)
  {
    forall i :: 0 <= i < |names| ==>
      var v := ValueFor(lib, extractors, names[i], captured, body);
      v.Ok? && v.value.Some?
  }

  lemma {:induction false} ResolvedIfPresent(lib: Lib, extractors: map<string, LabelExtractor>, names: seq<string>,
      captured: map<string, string>, body: string)
    requires AllPresent(lib, extractors, names, captured, body)
    ensures var r := ResolvedLabels(lib, extractors, names, captured, body); r.Ok? && r.value.Some?
  {
    hide LabelValue;
    if names != [] { ResolvedIfPresent(lib, extractors, names[..|names| - 1], captured, body); }
  }

  /** The first name that fails or is absent decides: its error, with its name, or
      that the sample is skipped. */
  lemma FirstMissingDecides(lib: Lib, extractors: map<string, LabelExtractor>, names: seq<string>,
      captured: map<string, string>, body: string, k: nat)
    requires k < |names| && AllPresent(lib, extractors, names[..k], captured, body)
    ensures var r, v := ResolvedLabels(lib, extractors, names, captured, body),
                        ValueFor(lib, extractors, names[k], captured, body);
            && (v.Err? ==> r == Err(InLabel(names[k], v.error)))
            && (v == Ok(None) ==> r == Ok(None))
  {
    hide LabelValue;
    ResolvedIfPresent(lib, extractors, names[..k], captured, body);
    ResolutionStops(lib, extractors, names, k + 1, captured, body);
    assert names[..k + 1][..k] == names[..k];
  }

  // ----------------------------------------------------------------------- rules

  /** A compiled rule, field by field from the declared one. */
  lemma CompiledFields(lib: Lib, src: Source, rule: Rule)
    ensures CompiledForm(lib, src, rule).Good? <==>
            lib.compile(rule.Match).Some? && (rule.Value.Regex != "" ==> lib.compile(rule.Value.Regex).Some?)
    ensures CompiledForm(lib, src, rule).Bad? ==>
              CompiledForm(lib, src, rule).error ==
                if lib.compile(rule.Match).None? then BadMatchRegexp else BadValueRegexp
    ensures CompiledForm(lib, src, rule).Good? ==>
              var cr := CompiledForm(lib, src, rule).value;
              && cr.MetricName == rule.MetricName && cr.Help == rule.Help
              && (cr.Counter <==> rule.Type == TYPE_COUNTER) && cr.LastUpdatedMetric == rule.LastUpdatedMetric
              && Some(cr.re) == lib.compile(rule.Match) && cr.captures == Named(cr.re.names)
              && NewExtractor(lib, rule.Value) == Good(cr.value)
  {
    hide LabelSet, CompiledLabels;
  }

  /** What a rule makes of a message: nothing without a match; else the value's error
      or skip, and only then the labels'. */
  lemma OutcomeOf(lib: Lib, r: CompiledRule, topic: string, body: string)
    requires HasGroup(r.value)
    ensures var o := Evaluate(lib, r, topic, body);
            && (o == NoMatch <==> r.re.find(topic).None?)
            && (r.re.find(topic).Some? ==>
                  var value := Extracted(lib, r.value, body);
                  var captured := Captured(r.re.names, r.re.find(topic).value);
                  var labels := ResolvedLabels(lib, r.labels.extractors, r.autoLabels, captured, body);
                  && (value.Err? ==> o == Failed(value.error))
                  && (value == Ok(None) ==> o == Skipped)
                  && (value.Ok? && value.value.Some? ==>
                        && (labels.Err? ==> o == Failed(labels.error))
                        && (labels == Ok(None) ==> o == Skipped)
                        && (labels.Ok? && labels.value.Some? ==> o == Produced(labels.value.value, value.value.value))))
  {
    hide Extracted, ResolvedLabels, Captured;
  }

  /** Named groups carry the text they matched. */
  lemma {:induction false} CapturedText(names: seq<string>, found: seq<string>, k: nat)
    requires |found| == |names| && k < |names| && names[k] != ""
    requires forall i :: k < i < |names| ==> names[i] != names[k]
    ensures names[k] in Captured(names, found) && Captured(names, found)[names[k]] == found[k]
  {
    var n := |names| - 1;
    if k < n { CapturedText(names[..n], found[..n], k); }
  }
}
