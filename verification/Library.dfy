/** What the program takes from Go's standard library. A regular expression, the
    JSON decoder and the number formatting are parameters: nothing is assumed of
    them beyond the shapes stated here. */
module Library {
  import opened Text

  /** A compiled `*regexp.Regexp`: `SubexpNames()` and `FindStringSubmatch`. */
  datatype RawRegexp = RawRegexp(names: seq<string>, find: string -> Option<seq<string>>)

  /** Group 0 is unnamed, a name is not used by two groups, and a match reports
      one string for every group. */
  ghost predicate RegexpShape(re: RawRegexp) {
    && re.names != [] && re.names[0] == ""
    && (forall i, j :: 0 <= i < j < |re.names| && re.names[i] != "" ==> re.names[i] != re.names[j])
    && (forall s: string :: re.find(s).Some? ==> |re.find(s).value| == |re.names|)
  }

  type Regexp = re: RawRegexp | RegexpShape(re)
    witness RawRegexp([""], s => None)

  /** A decoded JSON document (`any` after `json.Unmarshal`). */
  datatype Json =
    | Null
    | Bool(b: bool)
    | Number(n: real)
    | Text(s: string)
    | Array(items: seq<Json>)
    | Object(fields: map<string, Json>)

  /** The library functions, and `round`: the float64 nearest to a real. */
  datatype Lib = Lib(
    compile: string -> Option<Regexp>,
    unmarshal: string -> Option<Json>,
    formatFloat: real -> string,
    parseFloat: string -> Option<real>,
    trimSpace: string -> string,
    round: real -> real)

  /** Float arithmetic: the exact result, rounded. */
  function FloatAdd(round: real -> real, x: real, y: real): real {
    round(x + y)
  }

  function FloatMul(round: real -> real, x: real, y: real): real {
    round(x * y)
  }
}
