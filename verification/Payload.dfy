/** internal/rules/payload.go: a message body, decoded at most once. */
module Payloads {
  import opened Text
  import opened Library

  /** The error values of package rules; a wrapped label error keeps its cause. */
  datatype RuleError = BadJSON | RegexNoMatch | NotNumeric | NotALabel | InLabel(name: string, cause: RuleError)

  datatype Result<+T> = Ok(value: T) | Err(error: RuleError)

  function Decode(lib: Lib, raw: string): Result<Json> {
    match lib.unmarshal(raw)
    case None => Err(BadJSON)
    case Some(document) => Ok(document)
  }

  /** The value at a path of object keys; null counts as absent. */
  function WalkFrom(document: Json, path: seq<string>): Option<Json> {
    if path == [] then
      if document.Null? then None else Some(document)
    else if document.Object? && path[0] in document.fields then
      WalkFrom(document.fields[path[0]], path[1..])
    else
      None
  }

  /** Walking a path is walking its first part and, from there, the rest. */
  lemma {:induction false} WalkOfConcat(document: Json, p: seq<string>, q: seq<string>)
    ensures WalkFrom(document, p + q) ==
            match WalkFrom(document, p) case None => None case Some(found) => WalkFrom(found, q)
  {
    if p == [] {
      assert p + q == q;
    } else {
      assert (p + q)[0] == p[0] && (p + q)[1..] == p[1..] + q;
      if document.Object? && p[0] in document.fields { WalkOfConcat(document.fields[p[0]], p[1..], q); }
    }
  }

  /** What a walk over a freshly decoded body finds. */
  function WalkBody(lib: Lib, raw: string, path: seq<string>): Result<Option<Json>> {
    match Decode(lib, raw)
    case Err(e) => Err(e)
    case Ok(document) => Ok(WalkFrom(document, path))
  }

  /** The documents met on the way down a path. */
  ghost predicate Chain(docs: seq<Json>, path: seq<string>) {
    && |docs| == |path| + 1
    && forall i :: 0 <= i < |path| ==>
         docs[i].Object? && path[i] in docs[i].fields && docs[i + 1] == docs[i].fields[path[i]]
  }

  lemma {:induction false} WalkHasChain(document: Json, path: seq<string>) returns (docs: seq<Json>)
    requires WalkFrom(document, path).Some?
    ensures Chain(docs, path) && docs[0] == document && docs[|path|] == WalkFrom(document, path).value
    ensures !docs[|path|].Null?
  {
    if path == [] {
      docs := [document];
    } else {
      var rest := WalkHasChain(document.fields[path[0]], path[1..]);
      docs := [document] + rest;
      forall i | 0 <= i < |path|
        ensures docs[i].Object? && path[i] in docs[i].fields && docs[i + 1] == docs[i].fields[path[i]]
      {
        if i > 0 { assert docs[i] == rest[i - 1] && path[i] == path[1..][i - 1] && docs[i + 1] == rest[i]; }
      }
    }
  }

  lemma {:induction false} ChainIsWalked(docs: seq<Json>, path: seq<string>)
    requires Chain(docs, path) && !docs[|path|].Null?
    ensures WalkFrom(docs[0], path) == Some(docs[|path|])
  {
    if path != [] {
      ChainIsWalked(docs[1..], path[1..]);
    }
  }

  /** A walk finds a value exactly when the path's keys lead to it one by one and it
      is not null. */
  lemma WalkFollowsKeys(document: Json, path: seq<string>, found: Json)
    ensures WalkFrom(document, path) == Some(found) <==>
            !found.Null? && exists docs :: Chain(docs, path) && docs[0] == document && docs[|path|] == found
  {
    if WalkFrom(document, path) == Some(found) { var docs := WalkHasChain(document, path); }
    if docs :| Chain(docs, path) && docs[0] == document && docs[|path|] == found {
      if !found.Null? { ChainIsWalked(docs, path); }
    }
  }

  /** A body that is not JSON fails every walk; any other is walked as decoded. */
  lemma WalkOfBody(lib: Lib, raw: string, path: seq<string>)
    ensures lib.unmarshal(raw) == None ==> WalkBody(lib, raw, path) == Err(BadJSON)
    ensures lib.unmarshal(raw).Some? ==> WalkBody(lib, raw, path) == Ok(WalkFrom(lib.unmarshal(raw).value, path))
    ensures WalkBody(lib, raw, path) != Ok(Some(Null))
  {
    if lib.unmarshal(raw).Some? && WalkFrom(lib.unmarshal(raw).value, path).Some? {
      var docs := WalkHasChain(lib.unmarshal(raw).value, path);
    }
  }

  class Payload {
    const raw: string
    var document: Json
    var parsed: bool
    var err: bool
    ghost var decodes: nat  // calls of json.Unmarshal

    ghost predicate Valid(lib: Lib)
      reads this
    {
      && (parsed ==> Decode(lib, raw) == if err then Err(BadJSON) else Ok(document))
      && decodes == if parsed then 1 else 0
    }

    constructor (raw: string)
      ensures this.raw == raw && forall lib :: Valid(lib)
    {
      this.raw := raw;
      document, parsed, err := Null, false, false;
      decodes := 0;
    }

    method Parse(lib: Lib) returns (r: Result<Json>)
      requires Valid(lib)
      modifies this
      ensures Valid(lib) && parsed
      ensures r == Decode(lib, raw)
    {
      if !parsed {
        var decoded := lib.unmarshal(raw);
        decodes := decodes + 1;
        err := decoded.None?;
        if decoded.Some? { document := decoded.value; }
        parsed := true;
      }
      if err { return Err(BadJSON); }
      return Ok(document);
    }

    method Walk(lib: Lib, path: seq<string>) returns (r: Result<Option<Json>>)
      requires Valid(lib)
      modifies this
      ensures Valid(lib)
      ensures r == WalkBody(lib, raw, path)
    {
      var parsed := Parse(lib);
      if parsed.Err? { return Err(parsed.error); }
      var document := parsed.value;
      for i := 0 to |path|
        invariant WalkFrom(document, path[i..]) == WalkFrom(parsed.value, path)
      {
        if !document.Object? || path[i] !in document.fields { return Ok(None); }
        document := document.fields[path[i]];
      }
      if document.Null? { return Ok(None); }
      return Ok(Some(document));
    }
  }
}
