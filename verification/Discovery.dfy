/** internal/app/listen.go and discover.go: the emitter behind `discover` and
    `capture`, and the set of prefixes already announced. Observers, the reader and
    close run concurrently; each step below is one critical section or one channel
    operation. */
module Discovery {
  import opened Text
  import opened Labels

  const LINE_BUFFER: nat := 1024

  // -------------------------------------------------------------------- prefixes

  /** The first `depth` levels of a topic. */
  function PrefixOf(topic: string, depth: nat): string {
    var segments := Split(topic, '/');
    if |segments| <= depth then topic else Join(segments[..depth], '/')
  }

  /** A prefix has at most `depth` levels and announcing it again changes nothing. */
  lemma PrefixIsStable(topic: string, depth: nat)
    requires depth > 0
    ensures |Split(PrefixOf(topic, depth), '/')| <= depth
    ensures PrefixOf(PrefixOf(topic, depth), depth) == PrefixOf(topic, depth)
  {
    JoinOfSplit(topic, '/');
    var segments := Split(topic, '/');
    if |segments| > depth {
      SplitOfJoin(segments[..depth], '/');
    }
  }

  /** The prefix is the topic as far as the slash that ends its level `depth`, or the
      whole topic when it has no such slash. */
  lemma PrefixIsTheStart(topic: string, depth: nat, p: string)
    requires depth > 0
    ensures p == PrefixOf(topic, depth) <==>
            || (multiset(topic)['/'] < depth && p == topic)
            || (multiset(p)['/'] == depth - 1 && p + "/" <= topic)
  {
    var segments := Split(topic, '/');
    PartsAndSeparators(topic, '/');
    JoinOfSplit(topic, '/');
    if |segments| > depth { CutIsAStart(topic, depth); }
    if multiset(p)['/'] == depth - 1 && p + "/" <= topic { StartIsTheCut(topic, depth, p); }
  }

  lemma CutIsAStart(topic: string, depth: nat)
    requires 0 < depth < |Split(topic, '/')|
    ensures var p := Join(Split(topic, '/')[..depth], '/'); multiset(p)['/'] == depth - 1 && p + "/" <= topic
  {
    hide Join, Split;
    var segments := Split(topic, '/');
    var a, b := segments[..depth], segments[depth..];
    assert segments == a + b;
    JoinOfSplit(topic, '/');
    JoinOfConcat(a, b, '/');
    SplitOfJoin(a, '/');
    PartsAndSeparators(Join(a, '/'), '/');
    assert Join(a, '/') + "/" == Join(a, '/') + ['/'];
  }

  lemma StartIsTheCut(topic: string, depth: nat, p: string)
    requires depth > 0 && multiset(p)['/'] == depth - 1 && p + "/" <= topic
    ensures depth < |Split(topic, '/')| && p == Join(Split(topic, '/')[..depth], '/')
  {
    hide Join, Split;
    var rest := topic[|p| + 1..];
    assert topic == p + ['/'] + rest;
    SplitBoth(p, rest, '/');
    PartsAndSeparators(p, '/');
    JoinOfSplit(p, '/');
    assert Split(topic, '/')[..depth] == Split(p, '/');
  }

  // --------------------------------------------------------------------- emitter

  /** `out` and `full` are channels; `sent` and `read` are history. `broken` is set
      by what would panic: a send on or a close of a closed channel. */
  datatype Emitter = Emitter(
    limit: int, buffer: seq<string>, outClosed: bool, fullClosed: bool, count: nat, closed: bool,
    sent: seq<string>, read: seq<string>, broken: bool)

  function NewEmitter(limit: int): Emitter {
    Emitter(limit, [], false, false, 0, false, [], [], false)
  }

  predicate AtLimit(e: Emitter) {
    e.limit > 0 && e.count >= e.limit
  }

  function SendLine(e: Emitter, line: string): Emitter {
    if e.outClosed then e.(broken := true)
    else e.(buffer := e.buffer + [line], sent := e.sent + [line])
  }

  function CloseFull(e: Emitter): Emitter {
    if e.fullClosed then e.(broken := true) else e.(fullClosed := true)
  }

  /** A line emitted now is thrown away. */
  predicate Refuses(e: Emitter) {
    e.closed || AtLimit(e) || |e.buffer| >= LINE_BUFFER
  }

  function Emit(e: Emitter, line: string): Emitter {
    if Refuses(e) then e else
    var e := SendLine(e, line);
    var e := e.(count := e.count + 1);
    if AtLimit(e) then CloseFull(e) else e
  }

  function Close(e: Emitter): Emitter {
    if e.closed then e
    else if e.outClosed then e.(closed := true, broken := true)
    else e.(closed := true, outClosed := true)
  }

  /** The reader takes a line. */
  function Drain(e: Emitter): Emitter {
    if e.buffer == [] then e else e.(buffer := e.buffer[1..], read := e.read + [e.buffer[0]])
  }

  // ------------------------------------------------------------------- discovery

  /** `claimed` holds the prefixes an observer has found new and not yet emitted;
      `discarded` is history: those the emitter threw away. */
  datatype State = State(out: Emitter, seen: set<string>, claimed: seq<string>, discarded: seq<string>)

  datatype Action = Observe(topic: string) | EmitClaimed(k: nat) | DrainOne | CloseOut

  function Started(limit: int): State {
    State(NewEmitter(limit), {}, [], [])
  }

  function Claim(s: State, prefix: string): State {
    if prefix in s.seen then s else s.(seen := s.seen + {prefix}, claimed := s.claimed + [prefix])
  }

  function Step(depth: nat, s: State, a: Action): State {
    match a
    case Observe(topic) => Claim(s, PrefixOf(topic, depth))
    case EmitClaimed(k) =>
      if k >= |s.claimed| then s
      else s.(out := Emit(s.out, s.claimed[k]), claimed := s.claimed[..k] + s.claimed[k + 1..],
              discarded := if Refuses(s.out) then s.discarded + [s.claimed[k]] else s.discarded)
    case DrainOne => s.(out := Drain(s.out))
    case CloseOut => s.(out := Close(s.out))
  }

  function Run(depth: nat, s: State, actions: seq<Action>): State {
    if actions == [] then s else
    Step(depth, Run(depth, s, actions[..|actions| - 1]), actions[|actions| - 1])
  }

  /** The channels are used as Go allows, `full` is closed exactly when a positive
      limit is reached, and no more lines are sent than it allows. */
  ghost predicate EmitterOk(e: Emitter) {
    && !e.broken && e.outClosed == e.closed
    && (e.fullClosed <==> AtLimit(e))
    && e.count == |e.sent| && (e.limit > 0 ==> |e.sent| <= e.limit)
    && e.sent == e.read + e.buffer && |e.buffer| <= LINE_BUFFER
  }

  /** Every prefix seen is sent, claimed or discarded: one of these, and once. */
  ghost predicate Once(s: State) {
    Distinct(s.out.sent + s.claimed + s.discarded) && Elements(s.out.sent + s.claimed + s.discarded) == s.seen
  }

  lemma EmitKeepsOk(e: Emitter, line: string)
    requires EmitterOk(e)
    ensures EmitterOk(Emit(e, line))
    ensures Emit(e, line).sent == if Refuses(e) then e.sent else e.sent + [line]
  {
    assert e.read + (e.buffer + [line]) == e.sent + [line];
  }

  lemma DrainKeepsOk(e: Emitter)
    requires EmitterOk(e)
    ensures EmitterOk(Drain(e))
  {
    if e.buffer != [] { assert e.read + e.buffer == (e.read + [e.buffer[0]]) + e.buffer[1..]; }
  }

  lemma StepKeepsOnce(depth: nat, s: State, a: Action)
    requires EmitterOk(s.out) && Once(s)
    ensures EmitterOk(Step(depth, s, a).out) && Once(Step(depth, s, a))
  {
    hide EmitterOk, Emit, Drain;
    match a
    case Observe(topic) =>
      if PrefixOf(topic, depth) !in s.seen { ClaimKeepsOnce(s, PrefixOf(topic, depth)); }
    case EmitClaimed(k) =>
      if k < |s.claimed| {
        EmitKeepsOk(s.out, s.claimed[k]);
        MoveKeepsOnce(s.out.sent, s.claimed, s.discarded, k);
      }
    case DrainOne =>
      DrainKeepsOk(s.out);
      assert Drain(s.out).sent == s.out.sent by { DrainSendsNothing(s.out); }
    case CloseOut =>
      CloseKeepsOk(s.out);
  }

  lemma DrainSendsNothing(e: Emitter)
    ensures Drain(e).sent == e.sent
  {}

  lemma CloseKeepsOk(e: Emitter)
    requires EmitterOk(e)
    ensures EmitterOk(Close(e)) && Close(e).sent == e.sent
  {}

  lemma ClaimKeepsOnce(s: State, p: string)
    requires Once(s) && p !in s.seen
    ensures Once(s.(seen := s.seen + {p}, claimed := s.claimed + [p]))
  {
    var all := s.out.sent + s.claimed + s.discarded;
    var all' := s.out.sent + (s.claimed + [p]) + s.discarded;
    Appended(all, p);
    assert p !in Elements(all);
    assert multiset(all + [p]) == multiset(all');
    PermutationOfDistinct(all + [p], all');
  }

  /** A claimed prefix, once emitted, is sent or discarded. */
  lemma MoveKeepsOnce(sent: seq<string>, claimed: seq<string>, discarded: seq<string>, k: nat)
    requires k < |claimed| && Distinct(sent + claimed + discarded)
    ensures var all, rest := sent + claimed + discarded, claimed[..k] + claimed[k + 1..];
            var toSent, toDiscarded := sent + [claimed[k]] + rest + discarded, sent + rest + (discarded + [claimed[k]]);
            && Distinct(toSent) && Elements(toSent) == Elements(all)
            && Distinct(toDiscarded) && Elements(toDiscarded) == Elements(all)
  {
    hide Distinct, Elements;
    var all, rest := sent + claimed + discarded, claimed[..k] + claimed[k + 1..];
    assert claimed == claimed[..k] + [claimed[k]] + claimed[k + 1..];
    PermutationOfDistinct(all, sent + [claimed[k]] + rest + discarded);
    PermutationOfDistinct(all, sent + rest + (discarded + [claimed[k]]));
  }

  /** Over every interleaving of observers, reader and closers: no channel is
      misused, the limit is respected and announced exactly when reached, the
      reader gets what was sent in order, and every prefix seen is sent, waiting to
      be emitted or discarded: exactly one of these, and once. */
  lemma {:induction false} EveryRunIsOrderly(depth: nat, limit: int, actions: seq<Action>)
    ensures var s := Run(depth, Started(limit), actions); EmitterOk(s.out) && Once(s)
  {
    hide EmitterOk, Once, Step;
    if actions == [] {
      NothingSentYet(limit);
    } else {
      var n := |actions| - 1;
      EveryRunIsOrderly(depth, limit, actions[..n]);
      StepKeepsOnce(depth, Run(depth, Started(limit), actions[..n]), actions[n]);
    }
  }

  lemma NothingSentYet(limit: int)
    ensures EmitterOk(NewEmitter(limit)) && Once(Started(limit))
  {}

  /** The prefixes of the topics observed. */
  function Observed(depth: nat, actions: seq<Action>): set<string> {
    if actions == [] then {} else
    var n := |actions| - 1;
    Observed(depth, actions[..n]) + if actions[n].Observe? then {PrefixOf(actions[n].topic, depth)} else {}
  }

  /** Whenever a claimed prefix was emitted, the emitter was open, below its limit
      and had room. */
  predicate AlwaysRoom(depth: nat, limit: int, actions: seq<Action>) {
    actions == [] ||
    (var n := |actions| - 1;
     var s := Run(depth, Started(limit), actions[..n]);
     && AlwaysRoom(depth, limit, actions[..n])
     && (actions[n].EmitClaimed? && actions[n].k < |s.claimed| ==> !Refuses(s.out)))
  }

  lemma {:induction false} DiscardsAreRefusals(depth: nat, limit: int, actions: seq<Action>)
    ensures var s := Run(depth, Started(limit), actions);
            && s.seen == Observed(depth, actions)
            && (s.discarded == [] <==> AlwaysRoom(depth, limit, actions))
  {
    hide PrefixOf, Emit, Refuses, Drain, Close;
    if actions != [] { DiscardsAreRefusals(depth, limit, actions[..|actions| - 1]); }
  }

  /** With any number of observers, every observed prefix is sent or still waits to
      be emitted, exactly when no prefix was emitted while the emitter was closed, at
      its limit or out of room. */
  lemma NoPrefixIsLostExactly(depth: nat, limit: int, actions: seq<Action>)
    ensures var s := Run(depth, Started(limit), actions);
            Elements(s.out.sent + s.claimed) == Observed(depth, actions) <==> AlwaysRoom(depth, limit, actions)
  {
    hide EmitterOk, Run, AlwaysRoom, Observed;
    var s := Run(depth, Started(limit), actions);
    EveryRunIsOrderly(depth, limit, actions);
    DiscardsAreRefusals(depth, limit, actions);
    var kept := s.out.sent + s.claimed;
    if s.discarded == [] {
      assert kept + s.discarded == kept;
    } else {
      var all := kept + s.discarded;
      assert all[|kept|] == s.discarded[0] && all[|kept|] in Elements(all);
      assert forall i :: 0 <= i < |kept| ==> all[i] == kept[i];
    }
  }

  // ---------------------------------------------------------------- one observer

  /** A topic observed and its prefix emitted at once, a line read, or a close. */
  datatype Event = Seen(topic: string) | Read | Shut

  /** `lost` is history: a new prefix has met a full buffer, before the close and
      below the limit. */
  datatype Solo = Solo(s: State, lost: bool)

  predicate Full(e: Emitter) {
    !e.closed && !AtLimit(e) && |e.buffer| >= LINE_BUFFER
  }

  function SoloStep(depth: nat, st: Solo, e: Event): Solo {
    match e
    case Read => st.(s := Step(depth, st.s, DrainOne))
    case Shut => st.(s := Step(depth, st.s, CloseOut))
    case Seen(topic) =>
      var s := Step(depth, st.s, Observe(topic));
      if s.claimed == [] then st
      else Solo(Step(depth, s, EmitClaimed(0)), st.lost || Full(s.out))
  }

  function SoloRun(depth: nat, limit: int, events: seq<Event>): Solo {
    if events == [] then Solo(Started(limit), false) else
    SoloStep(depth, SoloRun(depth, limit, events[..|events| - 1]), events[|events| - 1])
  }

  /** The distinct prefixes in the order they were first seen. */
  function FirstSeen(depth: nat, events: seq<Event>): seq<string> {
    if events == [] then [] else
    var before := FirstSeen(depth, events[..|events| - 1]);
    match events[|events| - 1]
    case Read => before
    case Shut => before
    case Seen(topic) => if PrefixOf(topic, depth) in before then before else before + [PrefixOf(topic, depth)]
  }

  function Cut(lines: seq<string>, limit: int): seq<string> {
    if 0 < limit < |lines| then lines[..limit] else lines
  }

  /** What ties a solo run to the list of first-seen prefixes. */
  ghost predicate SoloOk(st: Solo, first: seq<string>, limit: int) {
    var e := st.s.out;
    && EmitterOk(e) && Once(st.s) && e.limit == limit && !e.closed
    && st.s.claimed == [] && st.s.seen == Elements(first)
    && (!st.lost ==> e.sent == Cut(first, limit))
    && (st.lost ==> exists p :: p in Cut(first, limit) && p !in e.sent)
  }

  lemma SeenStep(depth: nat, st: Solo, topic: string, first: seq<string>, limit: int)
    requires SoloOk(st, first, limit)
    ensures var p := PrefixOf(topic, depth);
            SoloOk(SoloStep(depth, st, Seen(topic)), if p in first then first else first + [p], limit)
  {
    hide PrefixOf;
    var p := PrefixOf(topic, depth);
    if p !in first {
      var s := Step(depth, st.s, Observe(topic));
      assert s.claimed == [p];
      StepKeepsOnce(depth, st.s, Observe(topic));
      StepKeepsOnce(depth, s, EmitClaimed(0));
      Appended(first, p);
      EmittedOrLost(st, p, first, limit);
    }
  }

  lemma EmittedOrLost(st: Solo, p: string, first: seq<string>, limit: int)
    requires SoloOk(st, first, limit) && p !in first
    ensures var e := st.s.out;
            var lost := st.lost || Full(e);
            && (!lost ==> Emit(e, p).sent == Cut(first + [p], limit))
            && (lost ==> exists q :: q in Cut(first + [p], limit) && q !in Emit(e, p).sent)
  {
    var e := st.s.out;
    if st.lost {
      var q :| q in Cut(first, limit) && q !in e.sent;
      assert q in Cut(first + [p], limit) && q in first;
    } else if Full(e) {
      assert p in Cut(first + [p], limit);
      assert p !in e.sent;
    }
  }

  /** The events up to the first close. */
  function BeforeClose(events: seq<Event>): seq<Event> {
    if Shut !in events then events else BeforeClose(events[..|events| - 1])
  }

  lemma {:induction false} OpenRun(depth: nat, limit: int, events: seq<Event>)
    requires Shut !in events
    ensures SoloOk(SoloRun(depth, limit, events), FirstSeen(depth, events), limit)
  {
    hide SoloStep, PrefixOf, EmitterOk, Once;
    if events == [] {
      NothingSentYet(limit);
    } else {
      var n := |events| - 1;
      assert events[n] in events;
      OpenRun(depth, limit, events[..n]);
      match events[n]
      case Seen(topic) =>
        SeenStep(depth, SoloRun(depth, limit, events[..n]), topic, FirstSeen(depth, events[..n]), limit);
      case Read =>
        ReadStep(depth, SoloRun(depth, limit, events[..n]), FirstSeen(depth, events[..n]), limit);
    }
  }

  lemma ClosedStep(depth: nat, st: Solo, e: Event)
    requires st.s.out.closed || e.Shut?
    ensures SoloStep(depth, st, e).s.out.closed && SoloStep(depth, st, e).lost == st.lost
    ensures SoloStep(depth, st, e).s.out.sent == st.s.out.sent
  {
    hide PrefixOf;
  }

  /** Nothing is sent or lost after a close. */
  lemma {:induction false} ClosedRun(depth: nat, limit: int, events: seq<Event>)
    ensures var st, open := SoloRun(depth, limit, events), SoloRun(depth, limit, BeforeClose(events));
            && Shut !in BeforeClose(events)
            && st.s.out.sent == open.s.out.sent && st.lost == open.lost && (Shut in events ==> st.s.out.closed)
  {
    hide SoloStep;
    if Shut in events {
      var n := |events| - 1;
      ClosedRun(depth, limit, events[..n]);
      assert events == events[..n] + [events[n]];
      ClosedStep(depth, SoloRun(depth, limit, events[..n]), events[n]);
    }
  }

  /** With one observer, the lines sent are the distinct prefixes in the order they
      were first seen before the close, cut to a positive limit, exactly when no new
      prefix met a full buffer before the close and below the limit. */
  lemma SoloOutputIsFirstSeen(depth: nat, limit: int, events: seq<Event>)
    ensures var st := SoloRun(depth, limit, events);
            st.s.out.sent == Cut(FirstSeen(depth, BeforeClose(events)), limit) <==> !st.lost
  {
    hide SoloRun, FirstSeen, EmitterOk, Once;
    ClosedRun(depth, limit, events);
    OpenRun(depth, limit, BeforeClose(events));
  }

  lemma ReadStep(depth: nat, st: Solo, first: seq<string>, limit: int)
    requires SoloOk(st, first, limit)
    ensures SoloOk(SoloStep(depth, st, Read), first, limit)
  {
    DrainKeepsOk(st.s.out);
  }

  // A prefix can be lost: more new prefixes than the buffer holds, and no reader.

  /** A topic of `n` characters; MQTT forbids an empty one (section 4.7.3). */
  function Topic(n: nat): (t: string)
    requires n > 0
    ensures |t| == n && '/' !in t
  {
    if n == 1 then "x" else Topic(n - 1) + "x"
  }

  function Flood(n: nat): (events: seq<Event>)
    ensures |events| == n && Shut !in events
    ensures forall e :: e in events ==> e.Seen? && e.topic != ""
  {
    if n == 0 then [] else Flood(n - 1) + [Seen(Topic(n))]
  }

  lemma OneLevel(topic: string, depth: nat)
    requires '/' !in topic && depth > 0
    ensures PrefixOf(topic, depth) == topic
  {
    SplitFirst(topic, "", '/');
  }

  /** `n` prefixes of at most `n` characters have been sent and none read. */
  ghost predicate Filled(st: Solo, limit: int, n: nat) {
    var e := st.s.out;
    && e.limit == limit && |e.buffer| == n == e.count && !e.closed && !e.outClosed
    && st.s.claimed == [] && !st.lost && forall p :: p in st.s.seen ==> |p| <= n
  }

  lemma FillStep(depth: nat, st: Solo, limit: int, topic: string)
    requires (limit <= 0 || limit > LINE_BUFFER) && 0 < |topic| <= LINE_BUFFER
    requires Filled(st, limit, |topic| - 1) && PrefixOf(topic, depth) == topic
    ensures Filled(SoloStep(depth, st, Seen(topic)), limit, |topic|)
  {
    hide PrefixOf;
    var s := Claim(st.s, topic);
    assert s.claimed == [topic] && !Refuses(s.out);
    assert [topic][..0] + [topic][1..] == [];
  }

  lemma {:induction false} FloodFills(depth: nat, limit: int, n: nat)
    requires depth > 0 && (limit <= 0 || limit > LINE_BUFFER) && n <= LINE_BUFFER
    ensures Filled(SoloRun(depth, limit, Flood(n)), limit, n)
  {
    hide PrefixOf, SoloStep;
    if n > 0 {
      FloodFills(depth, limit, n - 1);
      OneLevel(Topic(n), depth);
      assert Flood(n)[..n - 1] == Flood(n - 1);
      FillStep(depth, SoloRun(depth, limit, Flood(n - 1)), limit, Topic(n));
    }
  }

  /** Without a reader the buffer fills, and the next new prefix is lost for good. */
  lemma PrefixIsLost(depth: nat, limit: int)
    requires depth > 0 && (limit <= 0 || limit > LINE_BUFFER)
    ensures SoloRun(depth, limit, Flood(LINE_BUFFER + 1)).lost
    ensures SoloRun(depth, limit, Flood(LINE_BUFFER + 1)).s.out.sent !=
            Cut(FirstSeen(depth, Flood(LINE_BUFFER + 1)), limit)
  {
    hide SoloRun, Flood, FirstSeen;
    var n := LINE_BUFFER;
    FloodFills(depth, limit, n);
    OneLevel(Topic(n + 1), depth);
    OneMoreIsLost(depth, limit, n);
    SoloOutputIsFirstSeen(depth, limit, Flood(n + 1));
  }

  lemma OneMoreIsLost(depth: nat, limit: int, n: nat)
    requires var st := SoloRun(depth, limit, Flood(n));
             Full(st.s.out) && st.s.claimed == [] && PrefixOf(Topic(n + 1), depth) !in st.s.seen
    ensures SoloRun(depth, limit, Flood(n + 1)).lost
  {
    hide PrefixOf;
    assert Flood(n + 1)[..n] == Flood(n);
  }

  // --------------------------------------------------------------------- objects

  /** A buffered channel of lines. Using it after its close is an error. */
  class Lines {
    var buffer: seq<string>
    var closed: bool

    constructor ()
      ensures buffer == [] && !closed
    {
      buffer, closed := [], false;
    }

    /** A send that is tried only: false when the buffer is full. */
    method TrySend(line: string) returns (ok: bool)
      requires !closed
      modifies this
      ensures !closed && ok == (|old(buffer)| < 1024)
      ensures buffer == if ok then old(buffer) + [line] else old(buffer)
    {
      ok := |buffer| < LINE_BUFFER;
      if ok { buffer := buffer + [line]; }
    }

    method CloseIt()
      requires !closed
      modifies this
      ensures closed && buffer == old(buffer)
    {
      closed := true;
    }
  }

  class EmitterObject {
    const limit: int
    const out: Lines
    const full: Lines
    var count: nat
    var closed: bool
    ghost var sent: seq<string>
    ghost var read: seq<string>

    ghost function View(): Emitter
      reads this, out, full
    {
      Emitter(limit, out.buffer, out.closed, full.closed, count, closed, sent, read, false)
    }

    ghost predicate Valid()
      reads this, out, full
    {
      out != full && EmitterOk(View())
    }

    constructor (limit: int)
      ensures Valid() && View() == NewEmitter(limit) && fresh(out) && fresh(full)
    {
      this.limit := limit;
      out := new Lines();
      full := new Lines();
      count, closed, sent, read := 0, false, [], [];
    }

    method EmitLine(line: string)
      requires Valid()
      modifies this, out, full
      ensures Valid() && View() == Emit(old(View()), line)
    {
      EmitKeepsOk(View(), line);
      if closed || (limit > 0 && count >= limit) { return; }
      var ok := out.TrySend(line);
      if !ok { return; }
      count := count + 1;
      sent := sent + [line];
      if limit > 0 && count >= limit {
        full.CloseIt();
      }
    }

    method CloseEmitter()
      requires Valid()
      modifies this, out
      ensures Valid() && View() == Close(old(View()))
    {
      if closed { return; }
      closed := true;
      out.CloseIt();
    }
  }

  class DiscoveryObject {
    const depth: nat
    const out: EmitterObject
    var seen: set<string>
    ghost var discarded: seq<string>

    ghost function View(): State
      reads this, out, out.out, out.full
    {
      State(out.View(), seen, [], discarded)
    }

    constructor (depth: nat, limit: int)
      ensures out.Valid() && View() == Started(limit) && this.depth == depth
      ensures fresh(out) && fresh(out.out) && fresh(out.full)
    {
      this.depth := depth;
      out := new EmitterObject(limit);
      seen, discarded := {}, [];
    }

    /** known: looks a prefix up and remembers it. */
    method Known(prefix: string) returns (known: bool)
      modifies this
      ensures known == (prefix in old(seen)) && seen == old(seen) + {prefix} && discarded == old(discarded)
    {
      if prefix in seen { return true; }
      seen := seen + {prefix};
      return false;
    }

    /** observe, when no other observer runs. */
    method ObserveTopic(topic: string)
      requires out.Valid()
      modifies this, out, out.out, out.full
      ensures out.Valid()
      ensures forall lost :: View() == SoloStep(depth, Solo(old(View()), lost), Seen(topic)).s
    {
      var prefix := PrefixOf(topic, depth);
      var known := Known(prefix);
      if known { return; }
      if Refuses(out.View()) { discarded := discarded + [prefix]; }
      out.EmitLine(prefix);
    }
  }
}
