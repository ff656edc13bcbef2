/** The router as the program has it: an object with a list of feeds, each a
    bounded queue, and counters. Its methods are proved to be runs of the steps in
    module Router. */
module RouterObject {
  import opened Text
  import opened Library
  import opened Payloads
  import opened Rules
  import opened SeriesStore
  import opened Sources
  import opened Router

  ghost predicate QueuesMatch(queues: seq<Queue>, feeds: seq<Feed>)
    reads queues
  {
    && |queues| == |feeds|
    && forall i :: 0 <= i < |queues| ==>
         queues[i].messages == feeds[i].queue && !feeds[i].busy && feeds[i].pending == [] && feeds[i].problems == []
  }

  /** A feed: its source and the buffer of its channel. */
  class Queue {
    const source: CompiledSource
    var messages: seq<Message>

    constructor (source: CompiledSource)
      ensures this.source == source && messages == []
    {
      this.source := source;
      messages := [];
    }

    /** A send that finds room, seen from all the queues. */
    method Send(msg: Message, ghost queues: seq<Queue>, ghost feeds: seq<Feed>, ghost i: nat)
      requires QueuesMatch(queues, feeds) && Distinct(queues) && i < |queues| && queues[i] == this
      modifies this
      ensures messages == old(messages) + [msg]
      ensures QueuesMatch(queues, feeds[i := feeds[i].(queue := messages, accepted := feeds[i].accepted + [msg])])
    {
      messages := messages + [msg];
    }

    /** A receive from a queue that holds something. */
    method Receive(now: real, ghost queues: seq<Queue>, ghost feeds: seq<Feed>, ghost i: nat) returns (msg: Message)
      requires messages != []
      requires QueuesMatch(queues, feeds) && Distinct(queues) && i < |queues| && queues[i] == this
      modifies this
      ensures msg == old(messages)[0] && messages == old(messages)[1..]
      ensures var f := feeds[i];
              QueuesMatch(queues, feeds[i := f.(queue := messages, taken := f.taken + [Delivery(now, msg)])])
    {
      msg := messages[0];
      messages := messages[1..];
    }
  }

  // ------------------------------------------------------------------ run algebra

  lemma {:induction false} RunOfConcat(lib: Lib, sources: seq<CompiledSource>, s: State, a: seq<Action>, b: seq<Action>)
    requires AllReady(sources) && |s.feeds| == |sources|
    ensures Run(lib, sources, s, a + b) == Run(lib, sources, Run(lib, sources, s, a), b)
  {
    hide Step, Ready;
    if b == [] {
      assert a + b == a;
    } else {
      RunOfConcat(lib, sources, s, a, b[..|b| - 1]);
      assert (a + b)[..|a + b| - 1] == a + b[..|b| - 1];
    }
  }

  lemma RunOfOne(lib: Lib, sources: seq<CompiledSource>, s: State, a: Action)
    requires AllReady(sources) && |s.feeds| == |sources|
    ensures Run(lib, sources, s, [a]) == Step(lib, sources, s, a)
  {
    hide Step, Ready;
    assert [a][..0] == [];
    assert Run(lib, sources, s, []) == s;
  }

  /** One turn of Dispatch's loop: the select and what it counts. */
  function Turn(i: nat, msg: Message): seq<Action> {
    [Offer(i, msg), CountReceived(i), CountDropped(i)]
  }

  /** Dispatch's loop over the first `n` feeds. */
  function Offers(msg: Message, n: nat): seq<Action> {
    if n == 0 then [] else Offers(msg, n - 1) + Turn(n - 1, msg)
  }

  /** What a turn comes to when nothing else is uncounted. */
  function AfterTurn(src: CompiledSource, s: State, i: nat, msg: Message): State
    requires i < |s.feeds|
  {
    var f := s.feeds[i];
    if !s.attached || !Owns(src.prefix, msg.Topic) then s
    else if |f.queue| < SOURCE_BUFFER then
      s.(feeds := s.feeds[i := f.(queue := f.queue + [msg], accepted := f.accepted + [msg])],
         received := s.received + multiset{src.name})
    else
      s.(feeds := s.feeds[i := f.(refused := f.refused + 1)], dropped := s.dropped + 1)
  }

  lemma RunOfThree(lib: Lib, sources: seq<CompiledSource>, s: State, a: Action, b: Action, c: Action)
    requires AllReady(sources) && |s.feeds| == |sources|
    ensures Run(lib, sources, s, [a, b, c]) ==
            Step(lib, sources, Step(lib, sources, Step(lib, sources, s, a), b), c)
  {
    hide Ready, Step, Run;
    RunOfConcat(lib, sources, s, [a, b], [c]);
    RunOfConcat(lib, sources, s, [a], [b]);
    RunOfOne(lib, sources, s, a);
    RunOfOne(lib, sources, Step(lib, sources, s, a), b);
    RunOfOne(lib, sources, Step(lib, sources, Step(lib, sources, s, a), b), c);
    assert [a] + [b] == [a, b] && [a, b] + [c] == [a, b, c];
  }

  lemma TurnCounts(src: CompiledSource, s: State, i: nat, msg: Message)
    requires i < |s.feeds| && Counted(s)
    ensures CountDroppedOf(CountReceivedOf(src, OfferTo(src, s, i, msg), i), i) == AfterTurn(src, s, i, msg)
    ensures Counted(AfterTurn(src, s, i, msg))
  {
    hide Owns;
    var f := s.feeds[i];
    assert f.uncounted == 0 && f.undropped == 0;
    if s.attached && Owns(src.prefix, msg.Topic) {
      var t := OfferTo(src, s, i, msg);
      if |f.queue| < SOURCE_BUFFER {
        var g := f.(queue := f.queue + [msg], accepted := f.accepted + [msg]);
        assert t.feeds[i].(uncounted := 0) == g && t.feeds[i := g] == s.feeds[i := g];
      } else {
        var g := f.(refused := f.refused + 1);
        assert t.feeds[i].(undropped := 0) == g && t.feeds[i := g] == s.feeds[i := g];
      }
    }
  }

  lemma RunOfTurn(lib: Lib, sources: seq<CompiledSource>, s: State, i: nat, msg: Message)
    requires AllReady(sources) && |s.feeds| == |sources| && i < |sources| && Counted(s)
    ensures Run(lib, sources, s, Turn(i, msg)) == AfterTurn(sources[i], s, i, msg)
    ensures Counted(AfterTurn(sources[i], s, i, msg))
  {
    hide Ready, Run, OfferTo, CountReceivedOf, CountDroppedOf, AfterTurn, Counted;
    RunOfThree(lib, sources, s, Offer(i, msg), CountReceived(i), CountDropped(i));
    TurnCounts(sources[i], s, i, msg);
  }

  function Sets(i: nat, n: nat): seq<Action> {
    if n == 0 then [] else Sets(i, n - 1) + [SetNext(i)]
  }

  function Counts(i: nat, n: nat): seq<Action> {
    if n == 0 then [] else Counts(i, n - 1) + [CountError(i)]
  }

  /** One message with effect `e`, handled by consumer `i` without interruption. */
  function Handling(i: nat, now: real, e: Effect): seq<Action> {
    [Take(i, now)] + Sets(i, |e.writes|) + (Counts(i, |e.problems|) + [Finish(i)])
  }

  function Tagged(i: nat, ws: seq<Write>): seq<(nat, Write)> {
    if ws == [] then [] else Tagged(i, ws[..|ws| - 1]) + [(i, ws[|ws| - 1])]
  }

  /** The Sets of one message, made in a row. */
  lemma {:induction false} RunOfSets(lib: Lib, sources: seq<CompiledSource>, s: State, i: nat, n: nat)
    requires AllReady(sources) && |s.feeds| == |sources| && i < |sources| && n <= |s.feeds[i].pending|
    ensures var f := s.feeds[i];
            Run(lib, sources, s, Sets(i, n)) ==
            s.(feeds := s.feeds[i := f.(pending := f.pending[n..])],
               store := PutFrom(lib.round, s.store, f.pending[..n]), log := s.log + Tagged(i, f.pending[..n]))
  {
    hide Put, Ready;
    var f := s.feeds[i];
    if n == 0 {
      assert s.feeds[i := f] == s.feeds && f.pending[0..] == f.pending && s.log + [] == s.log;
      assert f.(pending := f.pending[0..]) == f;
    } else {
      RunOfSets(lib, sources, s, i, n - 1);
      assert f.pending[..n][..n - 1] == f.pending[..n - 1];
      assert f.pending[n - 1..][1..] == f.pending[n..];
      assert s.log + Tagged(i, f.pending[..n - 1]) + [(i, f.pending[n - 1])] == s.log + Tagged(i, f.pending[..n]);
      OneMoreSet(lib, sources, s, i, n);
    }
  }

  lemma OneMoreSet(lib: Lib, sources: seq<CompiledSource>, s: State, i: nat, n: nat)
    requires AllReady(sources) && |s.feeds| == |sources| && i < |sources| && 0 < n <= |s.feeds[i].pending|
    requires var f := s.feeds[i];
             Run(lib, sources, s, Sets(i, n - 1)) ==
             s.(feeds := s.feeds[i := f.(pending := f.pending[n - 1..])],
                store := PutFrom(lib.round, s.store, f.pending[..n - 1]), log := s.log + Tagged(i, f.pending[..n - 1]))
    ensures var f := s.feeds[i];
            Run(lib, sources, s, Sets(i, n)) ==
            s.(feeds := s.feeds[i := f.(pending := f.pending[n - 1..][1..])],
               store := Put(lib.round, PutFrom(lib.round, s.store, f.pending[..n - 1]), f.pending[n - 1]),
               log := s.log + Tagged(i, f.pending[..n - 1]) + [(i, f.pending[n - 1])])
  {
    hide Put, Ready, Tagged, PutFrom;
    var f := s.feeds[i];
    var actions := Sets(i, n);
    assert actions[..|actions| - 1] == Sets(i, n - 1) && actions[|actions| - 1] == SetNext(i);
    var t := Run(lib, sources, s, Sets(i, n - 1));
    assert t.feeds[i].pending == f.pending[n - 1..] && f.pending[n - 1..][0] == f.pending[n - 1];
    assert s.feeds[i := f.(pending := f.pending[n - 1..])][i := f.(pending := f.pending[n - 1..][1..])]
        == s.feeds[i := f.(pending := f.pending[n - 1..][1..])];
  }

  /** Taking a message and making all its Sets. */
  lemma RunOfTakeAndSets(lib: Lib, sources: seq<CompiledSource>, s: State, i: nat, now: real)
    requires AllReady(sources) && |s.feeds| == |sources| && i < |sources|
    requires !s.feeds[i].busy && !s.feeds[i].exited && s.feeds[i].queue != []
    ensures var f := s.feeds[i];
            var d := Delivery(now, f.queue[0]);
            var e := SourceEffect(lib, sources[i], now, d.msg);
            Run(lib, sources, s, [Take(i, now)] + Sets(i, |e.writes|)) ==
            s.(feeds := s.feeds[i := f.(queue := f.queue[1..], taken := f.taken + [d], busy := true, pending := [],
                                        problems := e.problems)],
               store := PutFrom(lib.round, s.store, e.writes), log := s.log + Tagged(i, e.writes))
  {
    hide Put, Ready, SourceEffect, Tagged, PutFrom, Run, Sets;
    var f := s.feeds[i];
    var d := Delivery(now, f.queue[0]);
    var e := SourceEffect(lib, sources[i], now, d.msg);
    var ws := e.writes;
    var g := f.(queue := f.queue[1..], taken := f.taken + [d], busy := true, pending := ws, problems := e.problems);
    RunOfConcat(lib, sources, s, [Take(i, now)], Sets(i, |ws|));
    RunOfOne(lib, sources, s, Take(i, now));
    var t := s.(feeds := s.feeds[i := g]);
    assert Step(lib, sources, s, Take(i, now)) == t;
    RunOfSets(lib, sources, t, i, |ws|);
    assert ws[..|ws|] == ws && ws[|ws|..] == [];
    assert t.feeds[i := g.(pending := [])] == s.feeds[i := g.(pending := [])];
  }

  /** The problems of one message, counted in a row. */
  lemma {:induction false} RunOfCounts(lib: Lib, sources: seq<CompiledSource>, s: State, i: nat, n: nat)
    requires AllReady(sources) && |s.feeds| == |sources| && i < |sources| && n <= |s.feeds[i].problems|
    requires s.feeds[i].pending == []
    ensures var f := s.feeds[i];
            Run(lib, sources, s, Counts(i, n)) ==
            s.(feeds := s.feeds[i := f.(problems := f.problems[n..])],
               errors := s.errors + Reasons(sources[i].name, f.problems[..n]))
  {
    hide Ready, CountErrorOf, Run, Step;
    var f := s.feeds[i];
    if n == 0 {
      RunOfNothing(lib, sources, s);
      assert s.feeds[i := f] == s.feeds && f.(problems := f.problems[0..]) == f;
    } else {
      hide Reasons;
      RunOfCounts(lib, sources, s, i, n - 1);
      var t := Run(lib, sources, s, Counts(i, n - 1));
      RunOfConcat(lib, sources, s, Counts(i, n - 1), [CountError(i)]);
      RunOfOne(lib, sources, t, CountError(i));
      StepOfCount(lib, sources, t, i);
      OneMoreCount(sources[i], s, t, i, n);
    }
  }

  lemma StepOfCount(lib: Lib, sources: seq<CompiledSource>, s: State, i: nat)
    requires AllReady(sources) && |s.feeds| == |sources| && i < |sources|
    ensures Step(lib, sources, s, CountError(i)) == CountErrorOf(sources[i], s, i)
  {
    hide Ready, CountErrorOf;
  }

  lemma OneMoreCount(src: CompiledSource, s: State, t: State, i: nat, n: nat)
    requires i < |s.feeds| && 0 < n <= |s.feeds[i].problems| && s.feeds[i].pending == []
    requires var f := s.feeds[i];
             t == s.(feeds := s.feeds[i := f.(problems := f.problems[n - 1..])],
                     errors := s.errors + Reasons(src.name, f.problems[..n - 1]))
    ensures var f := s.feeds[i];
            CountErrorOf(src, t, i) ==
            s.(feeds := s.feeds[i := f.(problems := f.problems[n..])],
               errors := s.errors + Reasons(src.name, f.problems[..n]))
  {
    hide Reasons;
    var f := s.feeds[i];
    assert f.problems[n - 1..][1..] == f.problems[n..] && f.problems[n - 1..][0] == f.problems[n - 1];
    ReasonsOfLast(src.name, f.problems[..n]);
    assert f.problems[..n][..n - 1] == f.problems[..n - 1];
    assert t.feeds[i := f.(problems := f.problems[n..])] == s.feeds[i := f.(problems := f.problems[n..])];
  }

  lemma {:induction false} ReasonsOfLast(name: string, problems: seq<RuleError>)
    requires problems != []
    ensures var n := |problems| - 1;
            Reasons(name, problems) == Reasons(name, problems[..n]) + multiset{(name, ReasonOf(problems[n]))}
  {
    hide ReasonOf, Reasons;
    var n := |problems| - 1;
    ReasonsOfFirst(name, problems);
    if n > 0 {
      ReasonsOfLast(name, problems[1..]);
      ReasonsOfFirst(name, problems[..n]);
      assert problems[1..][..n - 1] == problems[..n][1..];
      var middle := Reasons(name, problems[..n][1..]);
      RegroupBags(multiset{(name, ReasonOf(problems[0]))}, middle, multiset{(name, ReasonOf(problems[n]))});
    } else {
      ReasonsOfFirst(name, []);
      assert problems[1..] == [] && problems[..n] == [];
    }
  }

  lemma ReasonsOfFirst(name: string, problems: seq<RuleError>)
    ensures if problems == [] then Reasons(name, problems) == multiset{} else
            Reasons(name, problems) == multiset{(name, ReasonOf(problems[0]))} + Reasons(name, problems[1..])
  {}

  lemma RegroupBags<T>(a: multiset<T>, b: multiset<T>, c: multiset<T>)
    ensures a + (b + c) == (a + b) + c
  {}

  /** Consumer `i`, when idle, takes the first message and handles it to the end. */
  lemma RunOfHandling(lib: Lib, sources: seq<CompiledSource>, s: State, i: nat, now: real)
    requires AllReady(sources) && |s.feeds| == |sources| && i < |sources|
    requires !s.feeds[i].busy && !s.feeds[i].exited && s.feeds[i].queue != []
    requires s.feeds[i].pending == [] && s.feeds[i].problems == []
    ensures var f := s.feeds[i];
            var d := Delivery(now, f.queue[0]);
            var e := SourceEffect(lib, sources[i], now, d.msg);
            Run(lib, sources, s, Handling(i, now, e)) ==
            s.(feeds := s.feeds[i := f.(queue := f.queue[1..], taken := f.taken + [d])],
               store := PutFrom(lib.round, s.store, e.writes), log := s.log + Tagged(i, e.writes),
               errors := s.errors + Reasons(sources[i].name, e.problems))
  {
    hide Put, Ready, SourceEffect, Tagged, PutFrom, Reasons, Run, Sets, Counts;
    var f := s.feeds[i];
    var d := Delivery(now, f.queue[0]);
    var e := SourceEffect(lib, sources[i], now, d.msg);
    RunOfTakeAndSets(lib, sources, s, i, now);
    var begin := [Take(i, now)] + Sets(i, |e.writes|);
    var u := Run(lib, sources, s, begin);
    RunOfConcat(lib, sources, s, begin, Counts(i, |e.problems|) + [Finish(i)]);
    CountsAndFinish(lib, sources, u, i);
    var g := f.(queue := f.queue[1..], taken := f.taken + [d]);
    assert u.feeds[i].(problems := [], busy := false) == g;
    assert u.feeds[i := g] == s.feeds[i := g];
  }

  lemma CountsAndFinish(lib: Lib, sources: seq<CompiledSource>, s: State, i: nat)
    requires AllReady(sources) && |s.feeds| == |sources| && i < |sources| && s.feeds[i].pending == []
    ensures var f := s.feeds[i];
            Run(lib, sources, s, Counts(i, |f.problems|) + [Finish(i)]) ==
            s.(feeds := s.feeds[i := f.(problems := [], busy := false)],
               errors := s.errors + Reasons(sources[i].name, f.problems))
  {
    hide Ready, Reasons, Run, Counts;
    var f := s.feeds[i];
    RunOfCounts(lib, sources, s, i, |f.problems|);
    assert f.problems[|f.problems|..] == [] && f.problems[..|f.problems|] == f.problems;
    var t := Run(lib, sources, s, Counts(i, |f.problems|));
    RunOfConcat(lib, sources, s, Counts(i, |f.problems|), [Finish(i)]);
    RunOfOne(lib, sources, t, Finish(i));
    assert t.feeds[i := f.(problems := [], busy := false)] == s.feeds[i := f.(problems := [], busy := false)];
  }

  // -------------------------------------------------------- messages in turn

  /** The deliveries offered to feed `i` and handled, one after another. */
  function InTurn(lib: Lib, src: CompiledSource, i: nat, taken: seq<Delivery>): seq<Action>
    requires Ready(src)
  {
    if taken == [] then [] else
    var n := |taken| - 1;
    var d := taken[n];
    InTurn(lib, src, i, taken[..n]) +
    (Turn(i, d.msg) + Handling(i, d.now, SourceEffect(lib, src, d.now, d.msg)))
  }

  /** Feed `i` is attached, empty and idle. */
  ghost predicate Resting(s: State, i: nat) {
    i < |s.feeds| && s.attached && Counted(s) &&
    var f := s.feeds[i];
    f.queue == [] && f.pending == [] && f.problems == [] && !f.busy && !f.exited
  }

  lemma {:induction false} LoggedTagged(log: seq<(nat, Write)>, i: nat, ws: seq<Write>)
    ensures LoggedWrites(log + Tagged(i, ws)) == LoggedWrites(log) + ws
  {
    hide LoggedWrites, ByFeed;
    if ws == [] {
      assert log + Tagged(i, ws) == log && LoggedWrites(log) + ws == LoggedWrites(log);
    } else {
      var n := |ws| - 1;
      LoggedTagged(log, i, ws[..n]);
      assert log + Tagged(i, ws) == (log + Tagged(i, ws[..n])) + [(i, ws[n])];
      hide Tagged;
      LogStep(log + Tagged(i, ws[..n]), i, ws[n]);
      assert LoggedWrites(log) + ws == (LoggedWrites(log) + ws[..n]) + [ws[n]];
    }
  }

  lemma RunOfDelivery(lib: Lib, sources: seq<CompiledSource>, s: State, i: nat, d: Delivery)
    requires AllReady(sources) && |s.feeds| == |sources| && i < |sources|
    requires Resting(s, i) && Owns(sources[i].prefix, d.msg.Topic)
    ensures var e := SourceEffect(lib, sources[i], d.now, d.msg);
            var s' := Run(lib, sources, s, Turn(i, d.msg) + Handling(i, d.now, e));
            Resting(s', i) && s'.log == s.log + Tagged(i, e.writes)
  {
    hide Put, Ready, SourceEffect, Tagged, PutFrom, Reasons, Run, Handling, Owns, Turn;
    var e := SourceEffect(lib, sources[i], d.now, d.msg);
    RunOfConcat(lib, sources, s, Turn(i, d.msg), Handling(i, d.now, e));
    RunOfTurn(lib, sources, s, i, d.msg);
    var t := AfterTurn(sources[i], s, i, d.msg);
    assert t.feeds[i].queue == [] + [d.msg];
    RunOfHandling(lib, sources, t, i, d.now);
  }

  /** Any owned messages can be delivered and handled in turn, making exactly the
      Sets they ask for. */
  lemma {:induction false} RunInTurn(lib: Lib, sources: seq<CompiledSource>, i: nat, taken: seq<Delivery>)
    requires AllReady(sources) && i < |sources|
    requires forall k :: 0 <= k < |taken| ==> Owns(sources[i].prefix, taken[k].msg.Topic)
    ensures var s := Run(lib, sources, Started(sources), InTurn(lib, sources[i], i, taken));
            && Resting(s, i)
            && LoggedWrites(s.log) == DeliveredWrites(lib, sources[i], taken)
  {
    hide Ready, SourceEffect, Run, Step, Tagged, Handling, LoggedWrites, Owns, Turn;
    if taken == [] {
      NothingRun(lib, sources);
    } else {
      var n := |taken| - 1;
      var before := InTurn(lib, sources[i], i, taken[..n]);
      var s := Run(lib, sources, Started(sources), before);
      RunInTurn(lib, sources, i, taken[..n]);
      RunOfDelivery(lib, sources, s, i, taken[n]);
      var e := SourceEffect(lib, sources[i], taken[n].now, taken[n].msg);
      RunOfConcat(lib, sources, Started(sources), before,
                  Turn(i, taken[n].msg) + Handling(i, taken[n].now, e));
      LoggedTagged(s.log, i, e.writes);
    }
  }

  lemma RunOfNothing(lib: Lib, sources: seq<CompiledSource>, s: State)
    requires AllReady(sources) && |s.feeds| == |sources|
    ensures Run(lib, sources, s, []) == s
  {}

  lemma NothingRun(lib: Lib, sources: seq<CompiledSource>)
    requires AllReady(sources)
    ensures Run(lib, sources, Started(sources), []) == Started(sources)
    ensures LoggedWrites(Started(sources).log) == []
  {}

  // ---------------------------------------------------------------------- object

  class LiveRouter {
    const lib: Lib
    const samples: Store
    var feeds: seq<Queue>
    var running: bool                  // the stop function is set
    var cancelled: bool                // the consumers' context is done
    var received: multiset<string>
    var dropped: nat
    var errors: multiset<(string, Reason)>
    ghost var sources: seq<CompiledSource>
    ghost var started: seq<Queue>      // the consumers' feeds, also after Stop
    ghost var view: State

    /** The object in a moment when no message is being handled. */
    ghost predicate Valid()
      reads this, started, samples, samples.series.Values
    {
      && AllReady(sources) && |started| == |sources| == |view.feeds| && Distinct(started)
      && feeds == (if view.attached then started else [])
      && (forall i :: 0 <= i < |started| ==> started[i].source == sources[i])
      && QueuesMatch(started, view.feeds) && Counted(view)
      && samples.Valid() && samples.round == lib.round && samples.Model() == view.store
      && received == view.received && dropped == view.dropped && errors == view.errors && cancelled == view.cancelled
    }

    constructor NewRouter(lib: Lib, samples: Store)
      requires samples.Valid() && samples.round == lib.round && samples.Model() == map[]
      ensures Valid() && view == Started([]) && sources == [] && this.samples == samples && this.lib == lib
    {
      this.lib, this.samples := lib, samples;
      feeds, running, cancelled, received, dropped, errors := [], false, false, multiset{}, 0, multiset{};
      sources, started, view := [], [], Started([]);
    }

    method Start(sources: seq<CompiledSource>)
      requires Valid() && view == Started([]) && AllReady(sources)
      modifies this
      ensures Valid() && running && fresh(started)
      ensures view == Started(sources) && this.sources == sources
    {
      hide Ready, WellKeyed;
      feeds := MakeQueues(sources);
      running := true;
      this.sources, started, view := sources, feeds, Started(sources);
    }

    /** The loop of Start: an empty channel for each source. */
    method MakeQueues(sources: seq<CompiledSource>) returns (made: seq<Queue>)
      ensures fresh(made) && Distinct(made) && |made| == |sources| && QueuesMatch(made, Started(sources).feeds)
      ensures forall i :: 0 <= i < |made| ==> made[i].source == sources[i]
    {
      made := [];
      for i := 0 to |sources|
        invariant |made| == i && fresh(made) && Distinct(made)
        invariant forall k :: 0 <= k < i ==> made[k].source == sources[k] && made[k].messages == []
      {
        var q := new Queue(sources[i]);
        made := made + [q];
      }
    }

    /** One turn of the loop in Dispatch. */
    method OfferTo(i: nat, msg: Message)
      requires Valid() && view.attached && i < |feeds|
      modifies this`received, this`dropped, this`view, feeds[i]
      ensures Valid() && view.attached
      ensures view == Run(lib, sources, old(view), Turn(i, msg))
    {
      hide AllReady, QueuesMatch, Distinct, Owns, Run, Counted, Store.Valid, Store.Model;
      RunOfTurn(lib, sources, view, i, msg);
      QueueAt(started, view.feeds, i);
      QueueRefuses(started, view.feeds, i);
      var f := feeds[i];
      ghost var before := view;
      view := AfterTurn(sources[i], view, i, msg);
      if !Owns(f.source.prefix, msg.Topic) { return; }
      if |f.messages| < SOURCE_BUFFER {
        f.Send(msg, started, before.feeds, i);
        received := received + multiset{f.source.name};
      } else {
        dropped := dropped + 1;
      }
    }

    /** Dispatch: offered to every attached feed, in order. */
    method Dispatch(msg: Message)
      requires Valid()
      modifies this`received, this`dropped, this`view, feeds
      ensures Valid()
      ensures view == Run(lib, sources, old(view), Offers(msg, |feeds|))
    {
      hide AllReady, QueuesMatch, Distinct, Owns, Run, Turn, Counted, Store.Valid, Store.Model;
      RunOfNothing(lib, sources, view);
      for i := 0 to |feeds|
        invariant Valid() && (feeds != [] ==> view.attached)
        invariant view == Run(lib, sources, old(view), Offers(msg, i))
      {
        RunOfConcat(lib, sources, old(view), Offers(msg, i), Turn(i, msg));
        OfferTo(i, msg);
      }
    }

    method Handle(f: Queue, now: real, msg: Message)
      requires Ready(f.source) && samples.Valid() && samples.round == lib.round
      modifies this`errors, samples`series, samples.series.Values
      ensures samples.Valid() && fresh(samples.series.Values - old(samples.series.Values))
      ensures samples.Model() == PutFrom(lib.round, old(samples.Model()), SourceEffect(lib, f.source, now, msg).writes)
      ensures errors == old(errors) + Reasons(f.source.name, SourceEffect(lib, f.source, now, msg).problems)
    {
      hide SourceEffect, PutFrom, WellKeyed, Ready;
      var problems, matched := Sources.Apply(lib, f.source, samples, now, msg);
      errors := CountReasons(f.source.name, problems);
    }

    /** The loop of handle over the reported problems. */
    method CountReasons(name: string, problems: seq<RuleError>) returns (counted: multiset<(string, Reason)>)
      ensures counted == errors + Reasons(name, problems)
    {
      hide Reasons, ReasonOf;
      counted := errors;
      ReasonsOfFirst(name, []);
      for k := 0 to |problems|
        invariant counted == errors + Reasons(name, problems[..k])
      {
        ReasonsOfLast(name, problems[..k + 1]);
        assert problems[..k + 1][..k] == problems[..k];
        RegroupBags(errors, Reasons(name, problems[..k]), multiset{(name, ReasonOf(problems[k]))});
        counted := counted + multiset{(name, ReasonOf(problems[k]))};
      }
      assert problems[..|problems|] == problems;
    }

    /** One turn of consume for feed `i`, once its select can go on. `preferDone`
        is the choice of the select when the context is done and a message waits. */
    method Consume(f: Queue, ghost i: nat, now: real, preferDone: bool) returns (exit: bool)
      requires Valid() && i < |started| && started[i] == f && !view.feeds[i].exited
      requires cancelled || f.messages != []
      modifies this`errors, this`view, f, samples`series, samples.series.Values
      ensures Valid()
      ensures exit <==> cancelled && (preferDone || old(f.messages) == [])
      ensures view == Run(lib, sources, old(view),
                          if exit then [Exit(i)]
                          else Handling(i, now, SourceEffect(lib, f.source, now, old(f.messages)[0])))
    {
      hide Ready, WellKeyed, SourceEffect, Run, QueuesMatch, Distinct;
      exit := cancelled && (preferDone || f.messages == []);
      if exit {
        RunOfOne(lib, sources, view, Exit(i));
        ExitKeepsQueues(started, view, i);
        view := ExitOf(view, i);
      } else {
        HandleNext(f, i, now);
      }
    }

    /** The receiving case of consume's select. */
    method HandleNext(f: Queue, ghost i: nat, now: real)
      requires Valid() && i < |started| && started[i] == f && !view.feeds[i].exited && f.messages != []
      modifies this`errors, this`view, f, samples`series, samples.series.Values
      ensures Valid()
      ensures view == Run(lib, sources, old(view),
                          Handling(i, now, SourceEffect(lib, f.source, now, old(f.messages)[0])))
    {
      hide Ready, WellKeyed, SourceEffect, PutFrom, Reasons, Run, Distinct, Handling, QueuesMatch,
          AllReady, Store.Valid, Store.Model;
      QueueAt(started, view.feeds, i);
      ReadyAt(sources, i);
      ghost var next := HandledView(lib, sources, view, i, now);
      ReceiveAndHandle(f, i, now);
      view := next;
    }

    /** The same, without the view. */
    method ReceiveAndHandle(f: Queue, ghost i: nat, now: real)
      requires Ready(f.source) && samples.Valid() && samples.round == lib.round && f.messages != []
      requires QueuesMatch(started, view.feeds) && Distinct(started) && i < |started| && started[i] == f
      modifies this`errors, f, samples`series, samples.series.Values
      ensures samples.Valid()
      ensures var e := SourceEffect(lib, f.source, now, old(f.messages)[0]);
              && samples.Model() == PutFrom(lib.round, old(samples.Model()), e.writes)
              && errors == old(errors) + Reasons(f.source.name, e.problems)
      ensures var g, msg := view.feeds[i], old(f.messages)[0];
              QueuesMatch(started, view.feeds[i := g.(queue := old(f.messages)[1..],
                                                      taken := g.taken + [Delivery(now, msg)])])
    {
      hide Ready, SourceEffect, PutFrom, Reasons, Distinct, QueuesMatch, Store.Valid, Store.Model;
      var msg := f.Receive(now, started, view.feeds, i);
      Handle(f, now, msg);
    }

    /** The critical section of Stop, and the cancellation of the context. That
        Stop then waits for the consumers is in the steps, not here. */
    method Stop()
      requires Valid()
      modifies this
      ensures Valid() && !running && feeds == []
      ensures sources == old(sources) && started == old(started)
      ensures view == Run(lib, sources, old(view), if old(running) then [Detach, Cancel] else [Detach])
    {
      hide AllReady, QueuesMatch, Run, Distinct, Store.Valid, Store.Model;
      var stop := running;
      feeds, running := [], false;
      StopSteps(lib, sources, view);
      view := view.(attached := false);
      if !stop { return; }
      cancelled := true;
      view := view.(cancelled := true);
    }
  }

  /** The state after one message, field by field. */
  lemma HandledView(lib: Lib, sources: seq<CompiledSource>, s: State, i: nat, now: real) returns (next: State)
    requires AllReady(sources) && |s.feeds| == |sources| && i < |sources|
    requires !s.feeds[i].busy && !s.feeds[i].exited && s.feeds[i].queue != []
    requires s.feeds[i].pending == [] && s.feeds[i].problems == []
    ensures var f := s.feeds[i];
            var e := SourceEffect(lib, sources[i], now, f.queue[0]);
            && next == Run(lib, sources, s, Handling(i, now, e))
            && next.feeds == s.feeds[i := f.(queue := f.queue[1..], taken := f.taken + [Delivery(now, f.queue[0])])]
            && next.store == PutFrom(lib.round, s.store, e.writes)
            && next.errors == s.errors + Reasons(sources[i].name, e.problems)
            && next.received == s.received && next.dropped == s.dropped
            && next.attached == s.attached && next.cancelled == s.cancelled
  {
    hide Ready, SourceEffect, PutFrom, Reasons, Run, Tagged, Handling;
    RunOfHandling(lib, sources, s, i, now);
    next := Run(lib, sources, s, Handling(i, now, SourceEffect(lib, sources[i], now, s.feeds[i].queue[0])));
  }

  lemma QueueAt(queues: seq<Queue>, feeds: seq<Feed>, i: nat)
    requires QueuesMatch(queues, feeds) && i < |queues|
    ensures queues[i].messages == feeds[i].queue && !feeds[i].busy && feeds[i].pending == [] && feeds[i].problems == []
  {}

  lemma ReadyAt(sources: seq<CompiledSource>, i: nat)
    requires AllReady(sources) && i < |sources|
    ensures Ready(sources[i])
  {}

  lemma QueueRefuses(queues: seq<Queue>, feeds: seq<Feed>, i: nat)
    requires QueuesMatch(queues, feeds) && i < |queues|
    ensures QueuesMatch(queues, feeds[i := feeds[i].(refused := feeds[i].refused + 1)])
  {}

  lemma ExitKeepsQueues(queues: seq<Queue>, s: State, i: nat)
    requires QueuesMatch(queues, s.feeds) && i < |s.feeds|
    ensures QueuesMatch(queues, ExitOf(s, i).feeds)
  {}

  lemma StopSteps(lib: Lib, sources: seq<CompiledSource>, s: State)
    requires AllReady(sources) && |s.feeds| == |sources| && Counted(s)
    ensures Run(lib, sources, s, [Detach]) == s.(attached := false)
    ensures Run(lib, sources, s, [Detach, Cancel]) == s.(attached := false, cancelled := true)
  {
    hide Ready;
    RunOfOne(lib, sources, s, Detach);
    RunOfOne(lib, sources, s.(attached := false), Cancel);
    RunOfConcat(lib, sources, s, [Detach], [Cancel]);
    assert [Detach] + [Cancel] == [Detach, Cancel];
  }
}
