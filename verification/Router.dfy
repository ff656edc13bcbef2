/** internal/app/router.go: messages wait in one bounded queue per source, and one
    consumer per source applies them to the shared store. The steps below are the
    atomic ones: one channel send, one receive, one Set. Everything else may
    happen in between, so a run is any list of steps. */
module Router {
  import opened Text
  import opened Library
  import opened Config
  import opened Payloads
  import opened Rules
  import opened SeriesStore
  import opened StoreLaws
  import opened Sources

  const SOURCE_BUFFER: nat := 1024

  /** A message taken from the queue, and the clock's reading then. */
  datatype Delivery = Delivery(now: real, msg: Message)

  /** One source's channel and consumer. `accepted` and `taken` are history. */
  datatype Feed = Feed(
    queue: seq<Message>,       // buffered in the channel
    accepted: seq<Message>,    // every message sent to the channel
    refused: nat,              // owned messages that found it full
    taken: seq<Delivery>,      // every message received from it
    busy: bool,                // handling the last of them
    pending: seq<Write>,       // the Set calls that message still has to make
    problems: seq<RuleError>,  // its problems, not yet counted
    exited: bool,              // the consumer has returned
    uncounted: nat,            // sent, and not yet counted as received
    undropped: nat)            // refused, and not yet counted as dropped

  datatype State = State(
    feeds: seq<Feed>,
    store: Contents,
    log: seq<(nat, Write)>,           // history: every Set, with the feed that made it
    received: multiset<string>,       // messages_received_total, by source name
    dropped: nat,                     // messages_dropped_total
    errors: multiset<(string, Reason)>,
    attached: bool,                   // Dispatch still sees the feeds
    cancelled: bool)                  // the consumers' context is done

  datatype Action =
    | Offer(feed: nat, msg: Message)    // one select of Dispatch's loop
    | CountReceived(feed: nat)          // Dispatch counts a message it sent
    | CountDropped(feed: nat)           // Dispatch counts a message it could not send
    | Take(feed: nat, now: real)        // consume receives, handle begins
    | SetNext(feed: nat)                // apply calls Set
    | CountError(feed: nat)             // handle counts the next problem
    | Finish(feed: nat)                 // handle returns
    | Detach                            // the critical section of Stop, which excludes Dispatch
    | Cancel                            // the context is cancelled, by Stop or from outside
    | Exit(feed: nat)                   // consume sees the context done

  function FreshFeed(): Feed {
    Feed([], [], 0, [], false, [], [], false, 0, 0)
  }

  /** Right after Start. */
  function Started(sources: seq<CompiledSource>): State {
    State(seq(|sources|, i => FreshFeed()), map[], [], multiset{}, 0, multiset{}, true, false)
  }

  /** The error counter of each problem's reason. */
  function Reasons(name: string, problems: seq<RuleError>): multiset<(string, Reason)> {
    if problems == [] then multiset{} else
    multiset{(name, ReasonOf(problems[0]))} + Reasons(name, problems[1..])
  }

  function OfferTo(src: CompiledSource, s: State, i: nat, msg: Message): State
    requires i < |s.feeds|
  {
    var f := s.feeds[i];
    if !s.attached || !Owns(src.prefix, msg.Topic) then s
    else if |f.queue| < SOURCE_BUFFER then
      s.(feeds := s.feeds[i := f.(queue := f.queue + [msg], accepted := f.accepted + [msg],
                                  uncounted := f.uncounted + 1)])
    else
      s.(feeds := s.feeds[i := f.(refused := f.refused + 1, undropped := f.undropped + 1)])
  }

  function CountReceivedOf(src: CompiledSource, s: State, i: nat): State
    requires i < |s.feeds|
  {
    var f := s.feeds[i];
    if f.uncounted == 0 then s else
    s.(feeds := s.feeds[i := f.(uncounted := f.uncounted - 1)], received := s.received + multiset{src.name})
  }

  function CountDroppedOf(s: State, i: nat): State
    requires i < |s.feeds|
  {
    var f := s.feeds[i];
    if f.undropped == 0 then s else
    s.(feeds := s.feeds[i := f.(undropped := f.undropped - 1)], dropped := s.dropped + 1)
  }

  /** No Dispatch is between a select and its count. */
  predicate Counted(s: State) {
    forall i :: 0 <= i < |s.feeds| ==> s.feeds[i].uncounted == 0 && s.feeds[i].undropped == 0
  }

  function TakeFrom(lib: Lib, src: CompiledSource, s: State, i: nat, now: real): State
    requires i < |s.feeds| && Ready(src)
  {
    var f := s.feeds[i];
    if f.busy || f.exited || f.queue == [] then s else
    var d := Delivery(now, f.queue[0]);
    var e := SourceEffect(lib, src, now, d.msg);
    s.(feeds := s.feeds[i := f.(queue := f.queue[1..], taken := f.taken + [d], busy := true,
                                pending := e.writes, problems := e.problems)])
  }

  ghost function SetBy(lib: Lib, s: State, i: nat): State
    requires i < |s.feeds|
  {
    var f := s.feeds[i];
    if f.pending == [] then s else
    s.(feeds := s.feeds[i := f.(pending := f.pending[1..])],
       store := Put(lib.round, s.store, f.pending[0]), log := s.log + [(i, f.pending[0])])
  }

  function CountErrorOf(src: CompiledSource, s: State, i: nat): State
    requires i < |s.feeds|
  {
    var f := s.feeds[i];
    if f.pending != [] || f.problems == [] then s else
    s.(feeds := s.feeds[i := f.(problems := f.problems[1..])],
       errors := s.errors + multiset{(src.name, ReasonOf(f.problems[0]))})
  }

  function FinishOf(s: State, i: nat): State
    requires i < |s.feeds|
  {
    var f := s.feeds[i];
    if f.pending != [] || f.problems != [] then s else s.(feeds := s.feeds[i := f.(busy := false)])
  }

  function ExitOf(s: State, i: nat): State
    requires i < |s.feeds|
  {
    var f := s.feeds[i];
    if !s.cancelled || f.busy then s else s.(feeds := s.feeds[i := f.(exited := true)])
  }

  /** One step; a step that is not possible leaves the state as it is. */
  ghost function Step(lib: Lib, sources: seq<CompiledSource>, s: State, a: Action): (s': State)
    requires AllReady(sources) && |s.feeds| == |sources|
    ensures |s'.feeds| == |s.feeds|
  {
    if a.Detach? then if Counted(s) then s.(attached := false) else s
    else if a.Cancel? then s.(cancelled := true)
    else if a.feed >= |s.feeds| then s
    else
      match a
      case Offer(i, msg) => OfferTo(sources[i], s, i, msg)
      case CountReceived(i) => CountReceivedOf(sources[i], s, i)
      case CountDropped(i) => CountDroppedOf(s, i)
      case Take(i, now) => TakeFrom(lib, sources[i], s, i, now)
      case SetNext(i) => SetBy(lib, s, i)
      case CountError(i) => CountErrorOf(sources[i], s, i)
      case Finish(i) => FinishOf(s, i)
      case Exit(i) => ExitOf(s, i)
  }

  ghost function Run(lib: Lib, sources: seq<CompiledSource>, s: State, actions: seq<Action>): (s': State)
    requires AllReady(sources) && |s.feeds| == |sources|
    ensures |s'.feeds| == |s.feeds|
  {
    if actions == [] then s else
    Step(lib, sources, Run(lib, sources, s, actions[..|actions| - 1]), actions[|actions| - 1])
  }

  // ----------------------------------------------------------------- invariants

  function Messages(taken: seq<Delivery>): seq<Message> {
    if taken == [] then [] else Messages(taken[..|taken| - 1]) + [taken[|taken| - 1].msg]
  }

  /** All writes of a source that handles the deliveries one after another. */
  function DeliveredWrites(lib: Lib, src: CompiledSource, taken: seq<Delivery>): seq<Write>
    requires Ready(src)
  {
    if taken == [] then [] else
    var n := |taken| - 1;
    DeliveredWrites(lib, src, taken[..n]) + SourceEffect(lib, src, taken[n].now, taken[n].msg).writes
  }

  ghost function LoggedWrites(log: seq<(nat, Write)>): seq<Write> {
    if log == [] then [] else LoggedWrites(log[..|log| - 1]) + [log[|log| - 1].1]
  }

  ghost function ByFeed(log: seq<(nat, Write)>, i: nat): seq<Write> {
    if log == [] then [] else
    var n := |log| - 1;
    if log[n].0 == i then ByFeed(log[..n], i) + [log[n].1] else ByFeed(log[..n], i)
  }

  ghost function TotalRefused(feeds: seq<Feed>): nat {
    if feeds == [] then 0 else TotalRefused(feeds[..|feeds| - 1]) + feeds[|feeds| - 1].refused
  }

  ghost function TotalUndropped(feeds: seq<Feed>): nat {
    if feeds == [] then 0 else TotalUndropped(feeds[..|feeds| - 1]) + feeds[|feeds| - 1].undropped
  }

  /** What holds of one feed. */
  ghost predicate FeedOk(lib: Lib, src: CompiledSource, f: Feed, made: seq<Write>)
    requires Ready(src)
  {
    && f.accepted == Messages(f.taken) + f.queue
    && |f.queue| <= SOURCE_BUFFER
    && (forall i :: 0 <= i < |f.accepted| ==> Owns(src.prefix, f.accepted[i].Topic))
    && made + f.pending == DeliveredWrites(lib, src, f.taken)
    && (f.pending != [] || f.problems != [] ==> f.busy) && (f.busy ==> f.taken != [] && !f.exited)
  }

  ghost predicate FeedsOk(lib: Lib, sources: seq<CompiledSource>, s: State)
    requires AllReady(sources) && |s.feeds| == |sources|
  {
    forall i :: 0 <= i < |sources| ==> FeedOk(lib, sources[i], s.feeds[i], ByFeed(s.log, i))
  }

  ghost predicate StateOk(lib: Lib, sources: seq<CompiledSource>, s: State)
    requires AllReady(sources) && |s.feeds| == |sources|
  {
    && FeedsOk(lib, sources, s)
    && s.store == PutAll(lib.round, LoggedWrites(s.log))
    && (forall k :: 0 <= k < |s.log| ==> s.log[k].0 < |sources|)
    && s.dropped + TotalUndropped(s.feeds) == TotalRefused(s.feeds)
    && (!s.attached ==> Counted(s))
  }

  lemma {:induction false} RefusedOfUpdate(feeds: seq<Feed>, i: nat, f: Feed)
    requires i < |feeds|
    ensures TotalRefused(feeds[i := f]) == TotalRefused(feeds) - feeds[i].refused + f.refused
    ensures TotalUndropped(feeds[i := f]) == TotalUndropped(feeds) - feeds[i].undropped + f.undropped
  {
    var n := |feeds| - 1;
    if i < n {
      RefusedOfUpdate(feeds[..n], i, f);
      assert feeds[i := f][..n] == feeds[..n][i := f];
    } else {
      assert feeds[i := f][..n] == feeds[..n];
    }
  }

  lemma LogStep(log: seq<(nat, Write)>, i: nat, w: Write)
    ensures LoggedWrites(log + [(i, w)]) == LoggedWrites(log) + [w]
    ensures ByFeed(log + [(i, w)], i) == ByFeed(log, i) + [w]
    ensures forall j: nat :: j != i ==> ByFeed(log + [(i, w)], j) == ByFeed(log, j)
  {
    assert (log + [(i, w)])[..|log|] == log;
  }

  lemma StartedIsOk(lib: Lib, sources: seq<CompiledSource>)
    requires AllReady(sources)
    ensures StateOk(lib, sources, Started(sources))
  {
    NothingRefused(Started(sources).feeds);
  }

  lemma {:induction false} NothingRefused(feeds: seq<Feed>)
    requires forall i :: 0 <= i < |feeds| ==> feeds[i].refused == 0 && feeds[i].undropped == 0
    ensures TotalRefused(feeds) == TotalUndropped(feeds) == 0
  {
    if feeds != [] { NothingRefused(feeds[..|feeds| - 1]); }
  }

  /** A step that touches feed `i` alone and writes nothing. */
  lemma QuietStep(lib: Lib, sources: seq<CompiledSource>, s: State, s': State, i: nat, f: Feed)
    requires AllReady(sources) && |s.feeds| == |sources| && StateOk(lib, sources, s)
    requires i < |sources| && s'.feeds == s.feeds[i := f] && s'.store == s.store && s'.log == s.log
    requires s'.dropped - s.dropped == (f.refused - f.undropped) - (s.feeds[i].refused - s.feeds[i].undropped)
    requires s'.attached == s.attached && (!s.attached ==> f.uncounted == f.undropped == 0)
    requires FeedOk(lib, sources[i], s.feeds[i], ByFeed(s.log, i)) ==> FeedOk(lib, sources[i], f, ByFeed(s.log, i))
    ensures StateOk(lib, sources, s')
  {
    hide FeedOk, Ready, PutAll, LoggedWrites, ByFeed, TotalRefused, TotalUndropped;
    RefusedOfUpdate(s.feeds, i, f);
  }

  lemma OfferKeepsFeed(lib: Lib, src: CompiledSource, f: Feed, made: seq<Write>, msg: Message)
    requires Ready(src) && FeedOk(lib, src, f, made) && |f.queue| < SOURCE_BUFFER && Owns(src.prefix, msg.Topic)
    ensures FeedOk(lib, src, f.(queue := f.queue + [msg], accepted := f.accepted + [msg],
                                uncounted := f.uncounted + 1), made)
  {
    hide DeliveredWrites, Ready;
    assert f.accepted + [msg] == Messages(f.taken) + (f.queue + [msg]);
  }

  lemma TakeKeepsFeed(lib: Lib, src: CompiledSource, f: Feed, made: seq<Write>, now: real)
    requires Ready(src) && FeedOk(lib, src, f, made) && !f.busy && !f.exited && f.queue != []
    ensures var d := Delivery(now, f.queue[0]);
            var e := SourceEffect(lib, src, now, d.msg);
            FeedOk(lib, src, f.(queue := f.queue[1..], taken := f.taken + [d], busy := true,
                                pending := e.writes, problems := e.problems), made)
  {
    hide SourceEffect, Ready, Messages, DeliveredWrites, Owns;
    var d := Delivery(now, f.queue[0]);
    OneMoreTaken(lib, src, f.taken, d);
    assert Messages(f.taken) + f.queue == (Messages(f.taken) + [d.msg]) + f.queue[1..];
    assert made + [] == made;
  }

  lemma OneMoreTaken(lib: Lib, src: CompiledSource, taken: seq<Delivery>, d: Delivery)
    requires Ready(src)
    ensures Messages(taken + [d]) == Messages(taken) + [d.msg]
    ensures DeliveredWrites(lib, src, taken + [d]) ==
            DeliveredWrites(lib, src, taken) + SourceEffect(lib, src, d.now, d.msg).writes
  {
    hide SourceEffect, Ready;
    assert (taken + [d])[..|taken|] == taken;
  }

  lemma SetKeepsFeed(lib: Lib, src: CompiledSource, f: Feed, made: seq<Write>)
    requires Ready(src) && FeedOk(lib, src, f, made) && f.pending != []
    ensures FeedOk(lib, src, f.(pending := f.pending[1..]), made + [f.pending[0]])
  {
    hide DeliveredWrites, Ready, Messages, Owns;
    assert made + f.pending == (made + [f.pending[0]]) + f.pending[1..];
  }

  lemma SetKeepsState(lib: Lib, sources: seq<CompiledSource>, s: State, i: nat)
    requires AllReady(sources) && |s.feeds| == |sources| && StateOk(lib, sources, s) && i < |sources|
    ensures StateOk(lib, sources, SetBy(lib, s, i))
  {
    hide FeedOk, Put, Ready, LoggedWrites, ByFeed, PutAll, TotalRefused, TotalUndropped;
    var f := s.feeds[i];
    if f.pending != [] {
      var w := f.pending[0];
      LogStep(s.log, i, w);
      SetKeepsFeed(lib, sources[i], f, ByFeed(s.log, i));
      RefusedOfUpdate(s.feeds, i, f.(pending := f.pending[1..]));
      OneMorePut(lib.round, LoggedWrites(s.log), w);
    }
  }

  lemma OneMorePut(round: real -> real, ws: seq<Write>, w: Write)
    ensures PutAll(round, ws + [w]) == Put(round, PutAll(round, ws), w)
  {
    hide Put;
    assert (ws + [w])[..|ws|] == ws;
  }

  lemma OfferKeepsState(lib: Lib, sources: seq<CompiledSource>, s: State, i: nat, msg: Message)
    requires AllReady(sources) && |s.feeds| == |sources| && StateOk(lib, sources, s) && i < |sources|
    ensures StateOk(lib, sources, OfferTo(sources[i], s, i, msg))
  {
    hide FeedOk, Ready, PutAll, LoggedWrites, ByFeed, TotalRefused, TotalUndropped, Owns;
    var f, src := s.feeds[i], sources[i];
    assert FeedOk(lib, src, f, ByFeed(s.log, i));
    if s.attached && Owns(src.prefix, msg.Topic) {
      var s' := OfferTo(src, s, i, msg);
      if |f.queue| < SOURCE_BUFFER { OfferKeepsFeed(lib, src, f, ByFeed(s.log, i), msg); }
      FieldsOfFeed(lib, src, f, ByFeed(s.log, i));
      QuietStep(lib, sources, s, s', i, s'.feeds[i]);
    }
  }

  lemma CountKeepsState(lib: Lib, sources: seq<CompiledSource>, s: State, i: nat)
    requires AllReady(sources) && |s.feeds| == |sources| && StateOk(lib, sources, s) && i < |sources|
    ensures StateOk(lib, sources, CountReceivedOf(sources[i], s, i))
    ensures StateOk(lib, sources, CountDroppedOf(s, i))
  {
    hide FeedOk, Ready, PutAll, LoggedWrites, ByFeed, TotalRefused, TotalUndropped;
    var f := s.feeds[i];
    FieldsOfFeed(lib, sources[i], f, ByFeed(s.log, i));
    if f.uncounted > 0 {
      QuietStep(lib, sources, s, CountReceivedOf(sources[i], s, i), i, f.(uncounted := f.uncounted - 1));
    }
    if f.undropped > 0 {
      QuietStep(lib, sources, s, CountDroppedOf(s, i), i, f.(undropped := f.undropped - 1));
    }
  }

  lemma TakeKeepsState(lib: Lib, sources: seq<CompiledSource>, s: State, i: nat, now: real)
    requires AllReady(sources) && |s.feeds| == |sources| && StateOk(lib, sources, s) && i < |sources|
    ensures StateOk(lib, sources, TakeFrom(lib, sources[i], s, i, now))
  {
    hide FeedOk, Ready, SourceEffect, PutAll, LoggedWrites, ByFeed, TotalRefused, TotalUndropped;
    var f := s.feeds[i];
    assert FeedOk(lib, sources[i], f, ByFeed(s.log, i));
    if !f.busy && !f.exited && f.queue != [] {
      var s' := TakeFrom(lib, sources[i], s, i, now);
      TakeKeepsFeed(lib, sources[i], f, ByFeed(s.log, i), now);
      QuietStep(lib, sources, s, s', i, s'.feeds[i]);
    }
  }

  lemma EndKeepsState(lib: Lib, sources: seq<CompiledSource>, s: State, i: nat)
    requires AllReady(sources) && |s.feeds| == |sources| && StateOk(lib, sources, s) && i < |sources|
    ensures StateOk(lib, sources, CountErrorOf(sources[i], s, i))
    ensures StateOk(lib, sources, FinishOf(s, i))
    ensures StateOk(lib, sources, ExitOf(s, i))
  {
    hide FeedOk, Ready, SourceEffect, PutAll, LoggedWrites, ByFeed, TotalRefused, TotalUndropped, Reasons;
    var f := s.feeds[i];
    assert s.feeds[i := f] == s.feeds;
    FieldsOfFeed(lib, sources[i], f, ByFeed(s.log, i));
    var counted, finished, exited := CountErrorOf(sources[i], s, i), FinishOf(s, i), ExitOf(s, i);
    QuietStep(lib, sources, s, counted, i, counted.feeds[i]);
    QuietStep(lib, sources, s, finished, i, finished.feeds[i]);
    QuietStep(lib, sources, s, exited, i, exited.feeds[i]);
  }

  lemma FlagsKeepState(lib: Lib, sources: seq<CompiledSource>, s: State, a: Action)
    requires AllReady(sources) && |s.feeds| == |sources| && StateOk(lib, sources, s)
    requires a.Detach? || a.Cancel? || a.feed >= |sources|
    ensures StateOk(lib, sources, Step(lib, sources, s, a))
  {
    hide FeedOk, Ready, PutAll, TotalRefused, TotalUndropped;
  }

  lemma StepKeepsState(lib: Lib, sources: seq<CompiledSource>, s: State, a: Action)
    requires AllReady(sources) && |s.feeds| == |sources| && StateOk(lib, sources, s)
    ensures StateOk(lib, sources, Step(lib, sources, s, a))
  {
    hide Ready, StateOk, OfferTo, CountReceivedOf, CountDroppedOf, TakeFrom, SetBy, CountErrorOf, FinishOf, ExitOf;
    if a.Detach? || a.Cancel? || a.feed >= |sources| {
      FlagsKeepState(lib, sources, s, a);
      return;
    }
    match a
    case Offer(i, msg) => OfferKeepsState(lib, sources, s, i, msg);
    case CountReceived(i) => CountKeepsState(lib, sources, s, i);
    case CountDropped(i) => CountKeepsState(lib, sources, s, i);
    case Take(i, now) => TakeKeepsState(lib, sources, s, i, now);
    case SetNext(i) => SetKeepsState(lib, sources, s, i);
    case CountError(i) => EndKeepsState(lib, sources, s, i);
    case Finish(i) => EndKeepsState(lib, sources, s, i);
    case Exit(i) => EndKeepsState(lib, sources, s, i);
  }

  /** The counters and flags of an idle feed may change freely. */
  lemma FieldsOfFeed(lib: Lib, src: CompiledSource, f: Feed, made: seq<Write>)
    requires Ready(src) && FeedOk(lib, src, f, made)
    ensures forall a, b, c :: FeedOk(lib, src, f.(refused := a, uncounted := b, undropped := c), made)
    ensures f.pending == [] && f.problems == [] ==> FeedOk(lib, src, f.(busy := false), made)
    ensures f.problems != [] ==> FeedOk(lib, src, f.(problems := f.problems[1..]), made)
    ensures !f.busy ==> FeedOk(lib, src, f.(exited := true), made)
  {}

  lemma {:induction false} RunKeepsFrom(lib: Lib, sources: seq<CompiledSource>, s: State, actions: seq<Action>)
    requires AllReady(sources) && |s.feeds| == |sources| && StateOk(lib, sources, s)
    ensures StateOk(lib, sources, Run(lib, sources, s, actions))
  {
    hide StateOk, Step;
    if actions != [] {
      var n := |actions| - 1;
      RunKeepsFrom(lib, sources, s, actions[..n]);
      StepKeepsState(lib, sources, Run(lib, sources, s, actions[..n]), actions[n]);
    }
  }

  lemma RunKeepsState(lib: Lib, sources: seq<CompiledSource>, actions: seq<Action>)
    requires AllReady(sources)
    ensures StateOk(lib, sources, Run(lib, sources, Started(sources), actions))
  {
    hide StateOk;
    StartedIsOk(lib, sources);
    RunKeepsFrom(lib, sources, Started(sources), actions);
  }
}
