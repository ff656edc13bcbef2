/** What holds of every run of the router: no accepted message is lost or
    reordered, Stop gives up only what is still queued, the store does not depend
    on how the consumers interleave, and no scrape ever sees a metric family that
    disagrees with itself. */
module RouterLaws {
  import opened Text
  import opened Library
  import opened Config
  import opened Labels
  import opened Validate
  import opened Acceptance
  import opened Rules
  import opened Payloads
  import opened SeriesStore
  import opened StoreLaws
  import opened Sources
  import opened Soundness
  import opened Router
  import opened Clashes
  import opened RouterObject
  import opened SourceLaws

  // ------------------------------------------------------------------- delivery

  /** The owned messages the broker delivered for feed `i`. */
  function Offered(src: CompiledSource, actions: seq<Action>, i: nat): seq<Message> {
    if actions == [] then [] else
    var a := actions[|actions| - 1];
    var before := Offered(src, actions[..|actions| - 1], i);
    if a.Offer? && a.feed == i && Owns(src.prefix, a.msg.Topic) then before + [a.msg] else before
  }

  /** `a` is `b` with some elements left out. */
  ghost predicate Subsequence<T>(a: seq<T>, b: seq<T>) {
    if a == [] then true
    else if b == [] then false
    else if a[|a| - 1] == b[|b| - 1] && Subsequence(a[..|a| - 1], b[..|b| - 1]) then true
    else Subsequence(a, b[..|b| - 1])
  }

  lemma SubsequenceGrows<T>(a: seq<T>, b: seq<T>, x: T)
    requires Subsequence(a, b)
    ensures Subsequence(a, b + [x]) && Subsequence(a + [x], b + [x])
  {
    assert (b + [x])[..|b|] == b && (a + [x])[..|a|] == a;
  }

  ghost predicate BeforeStop(actions: seq<Action>) {
    Detach !in actions
  }

  lemma NotOffered(lib: Lib, sources: seq<CompiledSource>, s: State, a: Action, i: nat)
    requires AllReady(sources) && |s.feeds| == |sources| && i < |sources| && !a.Offer?
    ensures var f, f' := s.feeds[i], Step(lib, sources, s, a).feeds[i];
            f'.accepted == f.accepted && f'.refused == f.refused
    ensures a != Detach ==> Step(lib, sources, s, a).attached == s.attached
  {
    hide Ready, SourceEffect, Put, Counted;
  }

  /** The feed after a step, when the step is an offer to it and when it is not. */
  lemma OfferStep(lib: Lib, sources: seq<CompiledSource>, s: State, a: Action, i: nat)
    requires AllReady(sources) && |s.feeds| == |sources| && i < |sources| && s.attached
    ensures var f, f' := s.feeds[i], Step(lib, sources, s, a).feeds[i];
            if a.Offer? && a.feed == i && Owns(sources[i].prefix, a.msg.Topic) then
              if |f.queue| < 1024 then f'.accepted == f.accepted + [a.msg] && f'.refused == f.refused
              else f'.accepted == f.accepted && f'.refused == f.refused + 1
            else f'.accepted == f.accepted && f'.refused == f.refused
    ensures a != Detach ==> Step(lib, sources, s, a).attached
  {
    hide Ready, Owns;
    if !a.Offer? {
      NotOffered(lib, sources, s, a, i);
      hide Step;
    }
  }

  /** Before Stop, what was delivered to a source is what it accepted, in order,
      plus what was refused because the queue was full. */
  lemma {:induction false} OffersAreAcceptedOrDropped(lib: Lib, sources: seq<CompiledSource>, actions: seq<Action>,
      i: nat)
    requires AllReady(sources) && i < |sources| && BeforeStop(actions)
    ensures var s := Run(lib, sources, Started(sources), actions);
            var offered := Offered(sources[i], actions, i);
            && s.attached
            && Subsequence(s.feeds[i].accepted, offered)
            && |offered| == |s.feeds[i].accepted| + s.feeds[i].refused
  {
    hide Step, Ready, Owns;
    if actions != [] {
      var n := |actions| - 1;
      var a := actions[n];
      assert a in actions;
      var s := Run(lib, sources, Started(sources), actions[..n]);
      OffersAreAcceptedOrDropped(lib, sources, actions[..n], i);
      OfferStep(lib, sources, s, a, i);
      if a.Offer? { SubsequenceGrows(s.feeds[i].accepted, Offered(sources[i], actions[..n], i), a.msg); }
    }
  }

  /** Over every run, what a source accepted is what its consumer took, in order,
      followed by the queue; the queue is bounded; all of it is owned. */
  lemma AcceptedIsTakenThenQueued(lib: Lib, sources: seq<CompiledSource>, actions: seq<Action>, i: nat)
    requires AllReady(sources) && i < |sources|
    ensures var f := Run(lib, sources, Started(sources), actions).feeds[i];
            && f.accepted == Messages(f.taken) + f.queue
            && |f.queue| <= 1024
            && forall k :: 0 <= k < |f.accepted| ==> Owns(sources[i].prefix, f.accepted[k].Topic)
  {
    hide Ready, DeliveredWrites;
    RunKeepsState(lib, sources, actions);
    var s := Run(lib, sources, Started(sources), actions);
    assert FeedOk(lib, sources[i], s.feeds[i], ByFeed(s.log, i));
  }

  ghost predicate NamesDistinct(sources: seq<CompiledSource>) {
    forall i, j :: 0 <= i < j < |sources| ==> sources[i].name != sources[j].name
  }

  lemma NotCounted(lib: Lib, sources: seq<CompiledSource>, s: State, a: Action)
    requires AllReady(sources) && |s.feeds| == |sources| && !a.Detach? && !a.Cancel? && a.feed < |sources|
    requires !a.Offer? && !a.CountReceived?
    ensures var i, s' := a.feed, Step(lib, sources, s, a);
            && s'.feeds == s.feeds[i := s'.feeds[i]] && s'.received == s.received
            && s'.feeds[i].accepted == s.feeds[i].accepted && s'.feeds[i].uncounted == s.feeds[i].uncounted
  {
    hide Ready, SourceEffect, Put;
    assert s.feeds[a.feed := s.feeds[a.feed]] == s.feeds;
  }

  /** What a step counts as received, it takes from the uncounted messages of one feed. */
  lemma CountStep(lib: Lib, sources: seq<CompiledSource>, s: State, a: Action)
    requires AllReady(sources) && |s.feeds| == |sources| && !a.Detach? && !a.Cancel? && a.feed < |sources|
    ensures var i, s' := a.feed, Step(lib, sources, s, a);
            var f, f', n := s.feeds[i], s'.feeds[i], if a.CountReceived? && s.feeds[i].uncounted > 0 then 1 else 0;
            && s'.feeds == s.feeds[i := f']
            && s'.received == (if n == 1 then s.received + multiset{sources[i].name} else s.received)
            && f'.uncounted + n - |f'.accepted| == f.uncounted - |f.accepted|
  {
    hide Ready, Owns;
    assert s.feeds[a.feed := s.feeds[a.feed]] == s.feeds;
    if !a.Offer? && !a.CountReceived? {
      NotCounted(lib, sources, s, a);
      hide Step;
    }
  }

  lemma ReceivedStep(lib: Lib, sources: seq<CompiledSource>, s: State, a: Action, i: nat)
    requires AllReady(sources) && |s.feeds| == |sources| && i < |sources| && NamesDistinct(sources)
    requires s.received[sources[i].name] + s.feeds[i].uncounted == |s.feeds[i].accepted|
    ensures var s' := Step(lib, sources, s, a);
            s'.received[sources[i].name] + s'.feeds[i].uncounted == |s'.feeds[i].accepted|
  {
    hide Ready;
    if !a.Detach? && !a.Cancel? && a.feed < |sources| {
      CountStep(lib, sources, s, a);
      hide Step;
      if a.feed != i { assert sources[a.feed].name != sources[i].name; }
    }
  }

  /** At every moment the counter of received messages of a source and its messages
      sent but not yet counted are together its accepted messages, and the same for
      the dropped counter and the refused messages of all sources. */
  lemma {:induction false} CountersAreRight(lib: Lib, sources: seq<CompiledSource>, actions: seq<Action>)
    requires AllReady(sources) && NamesDistinct(sources)
    ensures var s := Run(lib, sources, Started(sources), actions);
            && (forall i :: 0 <= i < |sources| ==>
                  s.received[sources[i].name] + s.feeds[i].uncounted == |s.feeds[i].accepted|)
            && s.dropped + TotalUndropped(s.feeds) == TotalRefused(s.feeds)
  {
    hide Step, Ready, FeedOk, PutAll;
    RunKeepsState(lib, sources, actions);
    if actions != [] {
      var n := |actions| - 1;
      CountersAreRight(lib, sources, actions[..n]);
      forall i | 0 <= i < |sources|
        ensures var s := Run(lib, sources, Started(sources), actions);
                s.received[sources[i].name] + s.feeds[i].uncounted == |s.feeds[i].accepted|
      {
        ReceivedStep(lib, sources, Run(lib, sources, Started(sources), actions[..n]), actions[n], i);
      }
    }
  }

  lemma {:induction false} NothingUncounted(feeds: seq<Feed>)
    requires forall i :: 0 <= i < |feeds| ==> feeds[i].undropped == 0
    ensures TotalUndropped(feeds) == 0
  {
    if feeds != [] { NothingUncounted(feeds[..|feeds| - 1]); }
  }

  /** Whenever no Dispatch is under way, so always after Stop, the counters are
      exact. */
  lemma CountersAreExact(lib: Lib, sources: seq<CompiledSource>, actions: seq<Action>)
    requires AllReady(sources) && NamesDistinct(sources)
    ensures var s := Run(lib, sources, Started(sources), actions);
            && (Counted(s) ==>
                  && (forall i :: 0 <= i < |sources| ==> s.received[sources[i].name] == |s.feeds[i].accepted|)
                  && s.dropped == TotalRefused(s.feeds))
            && (!s.attached ==> Counted(s))
  {
    hide Run, Ready, FeedsOk, PutAll;
    CountersAreRight(lib, sources, actions);
    RunKeepsState(lib, sources, actions);
    var s := Run(lib, sources, Started(sources), actions);
    if Counted(s) { NothingUncounted(s.feeds); }
  }

  /** One error, by source and reason, for every problem of every delivery. */
  function ErrorsOf(lib: Lib, src: CompiledSource, taken: seq<Delivery>): multiset<(string, Reason)>
    requires Ready(src)
  {
    if taken == [] then multiset{} else
    var n := |taken| - 1;
    ErrorsOf(lib, src, taken[..n]) + Reasons(src.name, SourceEffect(lib, src, taken[n].now, taken[n].msg).problems)
  }

  /** The errors of all messages taken by all sources. */
  ghost function AllErrors(lib: Lib, sources: seq<CompiledSource>, feeds: seq<Feed>): multiset<(string, Reason)>
    requires AllReady(sources) && |feeds| == |sources|
  {
    if feeds == [] then multiset{} else
    var n := |feeds| - 1;
    AllErrors(lib, sources[..n], feeds[..n]) + ErrorsOf(lib, sources[n], feeds[n].taken)
  }

  /** The errors the consumers still have to count. */
  ghost function Outstanding(sources: seq<CompiledSource>, feeds: seq<Feed>): multiset<(string, Reason)>
    requires |feeds| == |sources|
  {
    if feeds == [] then multiset{} else
    var n := |feeds| - 1;
    Outstanding(sources[..n], feeds[..n]) + Reasons(sources[n].name, feeds[n].problems)
  }

  lemma AddToBoth<T>(a: multiset<T>, b: multiset<T>, c: multiset<T>, d: multiset<T>, more: multiset<T>)
    requires a + b == c + d
    ensures (a + more) + b == (c + more) + d
  {
    forall x ensures ((a + more) + b)[x] == ((c + more) + d)[x] {
      assert (a + b)[x] == (c + d)[x];
    }
  }

  lemma {:induction false} ErrorsOfUpdate(lib: Lib, sources: seq<CompiledSource>, feeds: seq<Feed>, i: nat, f: Feed)
    requires AllReady(sources) && |feeds| == |sources| && i < |feeds|
    ensures AllErrors(lib, sources, feeds[i := f]) + ErrorsOf(lib, sources[i], feeds[i].taken) ==
            AllErrors(lib, sources, feeds) + ErrorsOf(lib, sources[i], f.taken)
  {
    hide Ready, ErrorsOf;
    var n := |feeds| - 1;
    if i < n {
      ErrorsOfUpdate(lib, sources[..n], feeds[..n], i, f);
      assert feeds[i := f][..n] == feeds[..n][i := f];
      AddToBoth(AllErrors(lib, sources[..n], feeds[..n][i := f]), ErrorsOf(lib, sources[i], feeds[i].taken),
                AllErrors(lib, sources[..n], feeds[..n]), ErrorsOf(lib, sources[i], f.taken),
                ErrorsOf(lib, sources[n], feeds[n].taken));
    } else {
      assert feeds[i := f][..n] == feeds[..n];
    }
  }

  lemma {:induction false} OutstandingOfUpdate(sources: seq<CompiledSource>, feeds: seq<Feed>, i: nat, f: Feed)
    requires |feeds| == |sources| && i < |feeds|
    ensures Outstanding(sources, feeds[i := f]) + Reasons(sources[i].name, feeds[i].problems) ==
            Outstanding(sources, feeds) + Reasons(sources[i].name, f.problems)
  {
    hide Reasons;
    var n := |feeds| - 1;
    if i < n {
      OutstandingOfUpdate(sources[..n], feeds[..n], i, f);
      assert feeds[i := f][..n] == feeds[..n][i := f];
      AddToBoth(Outstanding(sources[..n], feeds[..n][i := f]), Reasons(sources[i].name, feeds[i].problems),
                Outstanding(sources[..n], feeds[..n]), Reasons(sources[i].name, f.problems),
                Reasons(sources[n].name, feeds[n].problems));
    } else {
      assert feeds[i := f][..n] == feeds[..n];
    }
  }

  lemma Balance<T>(e: multiset<T>, e': multiset<T>, r: multiset<T>, r': multiset<T>, t: multiset<T>, t': multiset<T>,
      o: multiset<T>, o': multiset<T>, a: multiset<T>, a': multiset<T>)
    requires e + o == a && e' + r' + t == e + r + t' && o' + r == o + r' && a' + t == a + t'
    ensures e' + o' == a'
  {
    forall x ensures (e' + o')[x] == a'[x] {
      assert (e + o)[x] == a[x] && (e' + r' + t)[x] == (e + r + t')[x];
      assert (o' + r)[x] == (o + r')[x] && (a' + t)[x] == (a + t')[x];
    }
  }

  /** What a step does to the errors: a message taken brings its problems, and they
      are counted one at a time. */
  ghost predicate ErrorsMove(lib: Lib, src: CompiledSource, f: Feed, f': Feed, errors: multiset<(string, Reason)>,
      errors': multiset<(string, Reason)>)
    requires Ready(src)
  {
    || (f'.taken == f.taken && f'.problems == f.problems && errors' == errors)
    || (f.problems != [] && f'.taken == f.taken && f'.problems == f.problems[1..] &&
        errors' == errors + multiset{(src.name, ReasonOf(f.problems[0]))})
    || (f.problems == [] && |f'.taken| == |f.taken| + 1 && f'.taken[..|f.taken|] == f.taken && errors' == errors &&
        var d := f'.taken[|f.taken|];
        f'.problems == SourceEffect(lib, src, d.now, d.msg).problems)
  }

  /** Most steps leave the problems of a feed and the counters alone. */
  lemma QuietFeedStep(lib: Lib, sources: seq<CompiledSource>, s: State, a: Action)
    requires AllReady(sources) && |s.feeds| == |sources| && !a.Detach? && !a.Cancel? && a.feed < |sources|
    requires !a.Take? && !a.CountError?
    ensures var i, s' := a.feed, Step(lib, sources, s, a);
            && s'.feeds == s.feeds[i := s'.feeds[i]] && s'.errors == s.errors
            && s'.feeds[i].taken == s.feeds[i].taken && s'.feeds[i].problems == s.feeds[i].problems
  {
    hide Ready, Put, Owns;
    assert s.feeds[a.feed := s.feeds[a.feed]] == s.feeds;
  }

  lemma FeedStep(lib: Lib, sources: seq<CompiledSource>, s: State, a: Action)
    requires AllReady(sources) && |s.feeds| == |sources| && !a.Detach? && !a.Cancel? && a.feed < |sources|
    requires s.feeds[a.feed].problems != [] ==> s.feeds[a.feed].busy
    ensures var i, s' := a.feed, Step(lib, sources, s, a);
            && s'.feeds == s.feeds[i := s'.feeds[i]]
            && ErrorsMove(lib, sources[i], s.feeds[i], s'.feeds[i], s.errors, s'.errors)
  {
    hide Ready, SourceEffect;
    assert s.feeds[a.feed := s.feeds[a.feed]] == s.feeds;
    if !a.Take? && !a.CountError? {
      QuietFeedStep(lib, sources, s, a);
      hide Step;
    }
  }

  lemma MovedErrors(lib: Lib, src: CompiledSource, f: Feed, f': Feed, errors: multiset<(string, Reason)>,
      errors': multiset<(string, Reason)>)
    requires Ready(src) && ErrorsMove(lib, src, f, f', errors, errors')
    ensures errors' + Reasons(src.name, f'.problems) + ErrorsOf(lib, src, f.taken) ==
            errors + Reasons(src.name, f.problems) + ErrorsOf(lib, src, f'.taken)
  {
    hide Ready, SourceEffect;
  }

  lemma ErrorsStep(lib: Lib, sources: seq<CompiledSource>, s: State, a: Action)
    requires AllReady(sources) && |s.feeds| == |sources| && StateOk(lib, sources, s)
    requires s.errors + Outstanding(sources, s.feeds) == AllErrors(lib, sources, s.feeds)
    ensures var s' := Step(lib, sources, s, a);
            s'.errors + Outstanding(sources, s'.feeds) == AllErrors(lib, sources, s'.feeds)
  {
    hide Ready, Reasons, PutAll, DeliveredWrites, ErrorsOf, AllErrors, Outstanding, Messages, Owns, ErrorsMove;
    if !a.Detach? && !a.Cancel? && a.feed < |sources| {
      var i, src := a.feed, sources[a.feed];
      var f := s.feeds[i];
      assert FeedOk(lib, src, f, ByFeed(s.log, i));
      hide StateOk, FeedOk, Step;
      FeedStep(lib, sources, s, a);
      var s' := Step(lib, sources, s, a);
      MovedErrors(lib, src, f, s'.feeds[i], s.errors, s'.errors);
      var f' := s'.feeds[i];
      ErrorsOfUpdate(lib, sources, s.feeds, i, f');
      OutstandingOfUpdate(sources, s.feeds, i, f');
      Balance(s.errors, s'.errors, Reasons(src.name, f.problems), Reasons(src.name, f'.problems),
              ErrorsOf(lib, src, f.taken), ErrorsOf(lib, src, f'.taken), Outstanding(sources, s.feeds),
              Outstanding(sources, s'.feeds), AllErrors(lib, sources, s.feeds), AllErrors(lib, sources, s'.feeds));
    }
  }

  /** At every moment of every run the error counters, and the problems the consumers
      still have to count, are together one error, by source and reason, for every
      problem of every message taken. */
  lemma {:induction false} ErrorsAreRight(lib: Lib, sources: seq<CompiledSource>, actions: seq<Action>)
    requires AllReady(sources)
    ensures var s := Run(lib, sources, Started(sources), actions);
            s.errors + Outstanding(sources, s.feeds) == AllErrors(lib, sources, s.feeds)
  {
    hide Ready, Step, StateOk, ErrorsOf, Reasons;
    if actions == [] {
      NothingTaken(lib, sources, Started(sources).feeds);
    } else {
      var n := |actions| - 1;
      ErrorsAreRight(lib, sources, actions[..n]);
      RunKeepsState(lib, sources, actions[..n]);
      ErrorsStep(lib, sources, Run(lib, sources, Started(sources), actions[..n]), actions[n]);
    }
  }

  lemma {:induction false} NothingTaken(lib: Lib, sources: seq<CompiledSource>, feeds: seq<Feed>)
    requires AllReady(sources) && |feeds| == |sources|
    requires forall i :: 0 <= i < |feeds| ==> feeds[i].taken == [] && feeds[i].problems == []
    ensures AllErrors(lib, sources, feeds) == multiset{} && Outstanding(sources, feeds) == multiset{}
  {
    hide Ready;
    if feeds != [] { NothingTaken(lib, sources[..|feeds| - 1], feeds[..|feeds| - 1]); }
  }

  lemma {:induction false} NothingOutstanding(sources: seq<CompiledSource>, feeds: seq<Feed>)
    requires |feeds| == |sources| && forall i :: 0 <= i < |feeds| ==> feeds[i].problems == []
    ensures Outstanding(sources, feeds) == multiset{}
  {
    if feeds != [] { NothingOutstanding(sources[..|feeds| - 1], feeds[..|feeds| - 1]); }
  }

  /** Whenever no consumer is busy, so always once Stop has returned, the error
      counters are exact. */
  lemma ErrorsAreExact(lib: Lib, sources: seq<CompiledSource>, actions: seq<Action>)
    requires AllReady(sources)
    requires forall f :: f in Run(lib, sources, Started(sources), actions).feeds ==> !f.busy
    ensures var s := Run(lib, sources, Started(sources), actions); s.errors == AllErrors(lib, sources, s.feeds)
  {
    hide Ready, Run, DeliveredWrites, PutAll, Messages, Owns, AllErrors;
    ErrorsAreRight(lib, sources, actions);
    RunKeepsState(lib, sources, actions);
    var s := Run(lib, sources, Started(sources), actions);
    forall i | 0 <= i < |sources| ensures s.feeds[i].problems == [] {
      assert FeedOk(lib, sources[i], s.feeds[i], ByFeed(s.log, i)) && s.feeds[i] in s.feeds;
    }
    NothingOutstanding(sources, s.feeds);
  }

  // ----------------------------------------------------------------------- Stop

  /** Stop has returned: the feeds are detached and every consumer is gone. */
  ghost predicate Stopped(s: State) {
    !s.attached && forall i :: 0 <= i < |s.feeds| ==> s.feeds[i].exited
  }

  /** Stop loses queued messages only: every message a consumer took has been
      handled, all its writes made. */
  lemma StopLosesOnlyTheQueue(lib: Lib, sources: seq<CompiledSource>, actions: seq<Action>, i: nat)
    requires AllReady(sources) && i < |sources|
    requires Stopped(Run(lib, sources, Started(sources), actions))
    ensures var s := Run(lib, sources, Started(sources), actions);
            var f := s.feeds[i];
            && f.accepted == Messages(f.taken) + f.queue
            && ByFeed(s.log, i) == DeliveredWrites(lib, sources[i], f.taken)
            && f.pending == [] && f.problems == [] && !f.busy
  {
    hide Ready, DeliveredWrites, Messages, Owns;
    RunKeepsState(lib, sources, actions);
    var s := Run(lib, sources, Started(sources), actions);
    assert FeedOk(lib, sources[i], s.feeds[i], ByFeed(s.log, i));
    assert ByFeed(s.log, i) + [] == ByFeed(s.log, i);
  }

  lemma StoppedStep(lib: Lib, sources: seq<CompiledSource>, s: State, a: Action)
    requires AllReady(sources) && |s.feeds| == |sources| && StateOk(lib, sources, s) && Stopped(s)
    ensures Step(lib, sources, s, a) == s.(cancelled := Step(lib, sources, s, a).cancelled)
  {
    hide Ready, SourceEffect, Put, Owns, Reasons, DeliveredWrites;
    if !a.Detach? && !a.Cancel? && a.feed < |sources| {
      assert FeedOk(lib, sources[a.feed], s.feeds[a.feed], ByFeed(s.log, a.feed));
      assert Counted(s);
      assert s.feeds[a.feed := s.feeds[a.feed].(exited := true)] == s.feeds;
    }
  }

  /** After Stop nothing happens any more, whatever is delivered. */
  lemma {:induction false} StoppedIsFinal(lib: Lib, sources: seq<CompiledSource>, s: State, actions: seq<Action>)
    requires AllReady(sources) && |s.feeds| == |sources| && StateOk(lib, sources, s) && Stopped(s)
    ensures var s' := Run(lib, sources, s, actions); s' == s.(cancelled := s'.cancelled)
  {
    hide Ready, Step, FeedOk, PutAll;
    if actions != [] {
      var n := |actions| - 1;
      StoppedIsFinal(lib, sources, s, actions[..n]);
      StoppedStep(lib, sources, Run(lib, sources, s, actions[..n]), actions[n]);
    }
  }

  /** What the consumer of feed `i` still has to do before it returns: the Sets of
      the message it holds, the counts of its problems, its end, and the exit. */
  function Ending(f: Feed, i: nat): seq<Action> {
    Sets(i, |f.pending|) + (Counts(i, |f.problems|) + [Finish(i), Exit(i)])
  }

  lemma LastSteps(lib: Lib, sources: seq<CompiledSource>, s: State, i: nat)
    requires AllReady(sources) && |s.feeds| == |sources| && i < |sources| && s.cancelled
    requires s.feeds[i].pending == [] && s.feeds[i].problems == []
    ensures var s' := Run(lib, sources, s, [Finish(i), Exit(i)]);
            && s'.feeds == s.feeds[i := s.feeds[i].(busy := false, exited := true)]
            && s'.cancelled && s'.attached == s.attached
  {
    hide Ready, Run;
    var f := s.feeds[i];
    var t := Step(lib, sources, s, Finish(i));
    RunOfConcat(lib, sources, s, [Finish(i)], [Exit(i)]);
    RunOfOne(lib, sources, s, Finish(i));
    RunOfOne(lib, sources, t, Exit(i));
    assert [Finish(i)] + [Exit(i)] == [Finish(i), Exit(i)];
    assert t.feeds == s.feeds[i := f.(busy := false)];
    assert t.feeds[i := f.(busy := false, exited := true)] == s.feeds[i := f.(busy := false, exited := true)];
  }

  /** One consumer can always come to its end, and takes no further message. */
  lemma ConsumerReturns(lib: Lib, sources: seq<CompiledSource>, s: State, i: nat)
    requires AllReady(sources) && |s.feeds| == |sources| && i < |sources|
    requires StateOk(lib, sources, s) && s.cancelled
    ensures var f := s.feeds[i];
            var s' := Run(lib, sources, s, Ending(f, i));
            && s'.feeds == s.feeds[i := f.(pending := [], problems := [], busy := false, exited := true)]
            && s'.cancelled && s'.attached == s.attached && StateOk(lib, sources, s')
  {
    hide Ready, DeliveredWrites, Owns, Messages, PutAll, PutFrom, Run, Sets, Counts, Tagged, Put, Reasons;
    var f := s.feeds[i];
    assert FeedOk(lib, sources[i], f, ByFeed(s.log, i));
    RunKeepsFrom(lib, sources, s, Ending(f, i));
    hide StateOk, FeedOk;
    var rest := Counts(i, |f.problems|) + [Finish(i), Exit(i)];
    RunOfSets(lib, sources, s, i, |f.pending|);
    RunOfConcat(lib, sources, s, Sets(i, |f.pending|), rest);
    assert f.pending[|f.pending|..] == [];
    var t := Run(lib, sources, s, Sets(i, |f.pending|));
    RunOfCounts(lib, sources, t, i, |f.problems|);
    RunOfConcat(lib, sources, t, Counts(i, |f.problems|), [Finish(i), Exit(i)]);
    assert f.problems[|f.problems|..] == [];
    var u := Run(lib, sources, t, Counts(i, |f.problems|));
    LastSteps(lib, sources, u, i);
    assert u.feeds[i := f.(pending := [], problems := [], busy := false, exited := true)]
        == s.feeds[i := f.(pending := [], problems := [], busy := false, exited := true)];
  }

  /** A step a consumer can take on its own, other than taking a message. */
  predicate Winding(a: Action) {
    a.SetNext? || a.CountError? || a.Finish? || a.Exit?
  }

  lemma {:induction false} SetsWind(i: nat, n: nat)
    ensures forall a :: a in Sets(i, n) + Counts(i, n) ==> Winding(a)
  {
    if n > 0 { SetsWind(i, n - 1); }
  }

  lemma {:induction false} ConsumersReturn(lib: Lib, sources: seq<CompiledSource>, s: State, n: nat)
    returns (actions: seq<Action>)
    requires AllReady(sources) && |s.feeds| == |sources| && n <= |sources|
    requires StateOk(lib, sources, s) && s.cancelled
    ensures forall a :: a in actions ==> Winding(a)
    ensures var s' := Run(lib, sources, s, actions);
            && s'.cancelled && s'.attached == s.attached && StateOk(lib, sources, s')
            && (forall i :: 0 <= i < n ==> s'.feeds[i].exited)
            && forall i :: 0 <= i < |sources| ==> s'.feeds[i].taken == s.feeds[i].taken
  {
    hide Ready, StateOk, Run, Ending;
    if n == 0 {
      actions := [];
      RunOfNothing(lib, sources, s);
    } else {
      var before := ConsumersReturn(lib, sources, s, n - 1);
      var t := Run(lib, sources, s, before);
      ConsumerReturns(lib, sources, t, n - 1);
      EndingWinds(t.feeds[n - 1], n - 1);
      actions := before + Ending(t.feeds[n - 1], n - 1);
      RunOfConcat(lib, sources, s, before, Ending(t.feeds[n - 1], n - 1));
    }
  }

  lemma EndingWinds(f: Feed, i: nat)
    ensures forall a :: a in Ending(f, i) ==> Winding(a)
  {
    SetsWind(i, |f.pending|);
    SetsWind(i, |f.problems|);
  }

  /** Stop can return: from every state a run reaches once the feeds are detached
      and the consumers cancelled, steps the consumers take on their own lead to the
      end of all of them, and no message is taken on the way. */
  lemma StopReturns(lib: Lib, sources: seq<CompiledSource>, before: seq<Action>) returns (more: seq<Action>)
    requires AllReady(sources)
    requires var s := Run(lib, sources, Started(sources), before); !s.attached && s.cancelled
    ensures forall a :: a in more ==> Winding(a)
    ensures var s := Run(lib, sources, Started(sources), before);
            var s' := Run(lib, sources, Started(sources), before + more);
            Stopped(s') && forall i :: 0 <= i < |sources| ==> s'.feeds[i].taken == s.feeds[i].taken
  {
    hide Ready, StateOk, Run;
    RunKeepsState(lib, sources, before);
    var s := Run(lib, sources, Started(sources), before);
    more := ConsumersReturn(lib, sources, s, |sources|);
    RunOfConcat(lib, sources, Started(sources), before, more);
  }

  // -------------------------------------------------------------- independence

  /** No two sources share a metric name. */
  ghost predicate MetricsDisjoint(sources: seq<CompiledSource>) {
    forall i, j, name :: 0 <= i < |sources| && 0 <= j < |sources| && i != j && name in AllMetricNames(sources[i]) ==>
      name !in AllMetricNames(sources[j])
  }

  ghost predicate CleanMetrics(sources: seq<CompiledSource>) {
    forall i, name :: 0 <= i < |sources| && name in AllMetricNames(sources[i]) ==> Clean(name)
  }

  /** The writes of the sources, one source after another. */
  ghost function OneByOne(parts: seq<seq<Write>>): seq<Write> {
    if parts == [] then [] else OneByOne(parts[..|parts| - 1]) + parts[|parts| - 1]
  }

  /** Each source's writes are to its own metrics. */
  ghost predicate PartNames(sources: seq<CompiledSource>, parts: seq<seq<Write>>) {
    |parts| == |sources| && forall i, w :: 0 <= i < |parts| && w in parts[i] ==> w.name in AllMetricNames(sources[i])
  }

  lemma {:induction false} DeliveredNames(lib: Lib, src: CompiledSource, taken: seq<Delivery>)
    requires Ready(src)
    ensures forall w :: w in DeliveredWrites(lib, src, taken) ==> w.name in AllMetricNames(src)
  {
    hide Ready, SourceEffect, AllMetricNames;
    if taken != [] {
      var n := |taken| - 1;
      DeliveredNames(lib, src, taken[..n]);
      SourceWritesItsMetrics(lib, src, taken[n].now, taken[n].msg);
    }
  }

  lemma {:induction false} ByNameOfConcat(a: seq<Write>, b: seq<Write>, name: string)
    ensures ByName(a + b, name) == ByName(a, name) + ByName(b, name)
  {
    if b == [] {
      assert a + b == a;
    } else {
      ByNameOfConcat(a, b[..|b| - 1], name);
      assert (a + b)[..|a + b| - 1] == a + b[..|b| - 1];
    }
  }

  lemma {:induction false} NotAmong(ws: seq<Write>, name: string)
    requires forall w :: w in ws ==> w.name != name
    ensures ByName(ws, name) == []
  {
    if ws != [] { NotAmong(ws[..|ws| - 1], name); }
  }

  lemma {:induction false} OthersDoNotWrite(sources: seq<CompiledSource>, parts: seq<seq<Write>>, name: string)
    requires PartNames(sources, parts)
    requires forall i :: 0 <= i < |sources| ==> name !in AllMetricNames(sources[i])
    ensures ByName(OneByOne(parts), name) == []
  {
    hide AllMetricNames;
    if parts != [] {
      var n := |parts| - 1;
      OthersDoNotWrite(sources[..n], parts[..n], name);
      NotAmong(parts[n], name);
      ByNameOfConcat(OneByOne(parts[..n]), parts[n], name);
    }
  }

  /** In the one-by-one run a metric of source `i` is written by source `i` only. */
  lemma {:induction false} OwnerWrites(sources: seq<CompiledSource>, parts: seq<seq<Write>>, i: nat, name: string)
    requires PartNames(sources, parts) && i < |sources| && MetricsDisjoint(sources)
    requires name in AllMetricNames(sources[i])
    ensures ByName(OneByOne(parts), name) == ByName(parts[i], name)
  {
    hide AllMetricNames;
    var n := |parts| - 1;
    ByNameOfConcat(OneByOne(parts[..n]), parts[n], name);
    if i == n {
      OthersDoNotWrite(sources[..n], parts[..n], name);
    } else {
      OwnerWrites(sources[..n], parts[..n], i, name);
      NotAmong(parts[n], name);
    }
  }

  ghost predicate LogNames(sources: seq<CompiledSource>, log: seq<(nat, Write)>) {
    forall k :: 0 <= k < |log| ==> log[k].0 < |sources| && log[k].1.name in AllMetricNames(sources[log[k].0])
  }

  /** In the log a metric of source `i` is written by feed `i` only. */
  lemma {:induction false} OwnerLogs(sources: seq<CompiledSource>, log: seq<(nat, Write)>, i: nat, name: string)
    requires LogNames(sources, log) && MetricsDisjoint(sources)
    requires i < |sources| && name in AllMetricNames(sources[i])
    ensures ByName(LoggedWrites(log), name) == ByName(ByFeed(log, i), name)
  {
    hide AllMetricNames;
    if log != [] {
      var n := |log| - 1;
      OwnerLogs(sources, log[..n], i, name);
      ByNameStep(LoggedWrites(log[..n]), log[n].1, name);
      ByNameStep(ByFeed(log[..n], i), log[n].1, name);
    }
  }

  lemma ByNameStep(ws: seq<Write>, w: Write, name: string)
    ensures ByName(ws + [w], name) == if w.name == name then ByName(ws, name) + [w] else ByName(ws, name)
  {
    assert (ws + [w])[..|ws|] == ws;
  }

  lemma {:induction false} NobodyLogs(sources: seq<CompiledSource>, log: seq<(nat, Write)>, name: string)
    requires LogNames(sources, log)
    requires forall i :: 0 <= i < |sources| ==> name !in AllMetricNames(sources[i])
    ensures ByName(LoggedWrites(log), name) == []
  {
    hide AllMetricNames;
    if log != [] {
      var n := |log| - 1;
      NobodyLogs(sources, log[..n], name);
      ByNameStep(LoggedWrites(log[..n]), log[n].1, name);
    }
  }

  lemma {:induction false} ByFeedContains(log: seq<(nat, Write)>, k: nat)
    requires k < |log|
    ensures log[k].1 in ByFeed(log, log[k].0)
  {
    var n := |log| - 1;
    if k < n { ByFeedContains(log[..n], k); }
  }

  /** Every logged write is one its feed's deliveries ask for. */
  lemma LoggedIsDelivered(lib: Lib, sources: seq<CompiledSource>, s: State, k: nat)
    requires AllReady(sources) && |s.feeds| == |sources| && StateOk(lib, sources, s) && k < |s.log|
    ensures s.log[k].0 < |sources|
    ensures s.log[k].1 in DeliveredWrites(lib, sources[s.log[k].0], s.feeds[s.log[k].0].taken)
  {
    hide Ready, DeliveredWrites, PutAll, Owns, Messages;
    var i := s.log[k].0;
    ByFeedContains(s.log, k);
    assert FeedOk(lib, sources[i], s.feeds[i], ByFeed(s.log, i));
    assert s.log[k].1 in ByFeed(s.log, i) + s.feeds[i].pending;
  }

  lemma LogNamesHold(lib: Lib, sources: seq<CompiledSource>, s: State)
    requires AllReady(sources) && |s.feeds| == |sources| && StateOk(lib, sources, s)
    ensures LogNames(sources, s.log)
  {
    hide Ready, StateOk, AllMetricNames, DeliveredWrites;
    forall k | 0 <= k < |s.log|
      ensures s.log[k].0 < |sources| && s.log[k].1.name in AllMetricNames(sources[s.log[k].0])
    {
      LoggedIsDelivered(lib, sources, s, k);
      var i := s.log[k].0;
      DeliveredNames(lib, sources[i], s.feeds[i].taken);
    }
  }

  /** The Sets each consumer has made so far. */
  ghost function MadeBy(s: State): seq<seq<Write>> {
    seq(|s.feeds|, i requires 0 <= i < |s.feeds| => ByFeed(s.log, i))
  }

  lemma PartNamesHold(lib: Lib, sources: seq<CompiledSource>, s: State)
    requires AllReady(sources) && |s.feeds| == |sources| && StateOk(lib, sources, s)
    ensures PartNames(sources, MadeBy(s))
  {
    hide Ready, AllMetricNames, DeliveredWrites, PutAll, Owns, Messages;
    forall i, w | 0 <= i < |sources| && w in ByFeed(s.log, i) ensures w.name in AllMetricNames(sources[i]) {
      assert FeedOk(lib, sources[i], s.feeds[i], ByFeed(s.log, i));
      assert w in ByFeed(s.log, i) + s.feeds[i].pending;
      DeliveredNames(lib, sources[i], s.feeds[i].taken);
    }
  }

  lemma {:induction false} OneByOneNames(sources: seq<CompiledSource>, parts: seq<seq<Write>>)
    requires PartNames(sources, parts) && CleanMetrics(sources)
    ensures forall w :: w in OneByOne(parts) ==> Clean(w.name)
  {
    hide AllMetricNames, Clean;
    if parts != [] {
      var n := |parts| - 1;
      OneByOneNames(sources[..n], parts[..n]);
    }
  }

  lemma {:induction false} LoggedAt(log: seq<(nat, Write)>, k: nat)
    requires k < |log|
    ensures |LoggedWrites(log)| == |log| && LoggedWrites(log)[k] == log[k].1
  {
    var n := |log| - 1;
    if n > 0 { LoggedAt(log[..n], if k < n then k else 0); }
  }

  /** The consumers may interleave as they like: at every moment the store is the
      one reached by making the Sets of one source after another, each source's
      being those its messages ask for, up to the ones the last still has to make. */
  lemma InterleavingDoesNotMatter(lib: Lib, sources: seq<CompiledSource>, actions: seq<Action>)
    requires AllReady(sources) && MetricsDisjoint(sources) && CleanMetrics(sources)
    ensures var s := Run(lib, sources, Started(sources), actions);
            && s.store == PutAll(lib.round, OneByOne(MadeBy(s)))
            && forall i :: 0 <= i < |sources| ==>
                 MadeBy(s)[i] + s.feeds[i].pending == DeliveredWrites(lib, sources[i], s.feeds[i].taken)
  {
    hide Ready, DeliveredWrites, AllMetricNames, PutAll, OneByOne, MetricsDisjoint, Clean, PartNames;
    RunKeepsState(lib, sources, actions);
    var s := Run(lib, sources, Started(sources), actions);
    LogNamesHold(lib, sources, s);
    PartNamesHold(lib, sources, s);
    var ws, ws' := LoggedWrites(s.log), OneByOne(MadeBy(s));
    LoggedNamesAreClean(sources, s.log);
    OneByOneNames(sources, MadeBy(s));
    forall name ensures ByName(ws, name) == ByName(ws', name) { SameWritesByName(sources, s, name); }
    FamiliesAreIndependent(lib.round, ws, ws');
    forall i | 0 <= i < |sources|
      ensures MadeBy(s)[i] + s.feeds[i].pending == DeliveredWrites(lib, sources[i], s.feeds[i].taken)
    {
      assert FeedOk(lib, sources[i], s.feeds[i], ByFeed(s.log, i));
    }
  }

  lemma LoggedNamesAreClean(sources: seq<CompiledSource>, log: seq<(nat, Write)>)
    requires LogNames(sources, log) && CleanMetrics(sources)
    ensures CleanNames(LoggedWrites(log))
  {
    hide AllMetricNames, Clean;
    if log != [] { LoggedAt(log, 0); }
    forall k | 0 <= k < |log| ensures Clean(LoggedWrites(log)[k].name) { LoggedAt(log, k); }
  }

  lemma SameWritesByName(sources: seq<CompiledSource>, s: State, name: string)
    requires |s.feeds| == |sources| && PartNames(sources, MadeBy(s))
    requires MetricsDisjoint(sources) && LogNames(sources, s.log)
    ensures ByName(LoggedWrites(s.log), name) == ByName(OneByOne(MadeBy(s)), name)
  {
    hide AllMetricNames, OneByOne, MetricsDisjoint, LogNames, PartNames;
    if i :| 0 <= i < |sources| && name in AllMetricNames(sources[i]) {
      OwnerLogs(sources, s.log, i, name);
      OwnerWrites(sources, MadeBy(s), i, name);
    } else {
      NobodyLogs(sources, s.log, name);
      OthersDoNotWrite(sources, MadeBy(s), name);
    }
  }

  // ---------------------------------------------------------------- consistency

  lemma {:induction false} DeliveredIsPossible(lib: Lib, c: Config, i: nat, taken: seq<Delivery>, w: Write)
    requires Accepted(lib, c) && i < |c.SourceList|
    requires w in DeliveredWrites(lib, CompiledSources(lib, c)[i], taken)
    ensures Possible(lib, c, w)
  {
    hide Accepted, SourceEffect, Ready, CompiledFrom;
    if taken != [] {
      var n := |taken| - 1;
      if w in DeliveredWrites(lib, CompiledSources(lib, c)[i], taken[..n]) {
        DeliveredIsPossible(lib, c, i, taken[..n], w);
      } else {
        assert w in SourceEffect(lib, CompiledSources(lib, c)[i], taken[n].now, taken[n].msg).writes;
      }
    }
  }

  /** Every write of a run under an accepted configuration is a possible one. */
  lemma RunWritesArePossible(lib: Lib, c: Config, actions: seq<Action>)
    requires Accepted(lib, c)
    ensures var sources := CompiledSources(lib, c);
            var s := Run(lib, sources, Started(sources), actions);
            AllPossible(lib, c, LoggedWrites(s.log)) && s.store == PutAll(lib.round, LoggedWrites(s.log))
  {
    hide Accepted, Ready, CompiledFrom, DeliveredWrites, PutAll, Possible, FeedsOk;
    var sources := CompiledSources(lib, c);
    RunKeepsState(lib, sources, actions);
    var s := Run(lib, sources, Started(sources), actions);
    if s.log != [] { LoggedAt(s.log, 0); }
    forall k | 0 <= k < |LoggedWrites(s.log)| ensures Possible(lib, c, LoggedWrites(s.log)[k]) {
      LoggedAt(s.log, k);
      LoggedIsDelivered(lib, sources, s, k);
      DeliveredIsPossible(lib, c, s.log[k].0, s.feeds[s.log[k].0].taken, s.log[k].1);
    }
  }

  /** The store in a run under an accepted configuration. */
  ghost function StoreAfter(lib: Lib, c: Config, actions: seq<Action>): Contents
    requires Accepted(lib, c)
  {
    Run(lib, CompiledSources(lib, c), Started(CompiledSources(lib, c)), actions).store
  }

  /** Every Set made so far in such a run. */
  ghost function SetsOf(lib: Lib, c: Config, actions: seq<Action>): seq<Write>
    requires Accepted(lib, c)
  {
    LoggedWrites(Run(lib, CompiledSources(lib, c), Started(CompiledSources(lib, c)), actions).log)
  }

  /** Validate's promise. In every run of the router under a configuration it
      accepts, at every moment, all samples of a snapshot that share a name agree on
      label names, help and kind, and no two samples are the same series, as long as
      the sources cannot overwrite each other's series. */
  lemma ValidatedScrapesNeverDisagree(lib: Lib, c: Config, actions: seq<Action>, out: seq<Sample>)
    requires Accepted(lib, c) && NeverOverwritten(lib, c)
    requires IsSnapshot(lib.round, StoreAfter(lib, c, actions), out)
    ensures forall i, j :: 0 <= i < |out| && 0 <= j < |out| && out[i].Key.Name == out[j].Key.Name ==>
              out[i].Key.LabelNames == out[j].Key.LabelNames && out[i].Help == out[j].Help && out[i].Kind == out[j].Kind
    ensures forall i, j :: 0 <= i < j < |out| ==> out[i].Key != out[j].Key
  {
    hide Accepted, PutAll, IsSnapshot, AllPossible, NeverOverwritten, Ready, CompiledFrom, Run;
    RunWritesArePossible(lib, c, actions);
    ScrapesAreConsistent(lib, c, lib.round, SetsOf(lib, c, actions), out);
  }

  /** In every run, when kinds are kept, every series shows the writes filed under
      its identity: a gauge the last value, a counter the last reading and the
      readings before each drop. */
  lemma EverySeriesShowsItsWrites(lib: Lib, c: Config, actions: seq<Action>, id: string)
    requires Accepted(lib, c) && KindsKept(lib, c)
    requires id in StoreAfter(lib, c, actions)
    ensures var history := WritesTo(SetsOf(lib, c, actions), id);
            history != [] && Shows(lib.round, StoreAfter(lib, c, actions)[id], history)
  {
    hide Accepted, PutAll, AllPossible, KindsKept, Ready, CompiledFrom, Run, Shows;
    RunWritesArePossible(lib, c, actions);
    SeriesExports(lib, c, lib.round, SetsOf(lib, c, actions), id);
  }

  /** Under any accepted configuration, a metric name with labels whose identity no
      other Set of the run has shows the Sets made with that name and those labels.
      NUL-free names and label values are never shared. */
  lemma EveryKeyShowsItsWrites(lib: Lib, c: Config, actions: seq<Action>, k: PlainKey)
    requires Accepted(lib, c) && WritesToKey(SetsOf(lib, c, actions), k) != []
    ensures Unshared(SetsOf(lib, c, actions), k) ==>
              && KeyId(k) in StoreAfter(lib, c, actions)
              && Shows(lib.round, StoreAfter(lib, c, actions)[KeyId(k)], WritesToKey(SetsOf(lib, c, actions), k))
    ensures CleanWrites(SetsOf(lib, c, actions)) && CleanKey(k) ==> Unshared(SetsOf(lib, c, actions), k)
  {
    hide Accepted, PutAll, AllPossible, Ready, CompiledFrom, Run, Shows, CleanWrites, CleanKey, Unshared, WritesToKey;
    RunWritesArePossible(lib, c, actions);
    var ws := SetsOf(lib, c, actions);
    if Unshared(ws, k) { KeyExports(lib, c, lib.round, ws, k); }
    if CleanWrites(ws) && CleanKey(k) { CleanIsUnshared(ws, k); }
  }

  lemma LogKept(lib: Lib, sources: seq<CompiledSource>, s: State, a: Action)
    requires AllReady(sources) && |s.feeds| == |sources| && !a.SetNext?
    ensures Step(lib, sources, s, a).log == s.log
  {
    hide Ready, SourceEffect, Put, Owns, Reasons, Counted;
  }

  lemma LogOnlyGrows(lib: Lib, sources: seq<CompiledSource>, s: State, a: Action)
    requires AllReady(sources) && |s.feeds| == |sources|
    ensures LoggedWrites(s.log) <= LoggedWrites(Step(lib, sources, s, a).log)
  {
    if a.SetNext? {
      hide Ready, Put, LoggedWrites;
      if a.feed < |sources| && s.feeds[a.feed].pending != [] {
        LogStep(s.log, a.feed, s.feeds[a.feed].pending[0]);
      }
    } else {
      LogKept(lib, sources, s, a);
      hide Step, LoggedWrites;
    }
  }

  /** A later moment of a run has made the same Sets and more. */
  lemma {:induction false} SetsOnlyGrow(lib: Lib, c: Config, actions: seq<Action>, k: nat)
    requires Accepted(lib, c) && k <= |actions|
    ensures SetsOf(lib, c, actions[..k]) <= SetsOf(lib, c, actions)
  {
    hide Accepted, Ready, CompiledFrom, Step, LoggedWrites;
    var n := |actions| - 1;
    if k == |actions| {
      assert actions[..k] == actions;
    } else {
      SetsOnlyGrow(lib, c, actions[..n], k);
      assert actions[..n][..k] == actions[..k];
      var sources := CompiledSources(lib, c);
      LogOnlyGrows(lib, sources, Run(lib, sources, Started(sources), actions[..n]), actions[n]);
    }
  }

  lemma {:induction false} HistoryGrows(ws: seq<Write>, n: nat, id: string)
    requires n <= |ws|
    ensures WritesTo(ws[..n], id) <= WritesTo(ws, id)
  {
    hide WriteId;
    if n == |ws| {
      assert ws[..n] == ws;
    } else {
      HistoryGrows(ws[..|ws| - 1], n, id);
      assert ws[..|ws| - 1][..n] == ws[..n];
    }
  }

  /** During such a run, rounding included, the exported value of a counter never
      falls while no reading of it is both a drop and negative. */
  lemma CountersNeverFall(lib: Lib, c: Config, actions: seq<Action>, k: nat, id: string)
    requires Accepted(lib, c) && KindsKept(lib, c) && FloatRounding(lib.round)
    requires k <= |actions| && NoNegativeDrop(WritesTo(SetsOf(lib, c, actions), id))
    requires id in StoreAfter(lib, c, actions[..k]) && StoreAfter(lib, c, actions[..k])[id].kind == Counter
    ensures id in StoreAfter(lib, c, actions)
    ensures Exported(lib.round, StoreAfter(lib, c, actions[..k])[id]) <=
            Exported(lib.round, StoreAfter(lib, c, actions)[id])
  {
    hide Accepted, PutAll, AllPossible, KindsKept, OneKind, Ready, CompiledFrom, Run,
        FloatRounding, NoNegativeDrop, WritesTo, Replay, AllOfKind, Exported;
    var ws, ws0 := SetsOf(lib, c, actions), SetsOf(lib, c, actions[..k]);
    RunWritesArePossible(lib, c, actions);
    RunWritesArePossible(lib, c, actions[..k]);
    SetsOnlyGrow(lib, c, actions, k);
    assert ws0 == ws[..|ws0|];
    HistoryGrows(ws, |ws0|, id);
    HistoryDecides(lib.round, ws, id);
    HistoryDecides(lib.round, ws0, id);
    KeptIsOneKind(lib, c, ws);
    KindsNeverChange(ws, id);
    CounterHistory(lib.round, WritesTo(ws0, id), WritesTo(ws, id));
  }

  lemma CounterHistory(round: real -> real, before: seq<Write>, all: seq<Write>)
    requires before != [] && before <= all && AllOfKind(all, all[|all| - 1].kind)
    requires Replay(round, before).kind == Counter && FloatRounding(round) && NoNegativeDrop(all)
    ensures Exported(round, Replay(round, before)) <= Exported(round, Replay(round, all))
  {
    hide Replay, FloatRounding, NoNegativeDrop;
    ReplayFields(round, before);
    assert before[|before| - 1] == all[|before| - 1];
    CounterNeverDecreases(round, all, |before|, |all|);
    assert all[..|before|] == before && all[..|all|] == all;
  }

  /** In every run the snapshot is a function of the store exactly when no two
      samples tie, and nothing ties when names and label values are NUL-free. */
  lemma EverySnapshotIsDetermined(lib: Lib, c: Config, actions: seq<Action>, out: seq<Sample>)
    requires Accepted(lib, c) && IsSnapshot(lib.round, StoreAfter(lib, c, actions), out)
    ensures (forall out' :: IsSnapshot(lib.round, StoreAfter(lib, c, actions), out') ==> out' == out) <==>
            TieFree(SamplesOf(lib.round, StoreAfter(lib, c, actions)))
    ensures CleanWrites(SetsOf(lib, c, actions)) ==> TieFree(SamplesOf(lib.round, StoreAfter(lib, c, actions)))
  {
    hide Accepted, PutAll, IsSnapshot, AllPossible, Ready, CompiledFrom, Run, CleanWrites, TieFree, SamplesOf;
    RunWritesArePossible(lib, c, actions);
    var ws := SetsOf(lib, c, actions);
    SnapshotIsUniqueExactly(lib.round, StoreAfter(lib, c, actions), out);
    if CleanWrites(ws) { CleanStoresHaveNoTies(lib, c, lib.round, ws); }
  }

  // ---------------------------------------------------- the values a run writes

  lemma {:induction false} DeliveredBy(lib: Lib, src: CompiledSource, taken: seq<Delivery>, w: Write)
    returns (d: Delivery)
    requires Ready(src) && w in DeliveredWrites(lib, src, taken)
    ensures d in taken && w in SourceEffect(lib, src, d.now, d.msg).writes
  {
    hide Ready, SourceEffect;
    var n := |taken| - 1;
    if w in DeliveredWrites(lib, src, taken[..n]) {
      d := DeliveredBy(lib, src, taken[..n], w);
    } else {
      d := taken[n];
    }
  }

  /** Every Set of a run is a sample with the number a rule read from a message the
      feed took, or a heartbeat with the time such a message was taken. */
  lemma LoggedValues(lib: Lib, sources: seq<CompiledSource>, actions: seq<Action>, k: nat) returns (d: Delivery)
    requires AllReady(sources) && k < |Run(lib, sources, Started(sources), actions).log|
    ensures var s := Run(lib, sources, Started(sources), actions);
            var i, w := s.log[k].0, s.log[k].1;
            && i < |sources| && d in s.feeds[i].taken && w in SourceEffect(lib, sources[i], d.now, d.msg).writes
            && (SampleOfSome(lib, sources[i].rules, d.msg, w) || Heartbeat(sources[i], d.now, w))
  {
    hide Ready, Run, StateOk, DeliveredWrites, SourceEffect, SampleOfSome, Heartbeat;
    RunKeepsState(lib, sources, actions);
    var s := Run(lib, sources, Started(sources), actions);
    LoggedIsDelivered(lib, sources, s, k);
    var i, w := s.log[k].0, s.log[k].1;
    d := DeliveredBy(lib, sources[i], s.feeds[i].taken, w);
    assert Ready(sources[i]);
    ReadyOfRules(sources[i]);
    WritesAreSamplesOrHeartbeats(lib, sources[i], d.now, d.msg, w);
  }

  lemma ReadyOfRules(s: CompiledSource)
    requires Ready(s)
    ensures ReadyRules(s.rules)
  {}

  ghost predicate IsMetricOf(s: CompiledSource, name: string) {
    exists k :: 0 <= k < |s.rules| && s.rules[k].MetricName == name
  }

  ghost predicate IsHeartbeatOf(s: CompiledSource, name: string) {
    s.lastUpdatedMetric == name || exists k :: 0 <= k < |s.rules| && s.rules[k].LastUpdatedMetric == name
  }

  /** A Set under a heartbeat name that is no metric_name of the source has the time a
      message was taken. */
  lemma LoggedHeartbeats(lib: Lib, sources: seq<CompiledSource>, actions: seq<Action>, k: nat) returns (d: Delivery)
    requires AllReady(sources) && k < |Run(lib, sources, Started(sources), actions).log|
    ensures var s := Run(lib, sources, Started(sources), actions);
            var i, w := s.log[k].0, s.log[k].1;
            && i < |sources| && d in s.feeds[i].taken
            && (!IsMetricOf(sources[i], w.name) ==> w.kind == Gauge && w.value == d.now)
            && (!IsHeartbeatOf(sources[i], w.name) ==> SampleOfSome(lib, sources[i].rules, d.msg, w))
  {
    hide Ready, Run, SourceEffect, Evaluate, Extracted;
    d := LoggedValues(lib, sources, actions, k);
  }

  lemma {:induction false} LoggedFrom(log: seq<(nat, Write)>, w: Write) returns (k: nat)
    requires w in LoggedWrites(log)
    ensures k < |log| && log[k].1 == w
  {
    var n := |log| - 1;
    if w in LoggedWrites(log[..n]) {
      k := LoggedFrom(log[..n], w);
    } else {
      k := n;
    }
  }

  /** What a heartbeat shows: in every run that keeps kinds, a series last written
      under a name that is no metric_name shows the time a message was taken. */
  lemma HeartbeatsShowDeliveryTimes(lib: Lib, c: Config, actions: seq<Action>, id: string)
    returns (i: nat, d: Delivery)
    requires Accepted(lib, c) && KindsKept(lib, c) && id in StoreAfter(lib, c, actions)
    requires forall j, w :: 0 <= j < |c.SourceList| && w in WritesTo(SetsOf(lib, c, actions), id) ==>
               !IsMetricOf(CompiledSources(lib, c)[j], w.name)
    ensures var s := Run(lib, CompiledSources(lib, c), Started(CompiledSources(lib, c)), actions);
            i < |s.feeds| && d in s.feeds[i].taken
    ensures Exported(lib.round, StoreAfter(lib, c, actions)[id]) == lib.round(d.now)
  {
    hide Accepted, KindsKept, Ready, CompiledFrom, IsMetricOf, IsHeartbeatOf, SampleOfSome, Run, LoggedWrites,
        Exported, Replay;
    EverySeriesShowsItsWrites(lib, c, actions, id);
    var sources := CompiledSources(lib, c);
    var s := Run(lib, sources, Started(sources), actions);
    var history := WritesTo(SetsOf(lib, c, actions), id);
    var w := history[|history| - 1];
    assert w in history;
    WritesToAreWrites(SetsOf(lib, c, actions), id);
    var k := LoggedFrom(s.log, w);
    d := LoggedHeartbeats(lib, sources, actions, k);
    i := s.log[k].0;
  }

  /** The sources of an accepted configuration have different names, so each has a
      counter of its own. */
  lemma AcceptedNamesAreDistinct(lib: Lib, c: Config)
    requires Accepted(lib, c)
    ensures NamesDistinct(CompiledSources(lib, c))
  {
    hide SourceOk, UsesAgree, Ready;
    var sources := CompiledSources(lib, c);
    CompiledSourcesAre(lib, c);
    forall i, j | 0 <= i < j < |sources| ensures sources[i].name != sources[j].name {
      assert CompiledFrom(lib, c, c.SourceList[i], sources[i]) && CompiledFrom(lib, c, c.SourceList[j], sources[j]);
    }
  }

  // -------------------------------------------------- nothing happens unasked

  /** What a step changes of a message in hand: nothing, or it begins, makes its next
      Set, counts its next problem, or ends. */
  ghost predicate HandMoves(lib: Lib, src: CompiledSource, f: Feed, f': Feed)
    requires Ready(src)
  {
    || !f'.busy
    || (f'.busy == f.busy && f'.taken == f.taken && f'.pending == f.pending && f'.problems == f.problems)
    || (f'.taken != [] &&
        var d := f'.taken[|f'.taken| - 1];
        var e := SourceEffect(lib, src, d.now, d.msg);
        f'.pending == e.writes && f'.problems == e.problems)
    || (f.pending != [] && f'.busy == f.busy && f'.taken == f.taken && f'.pending == f.pending[1..] &&
        f'.problems == f.problems)
    || (f.pending == [] && f.problems != [] && f'.busy == f.busy && f'.taken == f.taken && f'.pending == [] &&
        f'.problems == f.problems[1..])
  }

  /** A step of feed `i` that leaves all flags as they are. */
  ghost predicate Moves(lib: Lib, src: CompiledSource, s: State, s': State, i: nat)
    requires Ready(src) && i < |s.feeds|
  {
    && s'.cancelled == s.cancelled && s'.attached == s.attached && |s'.feeds| == |s.feeds|
    && s'.feeds == s.feeds[i := s'.feeds[i]] && s'.feeds[i].exited == s.feeds[i].exited
    && HandMoves(lib, src, s.feeds[i], s'.feeds[i])
  }

  lemma OfferMoves(lib: Lib, src: CompiledSource, s: State, i: nat, msg: Message)
    requires Ready(src) && i < |s.feeds|
    ensures Moves(lib, src, s, OfferTo(src, s, i, msg), i)
  {
    hide SourceEffect, Ready, Owns;
    assert s.feeds[i := s.feeds[i]] == s.feeds;
  }

  lemma CountMoves(lib: Lib, src: CompiledSource, s: State, i: nat)
    requires Ready(src) && i < |s.feeds|
    ensures Moves(lib, src, s, CountReceivedOf(src, s, i), i) && Moves(lib, src, s, CountDroppedOf(s, i), i)
  {
    hide SourceEffect, Ready, Owns;
    assert s.feeds[i := s.feeds[i]] == s.feeds;
  }

  lemma TakeMoves(lib: Lib, src: CompiledSource, s: State, i: nat, now: real)
    requires Ready(src) && i < |s.feeds|
    ensures Moves(lib, src, s, TakeFrom(lib, src, s, i, now), i)
  {
    hide SourceEffect, Ready;
    assert s.feeds[i := s.feeds[i]] == s.feeds;
  }

  lemma HandlingMoves(lib: Lib, src: CompiledSource, s: State, i: nat)
    requires Ready(src) && i < |s.feeds|
    ensures Moves(lib, src, s, SetBy(lib, s, i), i) && Moves(lib, src, s, CountErrorOf(src, s, i), i)
    ensures Moves(lib, src, s, FinishOf(s, i), i)
  {
    hide SourceEffect, Ready, Put;
    assert s.feeds[i := s.feeds[i]] == s.feeds;
  }

  lemma StepMoves(lib: Lib, sources: seq<CompiledSource>, s: State, a: Action)
    requires AllReady(sources) && |s.feeds| == |sources|
    requires !a.Detach? && !a.Cancel? && !a.Exit? && a.feed < |sources|
    ensures Moves(lib, sources[a.feed], s, Step(lib, sources, s, a), a.feed)
  {
    hide Ready, Moves, OfferTo, CountReceivedOf, CountDroppedOf, TakeFrom, SetBy, CountErrorOf, FinishOf;
    var i, src := a.feed, sources[a.feed];
    match a
    case Offer(_, msg) => OfferMoves(lib, src, s, i, msg);
    case CountReceived(_) => CountMoves(lib, src, s, i);
    case CountDropped(_) => CountMoves(lib, src, s, i);
    case Take(_, now) => TakeMoves(lib, src, s, i, now);
    case SetNext(_) => HandlingMoves(lib, src, s, i);
    case CountError(_) => HandlingMoves(lib, src, s, i);
    case Finish(_) => HandlingMoves(lib, src, s, i);
  }

  lemma FlagStep(lib: Lib, sources: seq<CompiledSource>, s: State, a: Action, i: nat)
    requires AllReady(sources) && |s.feeds| == |sources| && i < |sources|
    ensures var s' := Step(lib, sources, s, a);
            && (s'.cancelled <==> s.cancelled || a.Cancel?)
            && (s'.attached <==> s.attached && !(a.Detach? && Counted(s)))
            && (s'.feeds[i].exited <==> s.feeds[i].exited || (a == Exit(i) && s.cancelled && !s.feeds[i].busy))
  {
    hide Ready, Counted, HandMoves;
    if !a.Detach? && !a.Cancel? && !a.Exit? && a.feed < |sources| {
      StepMoves(lib, sources, s, a);
      hide Step;
    }
  }

  /** Action `k` is a Detach when no Dispatch is between a select and its count. */
  ghost predicate DetachesAt(lib: Lib, sources: seq<CompiledSource>, actions: seq<Action>, k: nat)
    requires AllReady(sources)
  {
    k < |actions| && actions[k] == Detach && Counted(Run(lib, sources, Started(sources), actions[..k]))
  }

  /** Action `k` is the exit of consumer `i`, cancelled and idle. */
  ghost predicate ExitsAt(lib: Lib, sources: seq<CompiledSource>, actions: seq<Action>, i: nat, k: nat)
    requires AllReady(sources) && i < |sources|
  {
    k < |actions| && actions[k] == Exit(i) &&
    var s := Run(lib, sources, Started(sources), actions[..k]);
    s.cancelled && !s.feeds[i].busy
  }

  lemma OneActionMore(lib: Lib, sources: seq<CompiledSource>, actions: seq<Action>, i: nat, k: nat)
    requires AllReady(sources) && i < |sources| && actions != []
    ensures var n := |actions| - 1;
            && (k < n ==> (DetachesAt(lib, sources, actions, k) <==> DetachesAt(lib, sources, actions[..n], k)))
            && (k < n ==> (ExitsAt(lib, sources, actions, i, k) <==> ExitsAt(lib, sources, actions[..n], i, k)))
            && (k > n ==> !DetachesAt(lib, sources, actions, k) && !ExitsAt(lib, sources, actions, i, k))
            && (k >= n ==> !DetachesAt(lib, sources, actions[..n], k) && !ExitsAt(lib, sources, actions[..n], i, k))
  {
    hide Ready, Counted, Run;
    if k < |actions| - 1 { assert actions[..|actions| - 1][..k] == actions[..k]; }
  }

  /** Consumers are cancelled and feeds detached only when asked for, the feeds when
      no Dispatch is under way, and a consumer returns only when cancelled and idle. */
  lemma {:induction false} NothingEndsUnasked(lib: Lib, sources: seq<CompiledSource>, actions: seq<Action>, i: nat)
    requires AllReady(sources) && i < |sources|
    ensures var s := Run(lib, sources, Started(sources), actions);
            && (s.cancelled <==> Cancel in actions)
            && (!s.attached <==> exists k: nat :: DetachesAt(lib, sources, actions, k))
            && (s.feeds[i].exited <==> exists k: nat :: ExitsAt(lib, sources, actions, i, k))
  {
    hide Ready, Step, Counted, DetachesAt, ExitsAt;
    if actions == [] {
      forall k: nat ensures !DetachesAt(lib, sources, [], k) && !ExitsAt(lib, sources, [], i, k) {
        NoActionYet(lib, sources, i, k);
      }
    } else {
      var n := |actions| - 1;
      var s := Run(lib, sources, Started(sources), actions[..n]);
      NothingEndsUnasked(lib, sources, actions[..n], i);
      FlagStep(lib, sources, s, actions[n], i);
      assert Cancel in actions <==> Cancel in actions[..n] || actions[n] == Cancel by {
        assert actions == actions[..n] + [actions[n]];
      }
      LastAction(lib, sources, actions, i);
      OneActionMoreOfAll(lib, sources, actions, i);
    }
  }

  lemma OneActionMoreOfAll(lib: Lib, sources: seq<CompiledSource>, actions: seq<Action>, i: nat)
    requires AllReady(sources) && i < |sources| && actions != []
    ensures var n := |actions| - 1;
            && ((exists k: nat :: DetachesAt(lib, sources, actions, k)) <==>
                DetachesAt(lib, sources, actions, n) || exists k: nat :: DetachesAt(lib, sources, actions[..n], k))
            && ((exists k: nat :: ExitsAt(lib, sources, actions, i, k)) <==>
                ExitsAt(lib, sources, actions, i, n) || exists k: nat :: ExitsAt(lib, sources, actions[..n], i, k))
  {
    hide Ready, DetachesAt, ExitsAt;
    var n := |actions| - 1;
    if k: nat :| DetachesAt(lib, sources, actions, k) { OneActionMore(lib, sources, actions, i, k); }
    if k: nat :| DetachesAt(lib, sources, actions[..n], k) { OneActionMore(lib, sources, actions, i, k); }
    if k: nat :| ExitsAt(lib, sources, actions, i, k) { OneActionMore(lib, sources, actions, i, k); }
    if k: nat :| ExitsAt(lib, sources, actions[..n], i, k) { OneActionMore(lib, sources, actions, i, k); }
  }

  lemma NoActionYet(lib: Lib, sources: seq<CompiledSource>, i: nat, k: nat)
    requires AllReady(sources) && i < |sources|
    ensures !DetachesAt(lib, sources, [], k) && !ExitsAt(lib, sources, [], i, k)
  {}

  lemma LastAction(lib: Lib, sources: seq<CompiledSource>, actions: seq<Action>, i: nat)
    requires AllReady(sources) && i < |sources| && actions != []
    ensures var n := |actions| - 1;
            var s := Run(lib, sources, Started(sources), actions[..n]);
            && (DetachesAt(lib, sources, actions, n) <==> actions[n] == Detach && Counted(s))
            && (ExitsAt(lib, sources, actions, i, n) <==> actions[n] == Exit(i) && s.cancelled && !s.feeds[i].busy)
  {
    hide Ready, Counted, Run;
  }

  predicate IsTail<T(==)>(rest: seq<T>, all: seq<T>) {
    |rest| <= |all| && rest == all[|all| - |rest|..]
  }

  /** What is left of a message: its last Sets, and the problems still to count, all
      of them while a Set is left. */
  predicate IsLeftOf(pending: seq<Write>, problems: seq<RuleError>, e: Effect) {
    && IsTail(pending, e.writes) && IsTail(problems, e.problems)
    && (pending != [] ==> problems == e.problems)
  }

  lemma LessIsLeft(pending: seq<Write>, problems: seq<RuleError>, e: Effect)
    requires IsLeftOf(pending, problems, e)
    ensures pending != [] ==> IsLeftOf(pending[1..], problems, e)
    ensures pending == [] && problems != [] ==> IsLeftOf(pending, problems[1..], e)
  {}

  ghost predicate InHand(lib: Lib, src: CompiledSource, f: Feed)
    requires Ready(src)
  {
    f.busy ==>
      && f.taken != []
      && var d := f.taken[|f.taken| - 1];
         IsLeftOf(f.pending, f.problems, SourceEffect(lib, src, d.now, d.msg))
  }

  /** A consumer makes the Sets of its message in order, and only then counts the
      problems, in order. */
  lemma {:induction false} MessagesAreHandledInOrder(lib: Lib, sources: seq<CompiledSource>, actions: seq<Action>,
                                                     i: nat)
    requires AllReady(sources) && i < |sources|
    ensures InHand(lib, sources[i], Run(lib, sources, Started(sources), actions).feeds[i])
  {
    hide Ready, Step, InHand;
    if actions == [] {
      IdleIsInHand(lib, sources[i], FreshFeed());
    } else {
      var n := |actions| - 1;
      MessagesAreHandledInOrder(lib, sources, actions[..n], i);
      InHandStep(lib, sources, Run(lib, sources, Started(sources), actions[..n]), actions[n], i);
    }
  }

  lemma IdleIsInHand(lib: Lib, src: CompiledSource, f: Feed)
    requires Ready(src) && !f.busy
    ensures InHand(lib, src, f)
  {}

  lemma InHandStep(lib: Lib, sources: seq<CompiledSource>, s: State, a: Action, i: nat)
    requires AllReady(sources) && |s.feeds| == |sources| && i < |sources| && InHand(lib, sources[i], s.feeds[i])
    ensures InHand(lib, sources[i], Step(lib, sources, s, a).feeds[i])
  {
    hide Ready, SourceEffect, IsLeftOf, Counted, HandMoves;
    if !a.Detach? && !a.Cancel? && !a.Exit? && a.feed < |sources| {
      StepMoves(lib, sources, s, a);
      if a.feed == i { MoveKeepsHand(lib, sources[i], s.feeds[i], Step(lib, sources, s, a).feeds[i]); }
      hide Step;
    }
  }

  lemma MoveKeepsHand(lib: Lib, src: CompiledSource, f: Feed, f': Feed)
    requires Ready(src) && InHand(lib, src, f) && HandMoves(lib, src, f, f')
    ensures InHand(lib, src, f')
  {
    hide Ready, SourceEffect, IsLeftOf;
    if f'.busy && f'.taken != [] {
      var d := f'.taken[|f'.taken| - 1];
      var e := SourceEffect(lib, src, d.now, d.msg);
      AllIsLeft(e);
      if f.busy && f'.taken == f.taken { LessIsLeft(f.pending, f.problems, e); }
    }
  }

  lemma AllIsLeft(e: Effect)
    ensures IsLeftOf(e.writes, e.problems, e)
  {}
}
