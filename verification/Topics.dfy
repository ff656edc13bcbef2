/** Which messages a source owns, compared with the topics its filter matches in
    the sense of section 4.7.1 of MQTT Version 5.0. */
module Topics {
  import opened Text
  import opened Sources

  function Levels(s: string): seq<string> {
    Split(s, '/')
  }

  /** Sections 4.7.1.2 and 4.7.1.3: `#` as the last level stands for the parent
      and any number of child levels, `+` for exactly one level. */
  predicate MatchLevels(filter: seq<string>, topic: seq<string>) {
    if filter == ["#"] then true
    else if filter == [] then topic == []
    else topic != [] && (filter[0] == "+" || filter[0] == topic[0]) && MatchLevels(filter[1..], topic[1..])
  }

  predicate Matches(filter: string, topic: string) {
    MatchLevels(Levels(filter), Levels(topic))
  }

  /** A topic name contains no wildcard. */
  predicate IsTopicName(s: string) {
    forall i :: 0 <= i < |s| ==> !IsWildcard(s[i])
  }

  lemma FirstAndRest(a: string, x: string)
    requires a != ""
    ensures a + x == [a[0]] + (a[1..] + x)
  {}

  lemma {:induction false} PrefixSkips(a: string, x: string)
    requires IsTopicName(a)
    ensures TopicPrefix(a + x) == a + TopicPrefix(x)
  {
    if a == "" {
      assert a + x == x && a + TopicPrefix(x) == TopicPrefix(x);
    } else {
      PrefixSkips(a[1..], x);
      assert (a + x)[0] == a[0] && (a + x)[1..] == a[1..] + x;
      FirstAndRest(a, TopicPrefix(x));
    }
  }

  /** Owned, unless the topic is the parent of a filter ending in `/#`. */
  ghost predicate OwnedUnlessParent(filter: string, topic: string) {
    Owns(TopicPrefix(filter), topic) <==> filter != topic + "/#"
  }

  ghost predicate TopicLevels(t: seq<string>) {
    forall i :: 0 <= i < |t| ==> IsTopicName(t[i])
  }

  lemma {:induction false} LevelsOwned(f: seq<string>, t: seq<string>)
    requires f != [] && t != [] && MatchLevels(f, t) && TopicLevels(t)
    ensures OwnedUnlessParent(Join(f, '/'), Join(t, '/'))
  {
    if f == ["#"] || f[0] == "+" {
      WildcardFirst(f, t);
    } else if |f| == 1 {
      assert f[1..] == [];
      WholeFilter(t[0]);
      assert Join(f, '/') == t[0] == Join(t, '/');
    } else if |t| == 1 {
      assert t[1..] == [] && f[1..] == ["#"];
      ParentLevel(t[0]);
      assert Join(["#"], '/') == "#";
    } else {
      LevelsOwned(f[1..], t[1..]);
      OneLevelDeeper(t[0], Join(f[1..], '/'), Join(t[1..], '/'));
    }
  }

  lemma {:induction false} JoinedTopicName(t: seq<string>)
    requires TopicLevels(t)
    ensures IsTopicName(Join(t, '/'))
  {
    if |t| > 1 { JoinedTopicName(t[1..]); }
  }

  lemma WildcardFirst(f: seq<string>, t: seq<string>)
    requires f != [] && (f[0] == "+" || f[0] == "#") && t != [] && TopicLevels(t)
    ensures OwnedUnlessParent(Join(f, '/'), Join(t, '/'))
  {
    JoinedTopicName(t);
    var filter, topic := Join(f, '/'), Join(t, '/');
    assert filter != "" && IsWildcard(filter[0]);
    assert TopicPrefix(filter) == "" && topic[..0] == "";
    assert !IsWildcard((topic + "/#")[0]);
  }

  lemma WholeFilter(topic: string)
    requires IsTopicName(topic)
    ensures OwnedUnlessParent(topic, topic)
  {
    PrefixSkips(topic, "");
    assert topic + "" == topic;
    assert |topic + "/#"| == |topic| + 2;
  }

  lemma ParentLevel(topic: string)
    requires IsTopicName(topic)
    ensures topic + ['/'] + "#" == topic + "/#"
    ensures !Owns(TopicPrefix(topic + "/#"), topic)
  {
    PrefixSkips(topic + "/", "#");
    assert topic + "/" + "#" == topic + "/#";
  }

  lemma OneLevelDeeper(level: string, filter: string, topic: string)
    requires IsTopicName(level) && OwnedUnlessParent(filter, topic)
    ensures OwnedUnlessParent(level + ['/'] + filter, level + ['/'] + topic)
  {
    var head := level + ['/'];
    PrefixSkips(head, filter);
    PrefixOfBoth(head, TopicPrefix(filter), topic);
    assert head + topic + "/#" == head + (topic + "/#");
    assert head + filter == head + (topic + "/#") ==> filter == (head + filter)[|head|..] == topic + "/#";
  }

  lemma PrefixOfBoth(head: string, p: string, s: string)
    ensures Owns(head + p, head + s) <==> Owns(p, s)
  {
    if |p| <= |s| {
      assert (head + s)[..|head + p|] == head + s[..|p|];
      assert head + s[..|p|] == head + p ==> (head + s[..|p|])[|head|..] == (head + p)[|head|..];
    }
  }

  /** A source owns every topic its filter matches, except the parent level of a
      wildcard-free filter ending in `/#`, which it does not own. */
  lemma OwnsCoversTheFilter(filter: string, topic: string)
    requires IsTopicName(topic) && Matches(filter, topic)
    ensures Owns(TopicPrefix(filter), topic) <==> filter != topic + "/#"
  {
    JoinOfSplit(filter, '/');
    JoinOfSplit(topic, '/');
    LevelsAreTopicNames(topic);
    LevelsOwned(Levels(filter), Levels(topic));
  }

  lemma {:induction false} LevelsAreTopicNames(topic: string)
    requires IsTopicName(topic)
    ensures TopicLevels(Levels(topic))
  {
    if topic != "" {
      assert forall i :: 0 <= i < |topic| - 1 ==> topic[1..][i] == topic[i + 1];
      LevelsAreTopicNames(topic[1..]);
    }
  }

  lemma {:induction false} ParentLevelsMatch(t: seq<string>)
    ensures MatchLevels(t + ["#"], t)
  {
    if t == [] {
      assert t + ["#"] == ["#"];
    } else {
      ParentLevelsMatch(t[1..]);
      assert (t + ["#"])[0] == t[0] && (t + ["#"])[1..] == t[1..] + ["#"];
    }
  }

  /** The exception is real: a filter ending in `/#` matches its parent topic, and
      no source with that filter owns it. */
  lemma ParentIsMatchedNotOwned(topic: string)
    requires IsTopicName(topic)
    ensures Matches(topic + "/#", topic) && !Owns(TopicPrefix(topic + "/#"), topic)
  {
    assert topic + ['/'] + "#" == topic + "/#";
    SplitBoth(topic, "#", '/');
    SplitFirst("#", "", '/');
    ParentLevelsMatch(Levels(topic));
    ParentLevel(topic);
  }

  // ------------------------------------------------- what is owned and not matched

  /** The filter ends at a level with `#`, or with `+/#`, right after its
      wildcard-free prefix. */
  predicate Tight(filter: string) {
    var p := TopicPrefix(filter);
    (p == "" || p[|p| - 1] == '/') && (filter[|p|..] == "#" || filter[|p|..] == "+/#")
  }

  /** A filter whose first levels are those of `a`. */
  lemma {:induction false} MatchAfter(a: seq<string>, f: seq<string>, t: seq<string>)
    requires TopicLevels(a) && f != []
    ensures MatchLevels(a + f, a + t) <==> MatchLevels(f, t)
  {
    if a == [] {
      assert a + f == f && a + t == t;
    } else {
      MatchAfter(a[1..], f, t);
      assert (a + f)[0] == a[0] == (a + t)[0];
      assert (a + f)[1..] == a[1..] + f && (a + t)[1..] == a[1..] + t;
      assert |a + f| > 1;
    }
  }

  /** After a prefix ending in a slash, or none, only what follows has to match. */
  lemma MatchAfterPrefix(p: string, rest: string, more: string)
    requires IsTopicName(p) && (p == "" || p[|p| - 1] == '/')
    ensures Matches(p + rest, p + more) <==> Matches(rest, more)
  {
    if p == "" {
      assert p + rest == rest && p + more == more;
    } else {
      var q := p[..|p| - 1];
      assert q + ['/'] == p;
      SplitBoth(q, rest, '/');
      SplitBoth(q, more, '/');
      LevelsAreTopicNames(q);
      MatchAfter(Levels(q), Levels(rest), Levels(more));
    }
  }

  lemma LevelsOfTight()
    ensures Levels("#") == ["#"] && Levels("+/#") == ["+", "#"]
  {
    SplitFirst("#", "", '/');
    SplitFirst("+", "#", '/');
    assert "+" + ['/'] + "#" == "+/#";
  }

  lemma TightMatchesAll(filter: string, topic: string)
    requires Tight(filter) && Owns(TopicPrefix(filter), topic)
    ensures Matches(filter, topic)
  {
    var p := TopicPrefix(filter);
    var rest, more := filter[|p|..], topic[|p|..];
    assert filter == p + rest && topic == p + more;
    MatchAfterPrefix(p, rest, more);
    LevelsOfTight();
    assert ["+", "#"][1..] == ["#"] && MatchLevels(["#"], Levels(more)[1..]);
    assert ["+", "#"] != ["#"] && MatchLevels(["+", "#"], Levels(more));
  }

  /** A filter that is not tight: two topics begin with its prefix, and it does not
      match both. */
  lemma LooseMissesOne(filter: string)
    requires !Tight(filter)
    ensures var p := TopicPrefix(filter);
            !Matches(filter, p + "x") || !Matches(filter, p + "x/x")
  {
    var p := TopicPrefix(filter);
    var rest := filter[|p|..];
    assert filter == p + rest;
    if rest == "" {
      WildcardFree(p, p + "x");
      assert filter == p && |p + "x"| == |p| + 1;
    } else if p == "" || p[|p| - 1] == '/' {
      MatchAfterPrefix(p, rest, "x");
      MatchAfterPrefix(p, rest, "x/x");
      if Matches(rest, "x") && Matches(rest, "x/x") { OneAndTwoLevels(rest); }
    } else {
      InsideALevel(p, rest);
    }
  }

  lemma {:induction false} SameLevels(f: seq<string>, t: seq<string>)
    requires TopicLevels(f) && MatchLevels(f, t)
    ensures f == t
  {
    if f != [] {
      assert IsTopicName(f[0]);
      assert f != ["#"] && f[0] != "+" by {
        assert f[0] == "#" || f[0] == "+" ==> IsWildcard(f[0][0]);
      }
      SameLevels(f[1..], t[1..]);
      assert f == [f[0]] + f[1..] && t == [t[0]] + t[1..];
    }
  }

  /** A filter without wildcards matches only itself. */
  lemma WildcardFree(filter: string, topic: string)
    requires IsTopicName(filter)
    ensures Matches(filter, topic) ==> filter == topic
  {
    if Matches(filter, topic) {
      LevelsAreTopicNames(filter);
      SameLevels(Levels(filter), Levels(topic));
      JoinOfSplit(filter, '/');
      JoinOfSplit(topic, '/');
    }
  }

  /** Only `#` and `+/#` match both a topic of one level and one of two. */
  lemma OneAndTwoLevels(rest: string)
    requires rest != "" && IsWildcard(rest[0]) && Matches(rest, "x") && Matches(rest, "x/x")
    ensures rest == "#" || rest == "+/#"
  {
    SplitFirst("x", "", '/');
    SplitFirst("x", "x", '/');
    assert "x" + ['/'] + "x" == "x/x";
    JoinOfSplit(rest, '/');
    FirstCharacter(rest);
    var f := Levels(rest);
    if f != ["#"] {
      assert ["x"][1..] == [] && ["x", "x"][1..] == ["x"];
      OnlyHash(f[1..]);
      assert f == ["+"] + ["#"];
    }
  }

  lemma OnlyHash(f: seq<string>)
    requires MatchLevels(f, []) && MatchLevels(f, ["x"])
    ensures f == ["#"]
  {}

  lemma FirstCharacter(s: string)
    requires s != "" && s[0] != '/'
    ensures Levels(s)[0] != "" && Levels(s)[0][0] == s[0]
  {}

  /** A wildcard inside a level makes that level one no topic has. */
  lemma InsideALevel(p: string, rest: string)
    requires p != "" && p[|p| - 1] != '/' && rest != "" && IsWildcard(rest[0]) && IsTopicName(p)
    ensures !Matches(p + rest, p + "x")
  {
    var q, last := LastLevel(p);
    LastLevelFirst(q, last, rest);
  }

  /** A string cut after its last slash. */
  lemma {:induction false} LastLevel(p: string) returns (q: string, last: string)
    ensures p == q + last && '/' !in last && (q == "" || q[|q| - 1] == '/')
    ensures p != "" && p[|p| - 1] != '/' ==> last != ""
    decreases |p|
  {
    if p == "" || p[|p| - 1] == '/' {
      q, last := p, "";
    } else {
      q, last := LastLevel(p[..|p| - 1]);
      assert p == p[..|p| - 1] + [p[|p| - 1]];
      last := last + [p[|p| - 1]];
    }
  }

  lemma LastLevelFirst(q: string, last: string, rest: string)
    requires IsTopicName(q + last) && (q == "" || q[|q| - 1] == '/') && last != "" && '/' !in last
    requires rest != "" && IsWildcard(rest[0])
    ensures !Matches(q + last + rest, q + last + "x")
  {
    assert forall i :: 0 <= i < |q| ==> q[i] == (q + last)[i];
    assert !IsWildcard((q + last)[|q|]) && (q + last)[|q|] == last[0];
    assert q + last + rest == q + (last + rest) && q + last + "x" == q + (last + "x");
    MatchAfterPrefix(q, last + rest, last + "x");
    SplitFirst(last + "x", "", '/');
    FirstLevelHas(last, rest);
    var f := Levels(last + rest);
    assert f[0][|last|] == rest[0];
    assert (last + "x")[|last|] == 'x';
    FirstCharacter(last + rest);
  }

  lemma {:induction false} FirstLevelHas(a: string, rest: string)
    requires '/' !in a && rest != "" && rest[0] != '/'
    ensures |Levels(a + rest)[0]| > |a| && Levels(a + rest)[0][|a|] == rest[0]
  {
    if a == "" {
      assert a + rest == rest;
      FirstCharacter(rest);
    } else {
      FirstLevelHas(a[1..], rest);
      assert (a + rest)[0] == a[0] && (a + rest)[1..] == a[1..] + rest;
    }
  }

  /** A source owns only topics its filter matches exactly when the filter is a
      wildcard-free prefix of whole levels followed by `#` or `+/#`. */
  lemma OwnsOnlyTheFilterExactly(filter: string)
    ensures (forall topic :: IsTopicName(topic) && topic != "" && Owns(TopicPrefix(filter), topic) ==>
               Matches(filter, topic)) <==> Tight(filter)
  {
    if Tight(filter) {
      forall topic | Owns(TopicPrefix(filter), topic) ensures Matches(filter, topic) {
        TightMatchesAll(filter, topic);
      }
    } else {
      var p := TopicPrefix(filter);
      LooseMissesOne(filter);
      assert IsTopicName(p + "x") && IsTopicName(p + "x/x");
      assert (p + "x")[..|p|] == p && (p + "x/x")[..|p|] == p;
      assert Owns(p, p + "x") && Owns(p, p + "x/x");
    }
  }

  /** A shared subscription (section 4.8.2) owns no message the broker delivers for
      it: its prefix begins with `$share/`, the topics do not. */
  lemma SharedSubscriptionOwnsNothing(group: string, filter: string, topic: string)
    requires IsTopicName(group) && !("$share/" <= topic)
    ensures !Owns(TopicPrefix("$share/" + group + "/" + filter), topic)
  {
    var head := "$share/" + group + "/";
    PrefixSkips(head, filter);
    var prefix := head + TopicPrefix(filter);
    assert prefix[..7] == "$share/";
    OwnedStartsAlike("$share/", prefix, topic);
  }

  lemma OwnedStartsAlike(start: string, prefix: string, topic: string)
    requires start <= prefix
    ensures Owns(prefix, topic) ==> start <= topic
  {
    if Owns(prefix, topic) { assert prefix <= topic; }
  }
}
