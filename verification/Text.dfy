/** Strings as the Go program sees them: byte-wise order, sorted name lists,
    joining and splitting at a separator. A `char` stands for one byte. */
module Text {

  const NUL: char := '\0'

  datatype Option<+T> = None | Some(value: T)

  ghost function Elements<T>(s: seq<T>): set<T> {
    set x | x in s
  }

  lemma Appended<T>(s: seq<T>, x: T)
    ensures Elements(s + [x]) == Elements(s) + {x}
  {
    assert forall y :: y in s + [x] <==> y in s || y == x;
  }

  ghost predicate Distinct<T>(s: seq<T>) {
    forall i, j :: 0 <= i < j < |s| ==> s[i] != s[j]
  }

  // ---------------------------------------------------------------- order

  /** Go's `<` on strings. */
  predicate Less(a: string, b: string) {
    b != "" && (a == "" || a[0] < b[0] || (a[0] == b[0] && Less(a[1..], b[1..])))
  }

  /** At the first place where the strings differ, `a` has the smaller byte or has
      ended. */
  ghost predicate Precedes(a: string, b: string) {
    exists k :: 0 <= k <= |a| && k <= |b| && FirstDifference(a, b, k)
  }

  predicate FirstDifference(a: string, b: string, k: nat)
    requires k <= |a| && k <= |b|
  {
    && (forall i :: 0 <= i < k ==> a[i] == b[i])
    && k < |b| && (k == |a| || a[k] < b[k])
  }

  lemma {:induction false} LessIsFirstDifference(a: string, b: string)
    ensures Less(a, b) <==> Precedes(a, b)
  {
    if a != "" && b != "" && a[0] == b[0] {
      LessIsFirstDifference(a[1..], b[1..]);
      if k :| 0 <= k <= |a| && k <= |b| && FirstDifference(a, b, k) {
        assert k > 0;
        assert FirstDifference(a[1..], b[1..], k - 1);
      }
      if k :| 0 <= k <= |a[1..]| && k <= |b[1..]| && FirstDifference(a[1..], b[1..], k) {
        assert FirstDifference(a, b, k + 1);
      }
    } else {
      if Less(a, b) { assert FirstDifference(a, b, 0); }
      if k :| 0 <= k <= |a| && k <= |b| && FirstDifference(a, b, k) { assert k == 0; }
    }
  }

  lemma {:induction false} LessIrreflexive(a: string)
    ensures !Less(a, a)
  {
    if a != "" { LessIrreflexive(a[1..]); }
  }

  lemma {:induction false} LessTransitive(a: string, b: string, c: string)
    requires Less(a, b) && Less(b, c)
    ensures Less(a, c)
  {
    if a != "" && a[0] == b[0] == c[0] { LessTransitive(a[1..], b[1..], c[1..]); }
  }

  lemma {:induction false} LessTotal(a: string, b: string)
    ensures a == b || Less(a, b) || Less(b, a)
  {
    if a != "" && b != "" && a[0] == b[0] {
      LessTotal(a[1..], b[1..]);
      assert a == [a[0]] + a[1..] && b == [b[0]] + b[1..];
    }
  }

  lemma LessIsStrictWeakOrder()
    ensures StrictWeakOrder(Less)
  {
    forall x { LessIrreflexive(x); }
    forall x, y, z | Less(x, y) && Less(y, z) ensures Less(x, z) { LessTransitive(x, y, z); }
    forall x, y, z | Less(x, z) ensures Less(x, y) || Less(y, z) {
      LessTotal(x, y);
      if Less(y, x) { LessTransitive(y, x, z); }
    }
  }

  // -------------------------------------------------------------- sorting

  ghost predicate StrictWeakOrder<T(!new)>(less: (T, T) -> bool) {
    && (forall x :: !less(x, x))
    && (forall x, y, z :: less(x, y) && less(y, z) ==> less(x, z))
    && (forall x, y, z :: less(x, z) ==> less(x, y) || less(y, z))
  }

  ghost predicate Ordered<T>(less: (T, T) -> bool, s: seq<T>) {
    forall i, j :: 0 <= i < j < |s| ==> !less(s[j], s[i])
  }

  /** Stands for `sort.Strings` and `sort.Slice`: callers learn only that the
      result is some ordered permutation, not which one. */
  method Sort<T(!new)>(a: seq<T>, less: (T, T) -> bool) returns (r: seq<T>)
    requires StrictWeakOrder(less)
    ensures multiset(r) == multiset(a)
    ensures Ordered(less, r)
  {
    hide StrictWeakOrder, Ordered;
    r := [];
    NothingOutOfOrder(less);
    for n := 0 to |a|
      invariant multiset(r) == multiset(a[..n])
      invariant Ordered(less, r)
    {
      var k := |r|;
      while k > 0 && less(a[n], r[k - 1])
        invariant 0 <= k <= |r|
        invariant forall i :: k <= i < |r| ==> less(a[n], r[i])
      {
        k := k - 1;
      }
      InsertionKeepsOrder(less, r, k, a[n]);
      InsertionKeepsElements(r, k, a[n]);
      assert a[..n + 1] == a[..n] + [a[n]];
      r := r[..k] + [a[n]] + r[k..];
    }
    assert a[..|a|] == a;
  }

  lemma InsertionKeepsElements<T>(r: seq<T>, k: nat, x: T)
    requires k <= |r|
    ensures multiset(r[..k] + [x] + r[k..]) == multiset(r) + multiset{x}
  {
    assert r == r[..k] + r[k..];
  }

  lemma NothingOutOfOrder<T>(less: (T, T) -> bool)
    ensures Ordered(less, [])
  {}

  lemma InsertionKeepsOrder<T(!new)>(less: (T, T) -> bool, r: seq<T>, k: nat, x: T)
    requires StrictWeakOrder(less) && Ordered(less, r) && k <= |r|
    requires k > 0 ==> !less(x, r[k - 1])
    requires forall i :: k <= i < |r| ==> less(x, r[i])
    ensures Ordered(less, r[..k] + [x] + r[k..])
  {
    var q := r[..k] + [x] + r[k..];
    forall i, j | 0 <= i < j < |q| ensures !less(q[j], q[i]) {
      if j == k {
        assert q[i] == r[i];
        assert less(x, r[i]) ==> less(x, r[k - 1]) || less(r[k - 1], r[i]);
      } else if i == k {
        assert q[j] == r[j - 1];
        assert less(x, r[j - 1]) && less(r[j - 1], x) ==> less(x, x);
      } else {
        assert q[i] == r[if i < k then i else i - 1] && q[j] == r[if j < k then j else j - 1];
      }
    }
  }

  ghost predicate StrictlySortedBy<T>(less: (T, T) -> bool, s: seq<T>) {
    forall i, j :: 0 <= i < j < |s| ==> less(s[i], s[j])
  }

  ghost predicate StrictlySorted(s: seq<string>) {
    StrictlySortedBy(Less, s)
  }

  lemma StrictlySortedIsDistinct<T(!new)>(less: (T, T) -> bool, s: seq<T>)
    requires StrictWeakOrder(less) && StrictlySortedBy(less, s)
    ensures Distinct(s)
  {}

  /** A strictly sorted list is determined by its set of elements. */
  lemma {:induction false} StrictlySortedIsUnique<T(!new)>(less: (T, T) -> bool, s: seq<T>, t: seq<T>)
    requires StrictWeakOrder(less)
    requires StrictlySortedBy(less, s) && StrictlySortedBy(less, t)
    requires Elements(s) == Elements(t)
    ensures s == t
  {
    if s == [] {
      if t != [] { NonEmpty(t); }
    } else {
      FirstIsLeast(less, s, t);
      TailElements(less, s);
      TailElements(less, t);
      StrictlySortedIsUnique(less, s[1..], t[1..]);
      assert s == [s[0]] + s[1..] && t == [t[0]] + t[1..];
    }
  }

  lemma NonEmpty<T>(t: seq<T>)
    requires t != []
    ensures Elements(t) != {}
  {
    assert t[0] in Elements(t);
  }

  lemma FirstIsLeast<T(!new)>(less: (T, T) -> bool, s: seq<T>, t: seq<T>)
    requires StrictWeakOrder(less)
    requires StrictlySortedBy(less, s) && StrictlySortedBy(less, t) && s != []
    requires Elements(s) == Elements(t)
    ensures t != [] && t[0] == s[0]
  {
    assert s[0] in Elements(t) && t[0] in Elements(s);
    var x, y := s[0], t[0];
    assert !(less(x, y) && less(y, x));
    var i :| 0 <= i < |s| && s[i] == y;
    var j :| 0 <= j < |t| && t[j] == x;
  }

  lemma TailElements<T(!new)>(less: (T, T) -> bool, s: seq<T>)
    requires StrictWeakOrder(less) && StrictlySortedBy(less, s) && s != []
    ensures StrictlySortedBy(less, s[1..])
    ensures Elements(s[1..]) == Elements(s) - {s[0]}
  {
    StrictlySortedIsDistinct(less, s);
    assert s == [s[0]] + s[1..];
  }

  /** The sorted list of a set of names. */
  ghost function SortedSeq(names: set<string>): (r: seq<string>)
    ensures StrictlySorted(r)
    ensures Elements(r) == names
  {
    if names == {} then [] else
    (LeastExists(names);
    var least :| IsLeast(least, names);
    var rest := SortedSeq(names - {least});
    Prepended(least, rest);
    [least] + rest)
  }

  ghost predicate IsLeast(least: string, names: set<string>) {
    least in names && forall y :: y in names && y != least ==> Less(least, y)
  }

  lemma Prepended(x: string, s: seq<string>)
    ensures Elements([x] + s) == {x} + Elements(s)
  {
    assert forall y :: y in [x] + s <==> y == x || y in s;
  }

  lemma {:induction false} LeastExists(names: set<string>)
    requires names != {}
    ensures exists least :: IsLeast(least, names)
  {
    var x :| x in names;
    if names - {x} == {} {
      forall y | y in names ensures y == x { assert y == x || y in names - {x}; }
      assert IsLeast(x, names);
    } else {
      LeastExists(names - {x});
      var m :| IsLeast(m, names - {x});
      LeastOfTwo(names, x, m);
    }
  }

  lemma LeastOfTwo(names: set<string>, x: string, m: string)
    requires x in names && IsLeast(m, names - {x})
    ensures IsLeast(x, names) || IsLeast(m, names)
  {
    LessTotal(x, m);
    if Less(x, m) {
      forall y | y in names && y != x ensures Less(x, y) {
        assert y in names - {x};
        if y != m { LessTransitive(x, m, y); }
      }
      assert IsLeast(x, names);
    } else {
      forall y | y in names && y != m ensures Less(m, y) {
        if y != x { assert y in names - {x}; }
      }
      assert IsLeast(m, names);
    }
  }

  /** Sorting a duplicate-free listing of a set, in whatever order a map
      iteration produced it, gives the sorted list of the set. */
  method SortNames(names: seq<string>) returns (r: seq<string>)
    requires Distinct(names)
    ensures r == SortedSeq(Elements(names))
    ensures InOrder(r)
  {
    LessIsStrictWeakOrder();
    r := Sort(names, Less);
    PermutationOfDistinct(names, r);
    forall i, j | 0 <= i < j < |r| ensures Less(r[i], r[j]) { LessTotal(r[i], r[j]); }
    StrictlySortedIsUnique(Less, r, SortedSeq(Elements(names)));
    SortedSeqInOrder(Elements(names));
  }

  ghost predicate InOrder(s: seq<string>) {
    forall i, j :: 0 <= i < j < |s| ==> Precedes(s[i], s[j])
  }

  lemma SortedSeqInOrder(names: set<string>)
    ensures InOrder(SortedSeq(names))
  {
    hide Precedes, Less;
    var s := SortedSeq(names);
    forall i, j | 0 <= i < j < |s| ensures Precedes(s[i], s[j]) {
      assert Less(s[i], s[j]);
      LessIsFirstDifference(s[i], s[j]);
    }
  }

  lemma PermutationOfDistinct<T>(s: seq<T>, t: seq<T>)
    requires multiset(s) == multiset(t) && Distinct(s)
    ensures Distinct(t) && Elements(t) == Elements(s) && |t| == |s|
  {
    forall x ensures x in s <==> x in t { assert x in multiset(s) <==> x in multiset(t); }
    assert |multiset(s)| == |s| && |multiset(t)| == |t|;
    forall i, j | 0 <= i < j < |t| ensures t[i] != t[j] {
      if t[i] == t[j] {
        TwiceInMultiset(t, i, j);
        DistinctMultiplicity(s, t[i]);
      }
    }
  }

  lemma TwiceInMultiset<T>(t: seq<T>, i: int, j: int)
    requires 0 <= i < j < |t| && t[i] == t[j]
    ensures multiset(t)[t[i]] >= 2
  {
    assert t == t[..i] + [t[i]] + t[i + 1..j] + [t[j]] + t[j + 1..];
  }

  lemma {:induction false} DistinctMultiplicity<T>(s: seq<T>, x: T)
    requires Distinct(s)
    ensures multiset(s)[x] <= 1
  {
    if s != [] {
      DistinctMultiplicity(s[1..], x);
      assert s == [s[0]] + s[1..];
      if x == s[0] {
        assert x !in s[1..];
        assert multiset(s[1..])[x] == 0;
      }
    }
  }

  // ------------------------------------------------------- joining, splitting

  /** `strings.Join` with a one-byte separator. */
  function Join(parts: seq<string>, sep: char): string {
    if parts == [] then ""
    else if |parts| == 1 then parts[0]
    else parts[0] + [sep] + Join(parts[1..], sep)
  }

  /** `strings.Split` with a one-byte separator. */
  function Split(s: string, sep: char): (r: seq<string>)
    ensures r != []
  {
    if s == "" then [""]
    else
      var rest := Split(s[1..], sep);
      if s[0] == sep then [""] + rest else [[s[0]] + rest[0]] + rest[1..]
  }

  ghost predicate Without(sep: char, parts: seq<string>) {
    forall i :: 0 <= i < |parts| ==> sep !in parts[i]
  }

  lemma {:induction false} JoinOfSplit(s: string, sep: char)
    ensures Join(Split(s, sep), sep) == s
    ensures Without(sep, Split(s, sep))
  {
    if s != "" {
      JoinOfSplit(s[1..], sep);
      var rest := Split(s[1..], sep);
      assert s == [s[0]] + s[1..];
      if s[0] == sep {
        assert ([""] + rest)[1..] == rest;
      } else {
        var joined := [[s[0]] + rest[0]] + rest[1..];
        assert joined[1..] == rest[1..];
        if |rest| > 1 {
          assert ([s[0]] + rest[0]) + [sep] + Join(rest[1..], sep)
              == [s[0]] + (rest[0] + [sep] + Join(rest[1..], sep));
        }
      }
    }
  }

  /** Splitting after the first separator-free part. */
  lemma {:induction false} SplitFirst(a: string, s: string, sep: char)
    requires sep !in a
    ensures Split(a + [sep] + s, sep) == [a] + Split(s, sep)
    ensures Split(a, sep) == [a]
  {
    if a == "" {
      assert a + [sep] + s == [sep] + s;
      assert ([sep] + s)[1..] == s;
    } else {
      SplitFirst(a[1..], s, sep);
      assert a == [a[0]] + a[1..];
      assert (a + [sep] + s)[1..] == a[1..] + [sep] + s;
      assert ([a[1..]] + Split(s, sep))[1..] == Split(s, sep);
    }
  }

  /** Splitting at a separator splits both sides. */
  lemma {:induction false} SplitBoth(a: string, b: string, sep: char)
    ensures Split(a + [sep] + b, sep) == Split(a, sep) + Split(b, sep)
  {
    hide Split;
    if a == "" {
      SplitFirst("", b, sep);
      SplitFirst("", "", sep);
      assert "" + [sep] + b == a + [sep] + b;
    } else {
      var c, rest := a[0], a[1..];
      assert a == [c] + rest && a + [sep] + b == [c] + (rest + [sep] + b);
      SplitBoth(rest, b, sep);
      SplitStep(c, rest, sep);
      SplitStep(c, rest + [sep] + b, sep);
      HeadOfConcat(Split(rest, sep), Split(b, sep), c);
      if c == sep { assert [""] + (Split(rest, sep) + Split(b, sep)) == ([""] + Split(rest, sep)) + Split(b, sep); }
    }
  }

  lemma SplitStep(c: char, s: string, sep: char)
    ensures var rest := Split(s, sep);
            Split([c] + s, sep) == if c == sep then [""] + rest else [[c] + rest[0]] + rest[1..]
  {
    assert ([c] + s)[1..] == s;
  }

  lemma HeadOfConcat(s: seq<string>, t: seq<string>, c: char)
    requires s != []
    ensures [[c] + (s + t)[0]] + (s + t)[1..] == ([[c] + s[0]] + s[1..]) + t
  {
    assert (s + t)[1..] == s[1..] + t;
  }

  lemma {:induction false} SplitOfJoin(parts: seq<string>, sep: char)
    requires parts != [] && Without(sep, parts)
    ensures Split(Join(parts, sep), sep) == parts
  {
    SplitFirst(parts[0], Join(parts[1..], sep), sep);
    if |parts| > 1 {
      SplitOfJoin(parts[1..], sep);
      assert parts == [parts[0]] + parts[1..];
    } else {
      assert parts == [parts[0]];
    }
  }

  /** There is one part more than there are separators. */
  lemma {:induction false} PartsAndSeparators(s: string, sep: char)
    ensures |Split(s, sep)| == multiset(s)[sep] + 1
  {
    if s != "" {
      PartsAndSeparators(s[1..], sep);
      assert s == [s[0]] + s[1..];
      assert multiset(s) == multiset{s[0]} + multiset(s[1..]);
    }
  }

  lemma {:induction false} JoinOfConcat(a: seq<string>, b: seq<string>, sep: char)
    requires a != [] && b != []
    ensures Join(a + b, sep) == Join(a, sep) + [sep] + Join(b, sep)
  {
    if |a| == 1 {
      assert (a + b)[1..] == b;
    } else {
      JoinOfConcat(a[1..], b, sep);
      assert (a + b)[1..] == a[1..] + b;
      assert a[0] + [sep] + (Join(a[1..], sep) + [sep] + Join(b, sep)) ==
             (a[0] + [sep] + Join(a[1..], sep)) + [sep] + Join(b, sep);
    }
  }

  /** Joining is injective on separator-free parts, once the empty list and
      the list of one empty part are told apart. */
  lemma JoinInjective(s: seq<string>, t: seq<string>, sep: char)
    requires Without(sep, s) && Without(sep, t)
    requires Join(s, sep) == Join(t, sep)
    requires s == [] <==> t == []
    ensures s == t
  {
    if s != [] {
      SplitOfJoin(s, sep);
      SplitOfJoin(t, sep);
    }
  }

  /** What follows a separator does not change the first part. */
  lemma {:induction false} FirstSegment(a: string, rest: string, sep: char)
    requires rest == "" || rest[0] == sep
    ensures Split(a + rest, sep)[0] == Split(a, sep)[0]
  {
    if a == "" {
      assert a + rest == rest;
    } else {
      FirstSegment(a[1..], rest, sep);
      assert (a + rest)[0] == a[0] && (a + rest)[1..] == a[1..] + rest;
    }
  }
}
