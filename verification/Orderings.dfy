/** The orders that sort set members: scalars, lexicographic tuples and texts, and
    insertion sort, with what duplicate rejection after sorting gives. */
module Orderings {
  import opened Values

  ghost predicate StrictTotal<T(!new)>(less: (T, T) -> bool) {
    && (forall a :: !less(a, a))
    && (forall a, b, c :: less(a, b) && less(b, c) ==> less(a, c))
    && (forall a, b :: a == b || less(a, b) || less(b, a))
  }

  // ----- lexicographic order -----

  predicate LexLess<T(==)>(less: (T, T) -> bool, a: seq<T>, b: seq<T>) {
    if b == [] then false
    else if a == [] then true
    else if a[0] == b[0] then LexLess(less, a[1..], b[1..])
    else less(a[0], b[0])
  }

  lemma {:induction false} LexIrreflexive<T>(less: (T, T) -> bool, a: seq<T>)
    ensures !LexLess(less, a, a)
  {
    if a != [] {
      LexIrreflexive(less, a[1..]);
    }
  }

  lemma {:induction false} LexTransitive<T(!new)>(less: (T, T) -> bool, a: seq<T>, b: seq<T>, c: seq<T>)
    requires StrictTotal(less) && LexLess(less, a, b) && LexLess(less, b, c)
    ensures LexLess(less, a, c)
  {
    if a != [] {
      if a[0] == b[0] && b[0] == c[0] {
        LexTransitive(less, a[1..], b[1..], c[1..]);
      }
    }
  }

  lemma {:induction false} LexTrichotomy<T(!new)>(less: (T, T) -> bool, a: seq<T>, b: seq<T>)
    requires StrictTotal(less)
    ensures a == b || LexLess(less, a, b) || LexLess(less, b, a)
  {
    if a != [] && b != [] && a[0] == b[0] {
      LexTrichotomy(less, a[1..], b[1..]);
      assert a == [a[0]] + a[1..] && b == [b[0]] + b[1..];
    }
  }

  // ----- texts, scalars and tuples -----

  predicate ByteLess(a: byte, b: byte) { a < b }

  predicate TextLess(a: Text, b: Text) { LexLess(ByteLess, a, b) }

  function KindCode(s: Scalar): nat {
    match s
    case Boolean(_) => 0
    case Signed(_) => 1
    case Unsigned(_) => 2
    case Enumeration(_, _) => 3
    case TextScalar(_) => 4
  }

  predicate ScalarLess(a: Scalar, b: Scalar) {
    match (a, b)
    case (Boolean(x), Boolean(y)) => !x && y
    case (Signed(x), Signed(y)) => x < y
    case (Unsigned(x), Unsigned(y)) => x < y
    case (Enumeration(d, x), Enumeration(e, y)) => if d != e then TextLess(d, e) else x < y
    case (TextScalar(x), TextScalar(y)) => TextLess(x, y)
    case _ => KindCode(a) < KindCode(b)
  }

  predicate TupleLess(a: Tuple, b: Tuple) { LexLess(ScalarLess, a, b) }

  /** The sequences agree before place k, and there the first one ends, or has the lesser element. */
  ghost predicate FirstDiffersAt<T>(less: (T, T) -> bool, a: seq<T>, b: seq<T>, k: nat) {
    && k <= |a| && k < |b| && a[..k] == b[..k]
    && (k == |a| || (a[k] != b[k] && less(a[k], b[k])))
  }

  /** The lexicographic order decides at the first difference. */
  lemma {:induction false} LexDecidesAtFirstDifference<T>(less: (T, T) -> bool, a: seq<T>, b: seq<T>)
    ensures LexLess(less, a, b) <==> exists k :: FirstDiffersAt(less, a, b, k)
  {
    if a == [] || b == [] || a[0] != b[0] {
      if LexLess(less, a, b) {
        assert FirstDiffersAt(less, a, b, 0);
      }
    } else {
      LexDecidesAtFirstDifference(less, a[1..], b[1..]);
      if k: nat :| FirstDiffersAt(less, a[1..], b[1..], k) {
        assert a[..k + 1] == [a[0]] + a[1..][..k] && b[..k + 1] == [b[0]] + b[1..][..k];
        assert FirstDiffersAt(less, a, b, k + 1);
      }
      if k: nat :| FirstDiffersAt(less, a, b, k) {
        assert k > 0 && a[1..][..k - 1] == a[..k][1..] && b[1..][..k - 1] == b[..k][1..];
        assert FirstDiffersAt(less, a[1..], b[1..], k - 1);
      }
    }
  }

  /** Scalars sort by kind in this order, and within a kind by value: flags with false first, numbers
      by size, enumerations by domain and then code, texts byte by byte. */
  lemma ScalarsSort(m: int, n: int, x: nat, y: nat, d: Text, e: Text)
    requires m < n && x < y && (exists k :: FirstDiffersAt(ByteLess, d, e, k))
    ensures ScalarLess(Boolean(false), Boolean(true)) && ScalarLess(Boolean(true), Signed(m))
    ensures ScalarLess(Signed(m), Signed(n)) && ScalarLess(Signed(n), Unsigned(x))
    ensures ScalarLess(Unsigned(x), Unsigned(y)) && ScalarLess(Unsigned(y), Enumeration(d, y))
    ensures ScalarLess(Enumeration(d, x), Enumeration(d, y)) && ScalarLess(Enumeration(d, y), Enumeration(e, x))
    ensures ScalarLess(Enumeration(e, x), TextScalar(d)) && ScalarLess(TextScalar(d), TextScalar(e))
  {
    LexDecidesAtFirstDifference(ByteLess, d, e);
    LexIrreflexive(ByteLess, d);
  }

  lemma TextOrder(a: Text, b: Text)
    ensures !TextLess(a, a)
    ensures a == b || TextLess(a, b) || TextLess(b, a)
  {
    assert StrictTotal(ByteLess);
    LexIrreflexive(ByteLess, a);
    LexTrichotomy(ByteLess, a, b);
  }

  lemma TextTransitive(a: Text, b: Text, c: Text)
    requires TextLess(a, b) && TextLess(b, c)
    ensures TextLess(a, c)
  {
    assert StrictTotal(ByteLess);
    LexTransitive(ByteLess, a, b, c);
  }

  lemma TextIsTotal()
    ensures StrictTotal(TextLess)
  {
    hide LexLess;
    forall a: Text, b: Text ensures !TextLess(a, a) && (a == b || TextLess(a, b) || TextLess(b, a)) {
      TextOrder(a, b);
    }
    forall a, b, c | TextLess(a, b) && TextLess(b, c) ensures TextLess(a, c) {
      TextTransitive(a, b, c);
    }
  }

  lemma ScalarTrichotomy(a: Scalar, b: Scalar)
    ensures !ScalarLess(a, a) && (a == b || ScalarLess(a, b) || ScalarLess(b, a))
  {
    hide TextLess;
    match a
    case Enumeration(d, _) => TextOrder(d, if b.Enumeration? then b.domain else d);
    case TextScalar(x) => TextOrder(x, if b.TextScalar? then b.text else x);
    case _ =>
  }

  lemma ScalarTransitive(a: Scalar, b: Scalar, c: Scalar)
    requires ScalarLess(a, b) && ScalarLess(b, c)
    ensures ScalarLess(a, c)
  {
    hide TextLess;
    if a.Enumeration? && b.Enumeration? && c.Enumeration? {
      TextOrder(a.domain, c.domain);
      if TextLess(a.domain, b.domain) && TextLess(b.domain, c.domain) {
        TextTransitive(a.domain, b.domain, c.domain);
      }
    } else if a.TextScalar? && b.TextScalar? && c.TextScalar? {
      TextTransitive(a.text, b.text, c.text);
    }
  }

  lemma ScalarIsTotal()
    ensures StrictTotal(ScalarLess)
  {
    hide ScalarLess;
    forall a, b ensures !ScalarLess(a, a) && (a == b || ScalarLess(a, b) || ScalarLess(b, a)) {
      ScalarTrichotomy(a, b);
    }
    forall a, b, c | ScalarLess(a, b) && ScalarLess(b, c) ensures ScalarLess(a, c) {
      ScalarTransitive(a, b, c);
    }
  }

  /** The order that sorts tuple sets and rejects duplicate tuples is a strict total order. */
  lemma TupleIsTotal()
    ensures StrictTotal(TupleLess)
  {
    hide LexLess, ScalarLess;
    ScalarIsTotal();
    forall a: Tuple, b: Tuple ensures !TupleLess(a, a) && (a == b || TupleLess(a, b) || TupleLess(b, a)) {
      LexIrreflexive(ScalarLess, a);
      LexTrichotomy(ScalarLess, a, b);
    }
    forall a, b, c | TupleLess(a, b) && TupleLess(b, c) ensures TupleLess(a, c) {
      LexTransitive(ScalarLess, a, b, c);
    }
  }

  // ----- sorting -----

  function Insert<T>(less: (T, T) -> bool, x: T, s: seq<T>): (r: seq<T>)
    ensures |r| == |s| + 1
  {
    if s == [] || !less(x, s[|s| - 1]) then s + [x]
    else Insert(less, x, s[..|s| - 1]) + [s[|s| - 1]]
  }

  function Sort<T>(less: (T, T) -> bool, s: seq<T>): (r: seq<T>)
    ensures |r| == |s|
  {
    if s == [] then [] else Insert(less, s[|s| - 1], Sort(less, s[..|s| - 1]))
  }

  /** No element is less than the one before it. */
  ghost predicate Sorted<T>(less: (T, T) -> bool, s: seq<T>) {
    forall i :: 0 < i < |s| ==> !less(s[i], s[i - 1])
  }

  /** Every element is greater than the one before it: sorted and free of duplicates. */
  predicate Increasing<T>(less: (T, T) -> bool, s: seq<T>) {
    forall i :: 0 < i < |s| ==> less(s[i - 1], s[i])
  }

  lemma {:induction false} InsertMembers<T>(less: (T, T) -> bool, x: T, s: seq<T>)
    ensures multiset(Insert(less, x, s)) == multiset(s) + multiset{x}
  {
    if s != [] && less(x, s[|s| - 1]) {
      InsertMembers(less, x, s[..|s| - 1]);
      assert s == s[..|s| - 1] + [s[|s| - 1]];
    }
  }

  lemma {:induction false} SortMembers<T>(less: (T, T) -> bool, s: seq<T>)
    ensures multiset(Sort(less, s)) == multiset(s)
  {
    if s != [] {
      SortMembers(less, s[..|s| - 1]);
      InsertMembers(less, s[|s| - 1], Sort(less, s[..|s| - 1]));
      assert s == s[..|s| - 1] + [s[|s| - 1]];
    }
  }

  lemma SortKeepsElements<T>(less: (T, T) -> bool, s: seq<T>)
    ensures forall x :: x in Sort(less, s) <==> x in s
  {
    SortMembers(less, s);
    forall x ensures x in Sort(less, s) <==> x in s {
      assert x in multiset(Sort(less, s)) <==> x in multiset(s);
    }
  }

  lemma {:induction false} InsertSorts<T(!new)>(less: (T, T) -> bool, x: T, s: seq<T>)
    requires Sorted(less, s) && forall a, b :: less(a, b) ==> !less(b, a)
    ensures Sorted(less, Insert(less, x, s))
    ensures var r := Insert(less, x, s); r[|r| - 1] == x || (s != [] && r[|r| - 1] == s[|s| - 1])
  {
    if s != [] && less(x, s[|s| - 1]) {
      InsertSorts(less, x, s[..|s| - 1]);
    }
  }

  lemma {:induction false} SortSorts<T(!new)>(less: (T, T) -> bool, s: seq<T>)
    requires forall a, b :: less(a, b) ==> !less(b, a)
    ensures Sorted(less, Sort(less, s))
  {
    if s != [] {
      SortSorts(less, s[..|s| - 1]);
      InsertSorts(less, s[|s| - 1], Sort(less, s[..|s| - 1]));
    }
  }

  /** Sorting leaves an increasing sequence as it is. */
  lemma {:induction false} IncreasingIsSorted<T>(less: (T, T) -> bool, s: seq<T>)
    requires Increasing(less, s) && forall a, b :: a in s && b in s && less(a, b) ==> !less(b, a)
    ensures Sort(less, s) == s
  {
    if s != [] {
      var n := |s| - 1;
      IncreasingIsSorted(less, s[..n]);
      assert s == s[..n] + [s[n]];
      if n > 0 {
        assert less(s[n - 1], s[n]);
      }
    }
  }

  lemma TotalIsAsymmetric<T(!new)>(less: (T, T) -> bool)
    requires StrictTotal(less)
    ensures forall a, b :: less(a, b) ==> !less(b, a)
  {
  }

  /** After sorting, the absence of equal neighbours makes a sequence increasing. */
  lemma SortedWithoutTwins<T(!new)>(less: (T, T) -> bool, s: seq<T>)
    requires StrictTotal(less) && Sorted(less, s) && forall i :: 0 < i < |s| ==> s[i - 1] != s[i]
    ensures Increasing(less, s)
  {
  }
}
