/** Small vocabulary shared by every component: optional values, filtered
    sequences, duplicate-free sequences and the ascending listing of a finite set. */
module Sequences {

  datatype Option<+T> = None | Some(value: T)

  /** The elements of s that satisfy p, in order. It grows at its end, like a
      loop that appends what it keeps. */
  function Filter<T>(p: T -> bool, s: seq<T>): (r: seq<T>)
    ensures |r| <= |s|
  {
    if s == [] then []
    else
      var n := |s| - 1;
      Filter(p, s[..n]) + (if p(s[n]) then [s[n]] else [])
  }

  lemma {:induction false} FilterMember<T>(p: T -> bool, s: seq<T>, x: T)
    ensures x in Filter(p, s) <==> x in s && p(x)
  {
    if s != [] {
      var n := |s| - 1;
      FilterMember(p, s[..n], x);
      assert s == s[..n] + [s[n]];
    }
  }

  lemma FilterMembers<T>(p: T -> bool, s: seq<T>)
    ensures forall x :: x in Filter(p, s) <==> x in s && p(x)
  {
  }

  lemma FilterStep<T>(p: T -> bool, s: seq<T>, x: T)
    ensures Filter(p, s + [x]) == Filter(p, s) + (if p(x) then [x] else [])
  {
  }

  lemma NothingFiltered<T>(p: T -> bool, s: seq<T>)
    requires s == []
    ensures Filter(p, s) == []
  {
  }

  lemma {:induction false} FilterConcat<T>(p: T -> bool, a: seq<T>, b: seq<T>)
    ensures Filter(p, a + b) == Filter(p, a) + Filter(p, b)
  {
    hide Filter;
    if b == [] {
      NothingFiltered(p, b);
      assert a + b == a;
    } else {
      var n := |b| - 1;
      FilterConcat(p, a, b[..n]);
      assert a + b == (a + b[..n]) + [b[n]] && b == b[..n] + [b[n]];
      FilterStep(p, a + b[..n], b[n]);
      FilterStep(p, b[..n], b[n]);
    }
  }

  lemma FilterSkip<T>(p: T -> bool, a: seq<T>, x: T, b: seq<T>)
    requires !p(x)
    ensures Filter(p, a + [x] + b) == Filter(p, a + b)
  {
    FilterConcat(p, a + [x], b);
    FilterStep(p, a, x);
    FilterConcat(p, a, b);
  }

  ghost predicate Distinct<T>(s: seq<T>) {
    forall i, j :: 0 <= i < j < |s| ==> s[i] != s[j]
  }

  lemma {:induction false} FilterDistinct<T>(p: T -> bool, s: seq<T>)
    requires Distinct(s)
    ensures Distinct(Filter(p, s))
  {
    if s != [] {
      var n := |s| - 1;
      FilterDistinct(p, s[..n]);
      FilterMembers(p, s[..n]);
      var f := Filter(p, s[..n]);
      forall i, j | 0 <= i < j < |Filter(p, s)| ensures Filter(p, s)[i] != Filter(p, s)[j] {
        if j == |f| {
          assert f[i] in f;
        }
      }
    }
  }

  /** A duplicate-free sequence is as long as the set of its elements. */
  lemma {:induction false} DistinctLength<T>(s: seq<T>)
    requires Distinct(s)
    ensures |s| == |set x | x in s|
  {
    if s != [] {
      var n := |s| - 1;
      DistinctLength(s[..n]);
      assert s == s[..n] + [s[n]];
      var front := set x | x in s[..n];
      assert (set x | x in s) == front + {s[n]};
      assert s[n] !in front;
    }
  }

  // ----- distinct keys -----

  ghost function KeysOf<T, K>(key: T -> K, s: seq<T>): set<K> { set x | x in s :: key(x) }

  ghost predicate KeysDiffer<T, K>(key: T -> K, s: seq<T>) {
    forall i, j :: 0 <= i < j < |s| ==> key(s[i]) != key(s[j])
  }

  /** The keys of a sequence differ exactly when there are as many keys as elements. */
  lemma {:induction false} KeysDifferExactly<T, K>(key: T -> K, s: seq<T>)
    ensures |KeysOf(key, s)| <= |s|
    ensures KeysDiffer(key, s) <==> |KeysOf(key, s)| == |s|
  {
    if s == [] {
      assert KeysOf(key, s) == {};
    } else {
      var n := |s| - 1;
      var front := KeysOf(key, s[..n]);
      KeysDifferExactly(key, s[..n]);
      assert s == s[..n] + [s[n]];
      assert KeysOf(key, s) == front + {key(s[n])};
      if key(s[n]) in front {
        assert KeysOf(key, s) == front;
        var x :| x in s[..n] && key(x) == key(s[n]);
        var i :| 0 <= i < n && s[i] == x;
      } else {
        forall i | 0 <= i < n ensures key(s[i]) != key(s[n]) {
          assert s[i] in s[..n];
        }
        assert KeysDiffer(key, s) <==> KeysDiffer(key, s[..n]);
      }
    }
  }

  lemma PermutedMembers<T>(a: seq<T>, b: seq<T>)
    requires multiset(a) == multiset(b)
    ensures |a| == |b| && forall x :: x in a <==> x in b
  {
    assert |a| == |multiset(a)| == |multiset(b)| == |b|;
    forall x ensures x in a <==> x in b {
      assert x in multiset(a) <==> x in multiset(b);
    }
  }

  lemma {:induction false} LeastExists(s: set<nat>) returns (m: nat)
    requires s != {}
    ensures m in s
    ensures forall x :: x in s ==> m <= x
    decreases |s|
  {
    m :| m in s;
    var rest := s - {m};
    if rest != {} {
      var other := LeastExists(rest);
      assert forall x :: x in s ==> x == m || x in rest;
      if other < m {
        m := other;
      }
    }
  }

  function Least(s: set<nat>): (m: nat)
    requires s != {}
    ensures m in s && forall x :: x in s ==> m <= x
  {
    assert exists m :: m in s && forall x :: x in s ==> m <= x by {
      var m := LeastExists(s);
    }
    var m :| m in s && forall x :: x in s ==> m <= x;
    m
  }

  /** The elements of s in ascending order. */
  function Ascending(s: set<nat>): (r: seq<nat>)
    ensures |r| == |s|
    ensures forall x :: x in r <==> x in s
  {
    if s == {} then [] else
      var m := Least(s);
      assert s == {m} + (s - {m});
      [m] + Ascending(s - {m})
  }

  lemma {:induction false} AscendingSorted(s: set<nat>)
    ensures forall i, j :: 0 <= i < j < |Ascending(s)| ==> Ascending(s)[i] < Ascending(s)[j]
  {
    if s != {} {
      var m := Least(s);
      AscendingSorted(s - {m});
      var rest := Ascending(s - {m});
      assert Ascending(s) == [m] + rest;
      forall i, j | 0 <= i < j < |Ascending(s)| ensures Ascending(s)[i] < Ascending(s)[j] {
        assert Ascending(s)[j] == rest[j - 1] && rest[j - 1] in rest;
      }
    }
  }
}
