/** Small facts about finite sequences and sets that several modules need. */
module Sequences {
  ghost predicate Distinct<T>(s: seq<T>) {
    forall i, j :: 0 <= i < j < |s| ==> s[i] != s[j]
  }

  function ToSet<T>(s: seq<T>): set<T> {
    set x | x in s
  }

  lemma DifferenceIsEmpty<T>(a: set<T>, b: set<T>)
    ensures a - b == {} <==> a <= b
  {
    assert forall x :: x in a ==> x in a - b || x in b;
  }

  lemma Reassociate<T>(a: seq<T>, b: seq<T>, c: seq<T>)
    ensures (a + b) + c == a + (b + c)
  {
  }

  lemma SliceSplit<T>(s: seq<T>, a: nat, b: nat, c: nat)
    requires a <= b <= c <= |s|
    ensures s[a..c] == s[a..b] + s[b..c]
  {
  }

  lemma ConsIff<T>(s: seq<T>, first: T, rest: seq<T>)
    ensures s == [first] + rest <==> s != [] && s[0] == first && s[1..] == rest
  {
    assert s != [] ==> s == [s[0]] + s[1..];
  }

  /** A part of a slice, as a slice of the whole. */
  lemma PartOfSlice<T>(s: seq<T>, a: nat, b: nat, before: seq<T>, part: seq<T>, after: seq<T>)
    requires a <= b <= |s| && s[a..b] == before + part + after
    ensures a + |before| + |part| + |after| == b
    ensures s[a + |before|..a + |before| + |part|] == part
  {
    var t := before + part + after;
    forall k | 0 <= k < |part| ensures s[a + |before| + k] == part[k] {
      assert s[a..b][|before| + k] == t[|before| + k];
    }
  }

  /** The last n elements, or all of them when there are fewer. */
  function LastN<T>(s: seq<T>, n: nat): seq<T> {
    if |s| <= n then s else s[|s| - n..]
  }

  /** Only the last n elements matter to LastN. */
  lemma LastNAppend<T>(a: seq<T>, b: seq<T>, n: nat)
    requires |b| >= n || a == []
    ensures LastN(a + b, n) == LastN(b, n)
  {
    if a == [] {
      assert a + b == b;
    }
  }

  function Without<T(==)>(s: seq<T>, x: T): (r: seq<T>)
    ensures |r| <= |s|
  {
    if s == [] then []
    else if s[0] == x then Without(s[1..], x)
    else [s[0]] + Without(s[1..], x)
  }

  lemma {:induction false} WithoutMembers<T>(s: seq<T>, x: T)
    ensures forall y :: y in Without(s, x) <==> y in s && y != x
  {
    if s != [] {
      WithoutMembers(s[1..], x);
      assert s == [s[0]] + s[1..];
    }
  }

  lemma ToSetMinusOne<T>(rest: seq<T>, s: seq<T>, x: T)
    requires forall y :: y in rest <==> y in s && y != x
    ensures ToSet(rest) == ToSet(s) - {x}
  {
  }

  lemma WithoutToSet<T>(s: seq<T>, x: T)
    ensures ToSet(Without(s, x)) == ToSet(s) - {x}
  {
    WithoutMembers(s, x);
    ToSetMinusOne(Without(s, x), s, x);
  }

  lemma ToSetAppend<T>(s: seq<T>, x: T)
    ensures ToSet(s + [x]) == ToSet(s) + {x}
  {
  }

  lemma TailToSet<T>(s: seq<T>)
    requires s != [] && Distinct(s)
    ensures ToSet(s[1..]) == ToSet(s) - {s[0]}
  {
    assert s == [s[0]] + s[1..];
  }

  lemma DistinctAppend<T>(s: seq<T>, x: T)
    requires Distinct(s) && x !in s
    ensures Distinct(s + [x])
  {
  }

  lemma {:induction false} WithoutAbsent<T>(s: seq<T>, x: T)
    requires x !in s
    ensures Without(s, x) == s
  {
    if s != [] {
      WithoutAbsent(s[1..], x);
    }
  }

  lemma ConsDistinct<T>(x: T, s: seq<T>)
    requires x !in s && Distinct(s)
    ensures Distinct([x] + s)
  {
  }

  lemma HasFirst<T>(s: seq<T>)
    ensures s == [] || s[0] in s
  {
  }

  lemma DisjointConcat<T>(a: seq<T>, b: seq<T>)
    requires Distinct(a) && Distinct(b) && forall x :: x in a ==> x !in b
    ensures Distinct(a + b)
  {
    forall i, j | 0 <= i < j < |a + b| ensures (a + b)[i] != (a + b)[j] {
      assert i < |a| ==> (a + b)[i] in a;
      assert j >= |a| ==> (a + b)[j] in b;
    }
  }

  /** An element of the tail of a distinct sequence is not in its front. */
  lemma FrontAbsent<T>(front: seq<T>, last: seq<T>, k: T)
    requires Distinct(front + last) && k in last
    ensures k !in front
  {
    var b :| 0 <= b < |last| && last[b] == k;
    assert (front + last)[|front| + b] == k;
    forall a | 0 <= a < |front| ensures front[a] != k {
      assert (front + last)[a] == front[a];
    }
  }

  lemma {:induction false} WithoutDistinct<T>(s: seq<T>, x: T)
    requires Distinct(s)
    ensures Distinct(Without(s, x))
    ensures x in s ==> |Without(s, x)| == |s| - 1
  {
    if s != [] {
      assert s == [s[0]] + s[1..];
      if s[0] == x {
        assert x !in s[1..];
        WithoutAbsent(s[1..], x);
      } else {
        WithoutDistinct(s[1..], x);
        WithoutMembers(s[1..], x);
        ConsDistinct(s[0], Without(s[1..], x));
      }
    }
  }

  lemma {:induction false} WithoutConcat<T>(s: seq<T>, t: seq<T>, x: T)
    ensures Without(s + t, x) == Without(s, x) + Without(t, x)
  {
    if s == [] {
      assert s + t == t;
    } else {
      assert (s + t)[1..] == s[1..] + t;
      WithoutConcat(s[1..], t, x);
    }
  }

  lemma {:induction false} DistinctCardinality<T>(s: seq<T>)
    requires Distinct(s)
    ensures |ToSet(s)| == |s|
  {
    if s != [] {
      DistinctCardinality(s[1..]);
      assert s == [s[0]] + s[1..];
      assert ToSet(s) == {s[0]} + ToSet(s[1..]);
    }
  }

  lemma {:induction false} SubsetCardinality<T>(a: set<T>, b: set<T>)
    requires a <= b
    ensures |a| <= |b|
    ensures |a| == |b| ==> a == b
  {
    if a != {} {
      var x :| x in a;
      SubsetCardinality(a - {x}, b - {x});
    }
  }

  /** Moving k to the end of a recency order, seen through its last max elements. */
  lemma RecencyHit<T>(r: seq<T>, k: T, max: nat)
    requires Distinct(r) && k in LastN(r, max)
    ensures LastN(Without(r, k) + [k], max) == Without(LastN(r, max), k) + [k]
  {
    var last := LastN(r, max);
    var front := r[..|r| - |last|];
    assert r == front + last;
    MoveWithinTail(front, last, k);
  }

  lemma MoveWithinTail<T>(front: seq<T>, last: seq<T>, k: T)
    requires Distinct(front + last) && Distinct(last) && k in last
    ensures Without(front + last, k) + [k] == front + (Without(last, k) + [k])
    ensures |Without(last, k) + [k]| == |last|
  {
    FrontAbsent(front, last, k);
    WithoutConcat(front, last, k);
    WithoutAbsent(front, k);
    WithoutDistinct(last, k);
  }

  lemma RecencyMiss<T>(r: seq<T>, k: T, max: nat)
    requires k !in LastN(r, max)
    ensures LastN(Without(r, k) + [k], max) == LastN(LastN(r, max) + [k], max)
  {
    var last := LastN(r, max);
    var front := r[..|r| - |last|];
    assert r == front + last;
    WithoutConcat(front, last, k);
    WithoutAbsent(last, k);
    assert Without(r, k) + [k] == Without(front, k) + (last + [k]);
    LastNAppend(Without(front, k), last + [k], max);
  }

  lemma WithoutAround<T>(r: seq<T>, b: nat, k: T)
    requires b < |r| && r[b] != k
    ensures Without(r, k) == Without(r[..b], k) + [r[b]] + Without(r[b + 1..], k)
  {
    var front, here, back := r[..b], [r[b]], r[b + 1..];
    assert r == (front + here) + back;
    WithoutConcat(front + here, back, k);
    WithoutConcat(front, here, k);
    assert Without(here, k) == here;
  }

  lemma MapLastUpdate<K, V>(m: map<K, V>, k: K, first: V, last: V)
    ensures m[k := first][k := last] == m[k := last]
  {
  }

  lemma MapSameUpdate<K, V>(m: map<K, V>, k: K)
    requires k in m
    ensures m[k := m[k]] == m
  {
  }
}
