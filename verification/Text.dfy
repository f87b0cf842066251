/**
 The order std::map keeps its string keys in, and the sequence in which iterating
 over such a map visits them.
 */
module Text {
  import opened Options

  /** std::string's operator<: lexicographic on the characters. */
  predicate Less(a: string, b: string) {
    if b == [] then false
    else if a == [] then true
    else if a[0] != b[0] then a[0] < b[0]
    else Less(a[1..], b[1..])
  }

  /** The first k characters are the same and the next ones decide. */
  predicate DecidesAt(a: string, b: string, k: nat) {
    k < |a| && k < |b| && a[..k] == b[..k] && a[k] < b[k]
  }

  /** A proper prefix comes first; otherwise the first characters that differ decide. */
  lemma {:induction false} LessIs(a: string, b: string)
    ensures Less(a, b) <==> (a <= b && |a| < |b|) || exists k: nat :: DecidesAt(a, b, k)
  {
    if a != [] && b != [] {
      if a[0] == b[0] {
        LessIs(a[1..], b[1..]);
        assert a == [a[0]] + a[1..] && b == [b[0]] + b[1..];
        assert a <= b <==> a[1..] <= b[1..];
        if k: nat :| DecidesAt(a[1..], b[1..], k) {
          assert a[..k + 1] == [a[0]] + a[1..][..k] && b[..k + 1] == [b[0]] + b[1..][..k];
          assert DecidesAt(a, b, k + 1);
        }
        if k: nat :| DecidesAt(a, b, k) {
          assert k > 0 && a[1..][..k - 1] == a[..k][1..] && b[1..][..k - 1] == b[..k][1..];
          assert DecidesAt(a[1..], b[1..], k - 1);
        }
      } else {
        assert a[0] < b[0] ==> DecidesAt(a, b, 0);
        if k: nat :| DecidesAt(a, b, k) {
          assert k > 0 ==> a[..k][0] == b[..k][0];
        }
      }
    }
  }

  lemma {:induction false} LessAsymmetric(a: string, b: string)
    requires Less(a, b)
    ensures !Less(b, a) && a != b
  {
    if a != [] && a[0] == b[0] {
      LessAsymmetric(a[1..], b[1..]);
    }
  }

  lemma {:induction false} LessTransitive(a: string, b: string, c: string)
    requires Less(a, b) && Less(b, c)
    ensures Less(a, c)
  {
    if a != [] && a[0] == b[0] && b[0] == c[0] {
      LessTransitive(a[1..], b[1..], c[1..]);
    }
  }

  lemma {:induction false} LessTotal(a: string, b: string)
    ensures a == b || Less(a, b) || Less(b, a)
  {
    if a != [] && b != [] && a[0] == b[0] {
      LessTotal(a[1..], b[1..]);
      assert a == [a[0]] + a[1..] && b == [b[0]] + b[1..];
    }
  }

  ghost predicate IsLeast(m: string, s: set<string>) {
    m in s && forall x | x in s :: x == m || Less(m, x)
  }

  lemma {:induction false} LeastExists(s: set<string>)
    requires s != {}
    ensures exists m :: IsLeast(m, s)
  {
    var x :| x in s;
    var rest := s - {x};
    if rest == {} {
      assert s == {x};
      assert IsLeast(x, s);
    } else {
      LeastExists(rest);
      var m :| IsLeast(m, rest);
      LessTotal(x, m);
      if Less(m, x) {
        assert IsLeast(m, s);
      } else {
        forall y | y in s ensures y == x || Less(x, y) {
          if y != x && y != m {
            LessTransitive(x, m, y);
          }
        }
        assert IsLeast(x, s);
      }
    }
  }

  /** The key that begin() designates. */
  function Least(s: set<string>): (m: string)
    requires s != {}
    ensures IsLeast(m, s)
  {
    LeastExists(s);
    assert forall a, b | a in s && b in s && Less(a, b) :: !Less(b, a) by {
      forall a, b | a in s && b in s && Less(a, b) ensures !Less(b, a) {
        LessAsymmetric(a, b);
      }
    }
    var m :| m in s && forall x | x in s :: x == m || Less(m, x);
    m
  }

  predicate Increasing(keys: seq<string>) {
    forall i, j | 0 <= i < j < |keys| :: Less(keys[i], keys[j])
  }

  /** The keys of a std::map in iteration order. */
  function SortedKeys(s: set<string>): (keys: seq<string>)
    ensures |keys| == |s|
    ensures forall k :: k in keys <==> k in s
    ensures Increasing(keys)
  {
    if s == {} then []
    else
      var m := Least(s);
      [m] + SortedKeys(s - {m})
  }

  /** The first of these keys that an iteration over the map meets. */
  function FirstOf(s: set<string>): (r: Option<string>)
    ensures r.None? <==> s == {}
    ensures r.Some? ==> IsLeast(r.value, s)
  {
    if s == {} then None else Some(Least(s))
  }

  /** The last of these keys that an iteration over the map meets. */
  function LastOf(s: set<string>): (r: Option<string>)
    ensures r.None? <==> s == {}
    ensures r.Some? ==> r.value in s && forall k | k in s :: k == r.value || Less(k, r.value)
  {
    if s == {} then None
    else
      var keys := SortedKeys(s);
      assert keys[|keys| - 1] in keys;
      Some(keys[|keys| - 1])
  }

  lemma LeastIsUnique(m: string, n: string, s: set<string>)
    requires IsLeast(m, s) && IsLeast(n, s)
    ensures m == n
  {
    if m != n {
      LessAsymmetric(m, n);
    }
  }

  /** There is one way to list a set in order. */
  lemma {:induction false} SortedIsUnique(keys: seq<string>, s: set<string>)
    requires Increasing(keys) && forall k :: k in keys <==> k in s
    ensures keys == SortedKeys(s)
  {
    hide Increasing, Least;
    if keys == [] {
      assert s == {};
    } else {
      FirstKey(keys, s);
      OtherKeys(keys, s);
      SortedIsUnique(keys[1..], s - {keys[0]});
    }
  }

  lemma FirstKey(keys: seq<string>, s: set<string>)
    requires Increasing(keys) && keys != [] && forall k :: k in keys <==> k in s
    ensures s != {} && keys[0] == Least(s)
  {
    assert keys[0] in keys;
    forall k | k in s ensures k == keys[0] || Less(keys[0], k) {
      var i :| 0 <= i < |keys| && keys[i] == k;
    }
    LeastIsUnique(keys[0], Least(s), s);
  }

  lemma OtherKeys(keys: seq<string>, s: set<string>)
    requires Increasing(keys) && keys != [] && forall k :: k in keys <==> k in s
    ensures Increasing(keys[1..]) && forall k :: k in keys[1..] <==> k in s - {keys[0]}
  {
    IncreasingDistinct(keys);
    forall k ensures k in keys[1..] <==> k in s - {keys[0]} {
      if k in s && k != keys[0] {
        var i :| 0 <= i < |keys| && keys[i] == k;
        assert keys[1..][i - 1] == k;
      }
    }
  }

  lemma EmptyIncreasing()
    ensures Increasing([])
  {
  }

  lemma IncreasingExtends(some: seq<string>, keys: seq<string>, n: nat)
    requires Increasing(some) && Increasing(keys) && n < |keys|
    requires forall k | k in some :: k in keys[..n]
    ensures Increasing(some + [keys[n]])
  {
    forall i | 0 <= i < |some| ensures Less(some[i], keys[n]) {
      assert some[i] in keys[..n];
    }
  }

  lemma IncreasingDistinct(keys: seq<string>)
    requires Increasing(keys)
    ensures forall i, j | 0 <= i < j < |keys| :: keys[i] != keys[j]
  {
    forall i, j | 0 <= i < j < |keys| ensures keys[i] != keys[j] {
      LessAsymmetric(keys[i], keys[j]);
    }
  }

  lemma {:induction false} SubsetSize(small: set<string>, large: set<string>)
    requires small <= large
    ensures |small| <= |large|
  {
    if small != {} {
      var k :| k in small;
      SubsetSize(small - {k}, large - {k});
    }
  }

  lemma OnlyOne(s: set<string>, x: string)
    requires |s| == 1 && x in s
    ensures s == {x}
  {
    assert |s - {x}| == 0;
    assert s == (s - {x}) + {x};
  }
}
