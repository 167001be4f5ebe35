/**
 * Python's ordering of `str` values (code point by code point, a proper
 * prefix first) and the ascending enumeration of a set of keys that
 * `sorted(d.items())` produces for a dictionary with string keys.
 */
module StringOrder {

  /** `a <= b` on Python strings. */
  predicate LexLe(a: string, b: string)
    decreases |a|
  {
    a == [] || (b != [] && (a[0] < b[0] || (a[0] == b[0] && LexLe(a[1..], b[1..]))))
  }

  lemma {:induction false} LexLeReflexive(a: string)
    ensures LexLe(a, a)
    decreases |a|
  {
    if a != [] { LexLeReflexive(a[1..]); }
  }

  lemma {:induction false} LexLeAntisymmetric(a: string, b: string)
    requires LexLe(a, b) && LexLe(b, a)
    ensures a == b
    decreases |a|
  {
    if a != [] {
      LexLeAntisymmetric(a[1..], b[1..]);
      assert a == [a[0]] + a[1..] && b == [b[0]] + b[1..];
    }
  }

  lemma {:induction false} LexLeTransitive(a: string, b: string, c: string)
    requires LexLe(a, b) && LexLe(b, c)
    ensures LexLe(a, c)
    decreases |a|
  {
    if a != [] && a[0] == b[0] && b[0] == c[0] {
      LexLeTransitive(a[1..], b[1..], c[1..]);
    }
  }

  lemma {:induction false} LexLeTotal(a: string, b: string)
    ensures LexLe(a, b) || LexLe(b, a)
    decreases |a|
  {
    if a != [] && b != [] && a[0] == b[0] {
      LexLeTotal(a[1..], b[1..]);
    }
  }

  /** m is the smallest element of keys. */
  predicate IsLeast(m: string, keys: set<string>) {
    m in keys && forall k :: k in keys ==> LexLe(m, k)
  }

  /** Every finite non-empty set of strings has a smallest element. */
  lemma {:induction false} LeastExists(keys: set<string>)
    requires keys != {}
    ensures exists m :: IsLeast(m, keys)
    decreases |keys|
  {
    var x :| x in keys;
    var rest := keys - {x};
    if rest == {} {
      LexLeReflexive(x);
      assert keys == {x};
      assert IsLeast(x, keys);
    } else {
      LeastExists(rest);
      var m :| IsLeast(m, rest);
      LexLeTotal(x, m);
      LexLeReflexive(x);
      if LexLe(x, m) {
        forall k | k in keys ensures LexLe(x, k) {
          if k != x { LexLeTransitive(x, m, k); }
        }
        assert IsLeast(x, keys);
      } else {
        assert IsLeast(m, keys);
      }
    }
  }

  /** The smallest element is unique. */
  lemma LeastUnique(m1: string, m2: string, keys: set<string>)
    requires IsLeast(m1, keys) && IsLeast(m2, keys)
    ensures m1 == m2
  {
    LexLeAntisymmetric(m1, m2);
  }

  ghost function Least(keys: set<string>): (m: string)
    requires keys != {}
    ensures IsLeast(m, keys)
  {
    LeastExists(keys);
    var m :| IsLeast(m, keys); m
  }

  predicate StrictlyAscending(ks: seq<string>) {
    forall i, j :: 0 <= i < j < |ks| ==> LexLe(ks[i], ks[j]) && ks[i] != ks[j]
  }

  /** The keys of a dictionary in the order `sorted` yields them: smallest first. */
  ghost function SortedKeys(keys: set<string>): (r: seq<string>)
    ensures |r| == |keys|
    decreases |keys|
  {
    if keys == {} then [] else var m := Least(keys); [m] + SortedKeys(keys - {m})
  }

  /** SortedKeys lists exactly the given keys. */
  lemma {:induction false} SortedKeysMembers(keys: set<string>)
    ensures forall k :: k in SortedKeys(keys) <==> k in keys
    decreases |keys|
  {
    if keys != {} {
      var m := Least(keys);
      SortedKeysMembers(keys - {m});
      assert forall k :: k in [m] + SortedKeys(keys - {m}) <==> k == m || k in SortedKeys(keys - {m});
    }
  }

  /** SortedKeys lists the keys in strictly ascending order. */
  lemma {:induction false} SortedKeysAscending(keys: set<string>)
    ensures StrictlyAscending(SortedKeys(keys))
    decreases |keys|
  {
    if keys != {} {
      var m := Least(keys);
      SortedKeysAscending(keys - {m});
      SortedKeysMembers(keys - {m});
      PrependLeast(m, keys, SortedKeys(keys - {m}));
    }
  }

  lemma PrependLeast(m: string, keys: set<string>, tail: seq<string>)
    requires IsLeast(m, keys)
    requires |tail| == |keys - {m}| && StrictlyAscending(tail)
    requires forall k :: k in tail <==> k in keys - {m}
    ensures |[m] + tail| == |keys|
    ensures forall k :: k in [m] + tail <==> k in keys
    ensures StrictlyAscending([m] + tail)
  {
    var r := [m] + tail;
    forall i, j | 0 <= i < j < |r| ensures LexLe(r[i], r[j]) && r[i] != r[j] {
      if i == 0 {
        assert r[j] == tail[j - 1] && tail[j - 1] in tail;
      } else {
        assert r[i] == tail[i - 1] && r[j] == tail[j - 1];
      }
    }
  }

  /** Splitting off the smallest key: how a loop that takes keys smallest-first walks SortedKeys. */
  lemma SortedKeysFirst(m: string, keys: set<string>)
    requires IsLeast(m, keys)
    ensures SortedKeys(keys) == [m] + SortedKeys(keys - {m})
  {
    LeastUnique(m, Least(keys), keys);
  }
}
