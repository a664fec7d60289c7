/** Sorting by a two-part key, as the store sorts sessions and events. */
module Order {
  import opened Prelude

  /** (createdAt or eventIndex, position of the id in collation order). */
  datatype Key = Key(major: int, minor: int)

  predicate Less(a: Key, b: Key) {
    a.major < b.major || (a.major == b.major && a.minor < b.minor)
  }

  predicate SortedBy<T>(s: seq<T>, key: T -> Key) {
    forall i, j :: 0 <= i < j < |s| ==> !Less(key(s[j]), key(s[i]))
  }

  function Insert<T>(x: T, s: seq<T>, key: T -> Key): seq<T> {
    if s == [] || !Less(key(x), key(Last(s))) then s + [x] else Insert(x, DropLast(s), key) + [Last(s)]
  }

  /** `[...s].sort(...)`: stable insertion sort. */
  function Sort<T>(s: seq<T>, key: T -> Key): seq<T> {
    if s == [] then [] else Insert(Last(s), Sort(DropLast(s), key), key)
  }

  lemma {:induction false} InsertSorts<T>(x: T, s: seq<T>, key: T -> Key)
    requires SortedBy(s, key)
    ensures SortedBy(Insert(x, s, key), key)
    ensures multiset(Insert(x, s, key)) == multiset(s) + multiset{x}
  {
    if s == [] || !Less(key(x), key(Last(s))) {
      forall i | 0 <= i < |s| ensures !Less(key(x), key(s[i])) {
        assert i < |s| - 1 ==> !Less(key(Last(s)), key(s[i]));
      }
    } else {
      var rest := DropLast(s);
      assert s == rest + [Last(s)];
      InsertSorts(x, rest, key);
      var r := Insert(x, rest, key);
      forall i | 0 <= i < |r| ensures !Less(key(Last(s)), key(r[i])) {
        assert r[i] in multiset(r);
        assert r[i] == x || r[i] in rest;
      }
    }
  }

  lemma {:induction false} SortSorts<T>(s: seq<T>, key: T -> Key)
    ensures SortedBy(Sort(s, key), key)
    ensures multiset(Sort(s, key)) == multiset(s)
    ensures |Sort(s, key)| == |s|
  {
    if s != [] {
      SortSorts(DropLast(s), key);
      InsertSorts(Last(s), Sort(DropLast(s), key), key);
      assert s == DropLast(s) + [Last(s)];
      assert |multiset(Sort(s, key))| == |multiset(s)|;
    }
  }

  // ------------------------------------------------------- the largest n keys

  /** `kept` are the `n` largest of `written`, or all of them when there are fewer. */
  ghost predicate IsTop(kept: set<Key>, written: set<Key>, n: nat) {
    && kept <= written
    && |kept| == Min(n, |written|)
    && forall k, w :: k in kept && w in written && w !in kept ==> Less(w, k)
  }

  lemma TopIsUnique(a: set<Key>, b: set<Key>, written: set<Key>, n: nat)
    requires IsTop(a, written, n) && IsTop(b, written, n)
    ensures a == b
  {
    if a != b {
      if a <= b {
        ProperSubset(a, b);
      } else if b <= a {
        ProperSubset(b, a);
      } else {
        var x :| x in a && x !in b;
        var y :| y in b && y !in a;
        assert false;
      }
    }
  }

  lemma {:induction false} ProperSubset<T>(a: set<T>, b: set<T>)
    requires a < b
    ensures |a| < |b|
  {
    var x :| x in b && x !in a;
    if a == {} {
      assert b != {};
    } else {
      var y :| y in a;
      ProperSubset(a - {y}, b - {y});
    }
  }

  ghost predicate IsLeast(k: Key, s: set<Key>) {
    k in s && forall x :: x in s && x != k ==> Less(k, x)
  }

  lemma {:induction false} LeastExists(s: set<Key>) returns (k: Key)
    requires s != {}
    ensures IsLeast(k, s)
  {
    var x :| x in s;
    if s == {x} {
      k := x;
    } else {
      var rest := s - {x};
      assert s == rest + {x};
      var r := LeastExists(rest);
      k := if Less(x, r) then x else r;
      forall y | y in s && y != k ensures Less(k, y) {
        assert y == x || y in rest;
      }
    }
  }

  ghost function Least(s: set<Key>): (k: Key)
    requires s != {}
    ensures IsLeast(k, s)
  {
    assert exists x :: IsLeast(x, s) by { var k := LeastExists(s); }
    var k :| IsLeast(k, s);
    k
  }

  /** One write under a cap of `n` sessions. */
  ghost function Retain(kept: set<Key>, k: Key, n: nat): set<Key> {
    var all := kept + {k};
    if |all| <= n then all else all - {Least(all)}
  }

  lemma RetainDropsLeast(kept: set<Key>, k: Key, n: nat, oldest: Key)
    requires |kept + {k}| > n && IsLeast(oldest, kept + {k})
    ensures Retain(kept, k, n) == kept + {k} - {oldest}
  {
    assert Least(kept + {k}) == oldest;
  }

  lemma RetainKeepsTop(kept: set<Key>, written: set<Key>, k: Key, n: nat)
    requires IsTop(kept, written, n)
    ensures IsTop(Retain(kept, k, n), written + {k}, n)
  {
    var all := kept + {k};
    if k in written {
      assert written + {k} == written;
      if k in kept {
        assert all == kept;
      } else {
        if kept == {} {
          assert all == {k};
        }
        // an evicted id written again falls out at once
        assert IsLeast(k, all);
        assert Least(all) == k;
        assert all - {k} == kept;
        if |written| <= n {
          if kept != written {
            ProperSubset(kept, written);
          }
          assert false;
        }
      }
    } else {
      assert |all| == |kept| + 1 && |written + {k}| == |written| + 1;
      if |all| <= n {
        assert kept == written by {
          if kept != written {
            ProperSubset(kept, written);
          }
        }
      } else {
        var least := Least(all);
        assert |all - {least}| == |kept|;
      }
    }
  }

  /** The keys held after a list of writes into an empty store. */
  ghost function RetainAll(keys: seq<Key>, n: nat): set<Key> {
    if keys == [] then {} else Retain(RetainAll(DropLast(keys), n), Last(keys), n)
  }

  /** After any list of writes, re-inserts of evicted keys included, exactly the n largest keys are held. */
  lemma {:induction false} RetentionOverWrites(keys: seq<Key>, n: nat)
    ensures IsTop(RetainAll(keys, n), Elements(keys), n)
  {
    if keys != [] {
      RetentionOverWrites(DropLast(keys), n);
      RetainKeepsTop(RetainAll(DropLast(keys), n), Elements(DropLast(keys)), Last(keys), n);
      assert keys == DropLast(keys) + [Last(keys)];
      assert Elements(keys) == Elements(DropLast(keys)) + {Last(keys)};
    }
  }
}
