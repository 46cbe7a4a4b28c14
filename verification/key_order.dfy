/** The order in which the object store hands back records.
    An IndexedDB object store keeps its records sorted by primary key, and
    string keys compare code unit by code unit: a proper prefix comes first,
    otherwise the first differing unit decides.  `getAll()` returns records
    in that order. */
module KeyOrder {

  /** Lexicographic "at most" on strings, as IndexedDB compares string keys. */
  predicate LexLeq(a: string, b: string)
  {
    |a| == 0 || (|b| != 0 && (a[0] < b[0] || (a[0] == b[0] && LexLeq(a[1..], b[1..]))))
  }

  lemma {:induction false} LexLeqRefl(a: string)
    ensures LexLeq(a, a)
  {
    if |a| != 0 { LexLeqRefl(a[1..]); }
  }

  lemma {:induction false} LexLeqAntisym(a: string, b: string)
    requires LexLeq(a, b) && LexLeq(b, a)
    ensures a == b
  {
    if |a| != 0 && |b| != 0 {
      LexLeqAntisym(a[1..], b[1..]);
      assert a == [a[0]] + a[1..] && b == [b[0]] + b[1..];
    }
  }

  lemma {:induction false} LexLeqTrans(a: string, b: string, c: string)
    requires LexLeq(a, b) && LexLeq(b, c)
    ensures LexLeq(a, c)
  {
    if |a| != 0 && |b| != 0 && |c| != 0 && a[0] == b[0] == c[0] {
      LexLeqTrans(a[1..], b[1..], c[1..]);
    }
  }

  lemma {:induction false} LexLeqTotal(a: string, b: string)
    ensures LexLeq(a, b) || LexLeq(b, a)
  {
    if |a| != 0 && |b| != 0 && a[0] == b[0] {
      LexLeqTotal(a[1..], b[1..]);
    }
  }

  /** `k` is the least element of `ks`. */
  predicate IsLeast(k: string, ks: set<string>)
  {
    k in ks && forall j :: j in ks ==> LexLeq(k, j)
  }

  lemma {:induction false} LeastExists(ks: set<string>)
    requires ks != {}
    ensures exists k :: IsLeast(k, ks)
    decreases |ks|
  {
    var x :| x in ks;
    if ks == {x} {
      LexLeqRefl(x);
      assert IsLeast(x, ks);
    } else {
      var rest := ks - {x};
      LeastExists(rest);
      var m :| IsLeast(m, rest);
      LexLeqTotal(x, m);
      if LexLeq(x, m) {
        forall j | j in ks ensures LexLeq(x, j) {
          if j == x { LexLeqRefl(x); } else { LexLeqTrans(x, m, j); }
        }
        assert IsLeast(x, ks);
      } else {
        assert IsLeast(m, ks);
      }
    }
  }

  lemma LeastUnique(ks: set<string>)
    ensures forall k, k' :: IsLeast(k, ks) && IsLeast(k', ks) ==> k == k'
  {
    forall k, k' | IsLeast(k, ks) && IsLeast(k', ks) ensures k == k' {
      LexLeqAntisym(k, k');
    }
  }

  /** The smallest key of a non-empty key set. */
  function MinKey(ks: set<string>): (k: string)
    requires ks != {}
    ensures IsLeast(k, ks)
  {
    LeastExists(ks);
    LeastUnique(ks);
    var k :| IsLeast(k, ks); k
  }

  /** Keys strictly ascending in the store's key order. */
  predicate Ascending(ks: seq<string>)
  {
    forall i, j :: 0 <= i < j < |ks| ==> LexLeq(ks[i], ks[j]) && ks[i] != ks[j]
  }

  /** Putting the least key in front of an ascending listing of the others
      gives an ascending listing of all. */
  lemma PrependLeast(k: string, rest: seq<string>, ks: set<string>)
    requires IsLeast(k, ks)
    requires |rest| == |ks - {k}| && (forall x :: x in rest <==> x in ks - {k}) && Ascending(rest)
    ensures |[k] + rest| == |ks| && (forall x :: x in [k] + rest <==> x in ks) && Ascending([k] + rest)
  {
    var r := [k] + rest;
    forall i, j | 0 <= i < j < |r| ensures LexLeq(r[i], r[j]) && r[i] != r[j] {
      if i == 0 {
        assert r[j] == rest[j - 1] && rest[j - 1] in rest;
      } else {
        assert r[i] == rest[i - 1] && r[j] == rest[j - 1];
      }
    }
  }

  /** The keys of a set, listed in the store's key order: each key once,
      every key present, strictly ascending. */
  function SortedKeys(ks: set<string>): (r: seq<string>)
    ensures |r| == |ks|
    ensures forall k :: k in r <==> k in ks
    ensures Ascending(r)
    decreases |ks|
  {
    if ks == {} then []
    else
      var k := MinKey(ks);
      var rest := SortedKeys(ks - {k});
      PrependLeast(k, rest, ks);
      [k] + rest
  }
}
