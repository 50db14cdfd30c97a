/** Facts about sequences and finite sets that several modules use. */
module Collections {

  ghost predicate NoDup<T>(s: seq<T>) {
    forall i, j :: 0 <= i < j < |s| ==> s[i] != s[j]
  }

  function Without<T>(s: seq<T>, i: nat): seq<T>
    requires i < |s|
  {
    s[..i] + s[i + 1..]
  }

  /** A subset is no larger, and a subset of the same size is the whole set. */
  lemma {:induction false} SubsetCardinality<T>(a: set<T>, b: set<T>)
    requires a <= b
    ensures |a| <= |b| && (|a| == |b| ==> a == b)
  {
    if a != {} {
      var x :| x in a;
      SubsetCardinality(a - {x}, b - {x});
    }
  }

  lemma Member<T>(a: set<T>) returns (x: T)
    requires a != {}
    ensures x in a
  {
    x :| x in a;
  }

  ghost function Below(n: nat): set<nat> {
    if n == 0 then {} else Below(n - 1) + {n - 1}
  }

  lemma {:induction false} BelowHas(n: nat)
    ensures |Below(n)| == n && forall i: nat :: i in Below(n) <==> i < n
  {
    if n > 0 { BelowHas(n - 1); }
  }

  /** The sum of the values. */
  ghost function Sum(m: map<nat, nat>): nat
    decreases m.Keys
  {
    if m == map[] then 0
    else
      var t :| t in m;
      assert m.Keys - {t} < m.Keys;
      m[t] + Sum(m - {t})
  }

  lemma {:induction false} SumSplits(m: map<nat, nat>, t: nat)
    requires t in m
    ensures Sum(m) == m[t] + Sum(m - {t})
    decreases m.Keys
  {
    var u :| u in m && Sum(m) == m[u] + Sum(m - {u});
    if u != t {
      assert m.Keys - {u} < m.Keys && m.Keys - {t} < m.Keys;
      SumSplits(m - {u}, t);
      SumSplits(m - {t}, u);
      assert m - {u} - {t} == m - {t} - {u};
    }
  }

  lemma SumUpdate(m: map<nat, nat>, t: nat, v: nat)
    requires t in m
    ensures Sum(m[t := v]) + m[t] == Sum(m) + v
  {
    SumSplits(m, t);
    SumSplits(m[t := v], t);
    assert m[t := v] - {t} == m - {t};
  }

  /** A sequence without duplicates has as many elements as its length says. */
  lemma {:induction false} ElementsOf<T>(q: seq<T>)
    requires NoDup(q)
    ensures |set x: T | x in q| == |q|
  {
    if q != [] {
      var last, rest := q[|q| - 1], q[..|q| - 1];
      ElementsOf(rest);
      assert (set x: T | x in q) == (set x: T | x in rest) + {last};
    } else {
      assert (set x: T | x in q) == {};
    }
  }
}
