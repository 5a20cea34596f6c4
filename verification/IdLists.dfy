/** Lists of identifiers without repetition: what the intrusive linked lists hold. */
module IdLists {
  predicate NoDup(q: seq<nat>)
  {
    q != [] ==> q[0] !in q[1..] && NoDup(q[1..])
  }

  /** A list without one of its members. */
  function Without(q: seq<nat>, x: nat): seq<nat>
  {
    if q == [] then []
    else if q[0] == x then Without(q[1..], x)
    else [q[0]] + Without(q[1..], x)
  }

  lemma {:induction false} WithoutOthers(q: seq<nat>, x: nat)
    ensures forall y :: y in Without(q, x) <==> y in q && y != x
    ensures |Without(q, x)| <= |q| && (x in q ==> |Without(q, x)| < |q|)
  {
    if q != [] {
      WithoutOthers(q[1..], x);
    }
  }

  lemma {:induction false} WithoutNoDup(q: seq<nat>, x: nat)
    requires NoDup(q)
    ensures NoDup(Without(q, x))
  {
    if q != [] {
      WithoutNoDup(q[1..], x);
      WithoutOthers(q[1..], x);
      if q[0] != x {
        assert Without(q, x)[1..] == Without(q[1..], x);
      }
    }
  }

  lemma {:induction false} WithoutNone(q: seq<nat>, x: nat)
    requires x !in q
    ensures Without(q, x) == q
  {
    if q != [] {
      WithoutNone(q[1..], x);
    }
  }

  lemma {:induction false} SnocNoDup(q: seq<nat>, x: nat)
    requires NoDup(q) && x !in q
    ensures NoDup(q + [x])
  {
    if q != [] {
      assert (q + [x])[1..] == q[1..] + [x];
      SnocNoDup(q[1..], x);
    }
  }

  /** a is b with some members left out, in the same order. */
  predicate Sub(a: seq<nat>, b: seq<nat>)
  {
    a == [] || (b != [] && ((a[0] == b[0] && Sub(a[1..], b[1..])) || Sub(a, b[1..])))
  }

  lemma {:induction false} SubSelf(q: seq<nat>)
    ensures Sub(q, q)
  {
    if q != [] {
      SubSelf(q[1..]);
    }
  }

  lemma {:induction false} SubTransitive(a: seq<nat>, b: seq<nat>, c: seq<nat>)
    requires Sub(a, b) && Sub(b, c)
    ensures Sub(a, c)
    decreases |b| + |c|
  {
    if a != [] {
      if b[0] == c[0] && Sub(b[1..], c[1..]) {
        if a[0] == b[0] && Sub(a[1..], b[1..]) {
          SubTransitive(a[1..], b[1..], c[1..]);
        } else {
          SubTransitive(a, b[1..], c[1..]);
        }
      } else {
        SubTransitive(a, b, c[1..]);
      }
    }
  }

  lemma {:induction false} WithoutSub(q: seq<nat>, x: nat)
    ensures Sub(Without(q, x), q)
  {
    if q != [] {
      WithoutSub(q[1..], x);
      if q[0] != x {
        assert Without(q, x)[1..] == Without(q[1..], x);
      }
    }
  }

  lemma {:induction false} SubAppend(p: seq<nat>, a: seq<nat>, b: seq<nat>)
    requires Sub(a, b)
    ensures Sub(p + a, p + b)
  {
    if p == [] {
      assert p + a == a && p + b == b;
    } else {
      SubAppend(p[1..], a, b);
      assert (p + a)[1..] == p[1..] + a && (p + b)[1..] == p[1..] + b;
    }
  }

  lemma {:induction false} SubShorter(a: seq<nat>, b: seq<nat>)
    requires Sub(a, b)
    ensures |a| <= |b|
    decreases b
  {
    if a != [] {
      if a[0] == b[0] && Sub(a[1..], b[1..]) {
        SubShorter(a[1..], b[1..]);
      } else {
        SubShorter(a, b[1..]);
      }
    }
  }

  /** The members of a list that are in the set, in order. */
  function Chosen(q: seq<nat>, all: set<nat>): seq<nat>
  {
    if q == [] then []
    else if q[0] in all then [q[0]] + Chosen(q[1..], all)
    else Chosen(q[1..], all)
  }

  lemma {:induction false} ChosenNone(q: seq<nat>, all: set<nat>)
    requires forall m :: 0 <= m < |q| ==> q[m] !in all
    ensures Chosen(q, all) == []
  {
    if q != [] {
      ChosenNone(q[1..], all);
    }
  }

  /** Without the first one chosen, the rest of the choice is left. */
  lemma {:induction false} ChosenTail(q: seq<nat>, all: set<nat>, n: nat)
    requires NoDup(q) && n < |q| && q[n] in all && forall m :: 0 <= m < n ==> q[m] !in all
    ensures Chosen(q, all) == [q[n]] + Chosen(Without(q, q[n]), all)
  {
    if n == 0 {
      WithoutNone(q[1..], q[0]);
    } else {
      assert q[1..][n - 1] == q[n];
      ChosenTail(q[1..], all, n - 1);
      assert Without(q, q[n]) == [q[0]] + Without(q[1..], q[n]);
      assert Without(q, q[n])[1..] == Without(q[1..], q[n]);
    }
  }
}
