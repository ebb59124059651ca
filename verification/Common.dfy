/** Failure types and identifiers shared by the models of the services. */
module Common {

  datatype Option<+T> = None | Some(value: T)

  datatype Result<+T, +E> = Ok(value: T) | Err(error: E)

  /** A UUID: all that matters is that there are infinitely many and that they can be compared. */
  type Uuid = nat

  /** Clock readings, in the unit of the clock: nanoseconds in Go, milliseconds in JavaScript. */
  type Time = int

  /** A subset is no larger, and a proper one is smaller. */
  lemma SubsetSize<T>(a: set<T>, b: set<T>)
    requires a <= b
    ensures |a| <= |b| && (a != b ==> |a| < |b|)
  {
    assert b == a + (b - a);
  }

  /** The sum of a measure over the entries of a map. */
  ghost function Total<T>(m: map<nat, T>, f: (nat, T) -> int): int
    decreases |m|
  {
    if m == map[] then 0
    else
      var k :| k in m;
      f(k, m[k]) + Total(m - {k}, f)
  }

  /** The sum can be taken starting from any key. */
  lemma {:induction false} TotalWithout<T>(m: map<nat, T>, f: (nat, T) -> int, k: nat)
    requires k in m
    ensures Total(m, f) == f(k, m[k]) + Total(m - {k}, f)
    decreases |m|
  {
    var first :| first in m && Total(m, f) == f(first, m[first]) + Total(m - {first}, f);
    if first != k {
      TotalWithout(m - {first}, f, k);
      TotalWithout(m - {k}, f, first);
      assert m - {first} - {k} == m - {k} - {first};
    }
  }

  lemma TotalChange<T>(m: map<nat, T>, f: (nat, T) -> int, k: nat, v: T)
    ensures Total(m[k := v], f) == Total(m, f) + f(k, v) - if k in m then f(k, m[k]) else 0
  {
    TotalWithout(m[k := v], f, k);
    assert m[k := v] - {k} == m - {k};
    if k in m {
      TotalWithout(m, f, k);
    } else {
      assert m - {k} == m;
    }
  }

  lemma {:induction false} TotalNonnegative<T>(m: map<nat, T>, f: (nat, T) -> int)
    requires forall k :: k in m ==> f(k, m[k]) >= 0
    ensures Total(m, f) >= 0
    decreases |m|
  {
    if m != map[] {
      var k :| k in m;
      TotalWithout(m, f, k);
      TotalNonnegative(m - {k}, f);
    }
  }

  /** Measures that agree on every entry have the same sum. */
  lemma {:induction false} TotalSame<T>(m: map<nat, T>, f: (nat, T) -> int, g: (nat, T) -> int)
    requires forall k :: k in m ==> f(k, m[k]) == g(k, m[k])
    ensures Total(m, f) == Total(m, g)
    decreases |m|
  {
    if m != map[] {
      var k :| k in m;
      TotalWithout(m, f, k);
      TotalWithout(m, g, k);
      TotalSame(m - {k}, f, g);
    }
  }

  lemma TotalDiffers<T>(m: map<nat, T>, f: (nat, T) -> int, g: (nat, T) -> int, k: nat)
    requires k in m && forall j :: j in m && j != k ==> f(j, m[j]) == g(j, m[j])
    ensures Total(m, g) == Total(m, f) + g(k, m[k]) - f(k, m[k])
  {
    TotalWithout(m, f, k);
    TotalWithout(m, g, k);
    TotalSame(m - {k}, f, g);
  }

  lemma {:induction false} TotalZero<T>(m: map<nat, T>, f: (nat, T) -> int)
    requires forall k :: k in m ==> f(k, m[k]) == 0
    ensures Total(m, f) == 0
    decreases |m|
  {
    if m != map[] {
      var k :| k in m;
      TotalWithout(m, f, k);
      TotalZero(m - {k}, f);
    }
  }
}
