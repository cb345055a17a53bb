/** `pickRandom`: one element of a pool, avoiding an excluded element when
    anything else is left. The random number is a parameter `u` in [0, 1),
    standing for `Math.random()`. */
module Picker {
  import opened Wrappers

  /** `pool.filter(p => p !== x)` */
  function Without<T(==)>(pool: seq<T>, x: T): (r: seq<T>)
    ensures multiset(r) == multiset(pool)[x := 0]
    ensures forall k :: 0 <= k < |r| ==> r[k] in pool && r[k] != x
    ensures forall k :: 0 <= k < |pool| && pool[k] != x ==> pool[k] in r
  {
    if pool == [] then []
    else
      assert pool == [pool[0]] + pool[1..];
      (if pool[0] == x then [] else [pool[0]]) + Without(pool[1..], x)
  }

  /** The list `pickRandom` indexes into: the pool without `exclude`, or the
      whole pool when that leaves nothing (or nothing is excluded). */
  function Candidates<T(==)>(pool: seq<T>, exclude: Option<T>): (r: seq<T>)
  {
    var available := if exclude.Some? then Without(pool, exclude.value) else pool;
    if |available| > 0 then available else pool
  }

  /** `Math.floor(u * n)` over the reals. */
  function DrawIndex(u: real, n: nat): (r: int)
  {
    (u * n as real).Floor
  }

  /** `pickRandom(pool, exclude)`: `source[Math.floor(Math.random() * source.length)] ?? null`. */
  function PickRandom<T(==)>(pool: seq<T>, exclude: Option<T>, u: real): (r: Option<T>)
    requires 0.0 <= u < 1.0
    ensures r.None? <==> pool == []
    ensures r.Some? ==> r.value in pool
    ensures exclude.Some? && (exists k :: 0 <= k < |pool| && pool[k] != exclude.value) ==> r != exclude
    ensures exclude.Some? && pool != [] && (forall k :: 0 <= k < |pool| ==> pool[k] == exclude.value) ==> r == exclude
  {
    var source := Candidates(pool, exclude);
    var k := DrawIndex(u, |source|);
    DrawIndexInRange(u, |source|);
    CandidatesSpec(pool, exclude);
    if 0 <= k < |source| then Some(source[k]) else None
  }

  /** For a non-empty list the drawn index is always a valid one. */
  lemma DrawIndexInRange(u: real, n: nat)
    requires 0.0 <= u < 1.0
    ensures n > 0 ==> 0 <= DrawIndex(u, n) < n
    ensures n == 0 ==> DrawIndex(u, n) == 0
  {
    var m := n as real;
    var x := u * m;
    assert 0.0 <= x;
    if n > 0 {
      assert x < m by {
        assert m - x == m * (1.0 - u);
        assert m * (1.0 - u) > 0.0;
      }
    }
  }

  /** Each index `j < n` is drawn for exactly the `u` in [j/n, (j+1)/n), an
      interval of width 1/n: a uniform `u` gives a uniform index. */
  lemma DrawIndexUniform(u: real, n: nat, j: nat)
    requires 0.0 <= u < 1.0 && j < n
    ensures DrawIndex(u, n) == j <==> (j as real) / (n as real) <= u < ((j + 1) as real) / (n as real)
  {
    var m := n as real;
    ScaleBound(j as real, m, u);
    ScaleBound((j + 1) as real, m, u);
  }

  /** Multiplying by a positive `m` preserves both orders between `a / m` and `u`. */
  lemma ScaleBound(a: real, m: real, u: real)
    requires m > 0.0
    ensures a / m <= u <==> a <= u * m
    ensures u < a / m <==> u * m < a
  {
    var q := a / m;
    assert q * m == a;
    assert u * m - a == (u - q) * m;
    if q <= u {
      assert (u - q) * m >= 0.0;
    } else {
      assert (q - u) * m > 0.0;
    }
  }

  /** What the candidate list holds. */
  lemma CandidatesSpec<T>(pool: seq<T>, exclude: Option<T>)
    ensures pool != [] ==> Candidates(pool, exclude) != []
    ensures pool == [] ==> Candidates(pool, exclude) == []
    ensures forall k :: 0 <= k < |Candidates(pool, exclude)| ==> Candidates(pool, exclude)[k] in pool
    ensures exclude.Some? && (exists k :: 0 <= k < |pool| && pool[k] != exclude.value) ==>
              Candidates(pool, exclude) == Without(pool, exclude.value)
    ensures exclude.Some? && (exists k :: 0 <= k < |pool| && pool[k] != exclude.value) ==>
              exclude.value !in Candidates(pool, exclude)
    ensures exclude.None? || (forall k :: 0 <= k < |pool| ==> pool[k] == exclude.value) ==>
              Candidates(pool, exclude) == pool
  {
    if exclude.Some? {
      var x := exclude.value;
      var w := Without(pool, x);
      assert forall p :: p in w <==> p in pool && p != x by {
        forall p ensures p in w <==> p in pool && p != x {
          assert p in w <==> multiset(w)[p] > 0;
          assert p in pool <==> multiset(pool)[p] > 0;
        }
      }
      if exists p :: p in pool && p != x {
        var p :| p in pool && p != x;
        assert p in w;
      }
    }
  }

  /** The candidate at position j is picked for every `u` of an interval of
      width 1/n, n being the number of candidates: with a uniform `u` no
      candidate is less likely than another, and none is unreachable. */
  lemma PickedInSlot<T>(pool: seq<T>, exclude: Option<T>, j: nat, u: real)
    requires j < |Candidates(pool, exclude)| && 0.0 <= u < 1.0
    requires (j as real) / (|Candidates(pool, exclude)| as real) <= u
    requires u < ((j + 1) as real) / (|Candidates(pool, exclude)| as real)
    ensures PickRandom(pool, exclude, u) == Some(Candidates(pool, exclude)[j])
  {
    DrawIndexUniform(u, |Candidates(pool, exclude)|, j);
  }
}
