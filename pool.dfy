/** The question pool as values: one `pop` after the refill rule, and what a
    run of pops without refill deals out. */
module QuestionPool {
  import opened Wrappers

  /** `a` holds the same elements as `b`, in some order. */
  ghost predicate IsPermutation<T>(a: seq<T>, b: seq<T>) {
    multiset(a) == multiset(b)
  }

  /** No element occurs twice. */
  ghost predicate Distinct<T>(s: seq<T>) {
    forall i, j :: 0 <= i < j < |s| ==> s[i] != s[j]
  }

  function Last<T>(s: seq<T>): T
    requires s != []
  {
    s[|s| - 1]
  }

  function DropLast<T>(s: seq<T>): seq<T>
    requires s != []
  {
    s[..|s| - 1]
  }

  /** One draw: an empty pool is first replaced by `refill`, then the last
      element is taken off; the result is the element drawn, if any, and the
      pool left behind. */
  function Draw<T>(pool: seq<T>, refill: seq<T>): (r: (Option<T>, seq<T>))
    ensures pool != [] ==> r.0 == Some(pool[|pool| - 1]) && r.1 + [pool[|pool| - 1]] == pool
    ensures pool == [] && refill != [] ==>
      r.0 == Some(refill[|refill| - 1]) && r.1 + [refill[|refill| - 1]] == refill
    ensures pool == [] && refill == [] ==> r.0 == None && r.1 == []
  {
    var p := if pool == [] then refill else pool;
    if p == [] then (None, [])
    else
      assert p == DropLast(p) + [Last(p)];
      (Some(Last(p)), DropLast(p))
  }

  /** A draw neither invents nor duplicates a question: what it deals and
      what it leaves are, together, the pool it drew from. */
  lemma DrawConserves<T>(pool: seq<T>, refill: seq<T>)
    ensures Draw(pool, refill).0.Some? ==>
      multiset(Draw(pool, refill).1) + multiset{Draw(pool, refill).0.value} ==
      multiset(if pool == [] then refill else pool)
  {
    var p := if pool == [] then refill else pool;
    if p != [] {
      assert p == DropLast(p) + [Last(p)];
    }
  }

  /** Drawing from a pool within the master list, refilled by a shuffle of
      it, deals a master question and leaves a pool within the master list. */
  lemma DrawWithin<T>(pool: seq<T>, refill: seq<T>, master: seq<T>)
    requires multiset(pool) <= multiset(master) && IsPermutation(refill, master)
    ensures multiset(Draw(pool, refill).1) <= multiset(master)
    ensures Draw(pool, refill).0.Some? ==> Draw(pool, refill).0.value in master
  {
    DrawConserves(pool, refill);
    var r := Draw(pool, refill);
    if r.0.Some? {
      assert r.0.value in multiset(if pool == [] then refill else pool);
    }
  }

  /** The first `k` questions dealt from `pool` by successive draws. */
  function Drain<T>(pool: seq<T>, k: nat): seq<T>
    requires k <= |pool|
  {
    if k == 0 then [] else [Last(pool)] + Drain(DropLast(pool), k - 1)
  }

  /** `Drain` is what successive draws deal: while the pool lasts, a draw
      deals the first question of the drain and leaves the rest of it. */
  lemma DrawThenDrain<T>(pool: seq<T>, refill: seq<T>, k: nat)
    requires 0 < k <= |pool|
    ensures Draw(pool, refill).0 == Some(Drain(pool, k)[0])
    ensures Drain(pool, k)[1..] == Drain(Draw(pool, refill).1, k - 1)
  {
  }

  /** Successive draws deal the top `k` questions of the pool, top first. */
  lemma {:induction false} DrainDealsTop<T>(pool: seq<T>, k: nat)
    requires k <= |pool|
    ensures |Drain(pool, k)| == k
    ensures forall i :: 0 <= i < k ==> Drain(pool, k)[i] == pool[|pool| - 1 - i]
  {
    if k > 0 {
      DrainDealsTop(DropLast(pool), k - 1);
    }
  }

  /** Draining a pool of distinct questions deals no question twice. */
  lemma DrainDistinct<T>(pool: seq<T>, k: nat)
    requires k <= |pool| && Distinct(pool)
    ensures Distinct(Drain(pool, k))
  {
    DrainDealsTop(pool, k);
  }

  /** Draining a pool that is a shuffle of the master list deals every
      master question exactly as often as the list holds it. */
  lemma {:induction false} DrainAllIsPermutation<T>(pool: seq<T>, master: seq<T>)
    requires IsPermutation(pool, master)
    ensures IsPermutation(Drain(pool, |pool|), master)
  {
    DrainAll(pool);
  }

  lemma {:induction false} DrainAll<T>(pool: seq<T>)
    ensures multiset(Drain(pool, |pool|)) == multiset(pool)
  {
    if pool != [] {
      DrainAll(DropLast(pool));
      assert pool == DropLast(pool) + [Last(pool)];
    }
  }
}
