/**
 * How `generate_chunk` splits the node ids `[0, n)` among `p` workers:
 * worker `id` takes `[(n/p)*id, min((n/p)*id + n/p, n))`. The remainder
 * `n % p` is given to no worker, so those top ids are never generated.
 */
module Partition {

  function Min(a: nat, b: nat): nat {
    if a <= b then a else b
  }

  /** The ids `a, a+1, ..., b-1` in increasing order (empty when `b <= a`). */
  function Range(a: nat, b: nat): (r: seq<nat>)
    ensures |r| == if a <= b then b - a else 0
    ensures forall i :: 0 <= i < |r| ==> r[i] == a + i
  {
    if b <= a then [] else seq(b - a, i requires 0 <= i < b - a => a + i)
  }

  lemma RangeAppend(a: nat, b: nat, c: nat)
    requires a <= b <= c
    ensures Range(a, b) + Range(b, c) == Range(a, c)
  {
  }

  lemma InRange(a: nat, b: nat, x: nat)
    ensures x in Range(a, b) <==> a <= x < b
  {
    if a <= x < b {
      assert Range(a, b)[x - a] == x;
    }
  }

  /** Number of ids each worker takes. */
  function ChunkSize(n: nat, p: nat): nat
    requires p > 0
  {
    n / p
  }

  function ChunkStart(n: nat, p: nat, id: nat): nat
    requires p > 0
  {
    ChunkSize(n, p) * id
  }

  function ChunkEnd(n: nat, p: nat, id: nat): nat
    requires p > 0
  {
    Min(ChunkStart(n, p, id) + ChunkSize(n, p), n)
  }

  /** The ids worker `id` generates, in the order it generates them. */
  function ChunkIds(n: nat, p: nat, id: nat): seq<nat>
    requires p > 0
  {
    Range(ChunkStart(n, p, id), ChunkEnd(n, p, id))
  }

  /** The ids generated by workers `0 .. k-1`, in worker order. */
  function IdsUpTo(n: nat, p: nat, k: nat): seq<nat>
    requires p > 0
  {
    if k == 0 then [] else IdsUpTo(n, p, k - 1) + ChunkIds(n, p, k - 1)
  }

  /** Every id the whole run generates, in merge order (none when `p == 0`). */
  function EmittedIds(n: nat, p: nat): seq<nat> {
    if p == 0 then [] else IdsUpTo(n, p, p)
  }

  /** The ids the run covers: `[0, Covered(n, p))`. */
  function Covered(n: nat, p: nat): nat {
    if p == 0 then 0 else (n / p) * p
  }

  lemma MulMono(a: nat, b: nat, c: nat)
    requires b <= c
    ensures a * b <= a * c
  {
  }

  /**
   * For every real worker the `min` never clamps: the chunk ends at
   * `start + n/p`, which is at most `n`, and its length is exactly `n/p`.
   */
  lemma ChunkFits(n: nat, p: nat, id: nat)
    requires 0 < p && id < p
    ensures ChunkStart(n, p, id) + ChunkSize(n, p) <= n
    ensures ChunkEnd(n, p, id) == ChunkStart(n, p, id) + n / p
    ensures |ChunkIds(n, p, id)| == n / p
  {
    var q := n / p;
    calc {
      ChunkStart(n, p, id) + q;
      q * id + q;
      q * (id + 1);
    <= { MulMono(q, id + 1, p); }
      q * p;
    <= n;
    }
  }

  /** Consecutive workers meet without gap or overlap. */
  lemma ChunksContiguous(n: nat, p: nat, id: nat)
    requires 0 < p && id + 1 < p
    ensures ChunkEnd(n, p, id) == ChunkStart(n, p, id + 1)
  {
    ChunkFits(n, p, id);
    assert (n / p) * (id + 1) == (n / p) * id + n / p;
  }

  /** Different workers never generate the same id. */
  lemma ChunksDisjoint(n: nat, p: nat, i: nat, j: nat, x: nat)
    requires 0 < p && i < j < p
    ensures !(x in ChunkIds(n, p, i) && x in ChunkIds(n, p, j))
  {
    ChunkFits(n, p, i);
    MulMono(n / p, i + 1, j);
    assert (n / p) * (i + 1) == (n / p) * i + n / p;
    InRange(ChunkStart(n, p, i), ChunkEnd(n, p, i), x);
    InRange(ChunkStart(n, p, j), ChunkEnd(n, p, j), x);
  }

  /** Worker `id` takes the ids from `(n/p)*id` up to `(n/p)*(id+1)`. */
  lemma ChunkIdsSpan(n: nat, p: nat, id: nat)
    requires 0 < p && id < p
    ensures ChunkIds(n, p, id) == Range(ChunkSize(n, p) * id, ChunkSize(n, p) * (id + 1))
    ensures ChunkSize(n, p) * id <= ChunkSize(n, p) * (id + 1) <= Covered(n, p)
  {
    var q := n / p;
    ChunkFits(n, p, id);
    assert q * (id + 1) == q * id + q;
    MulMono(q, id + 1, p);
  }

  /** Worker `id`'s ids followed by those of the workers after it run up to `Covered`. */
  lemma ChunkThenRest(n: nat, p: nat, id: nat)
    requires 0 < p && id < p
    ensures ChunkIds(n, p, id) + Range(ChunkSize(n, p) * (id + 1), Covered(n, p)) == Range(ChunkSize(n, p) * id, Covered(n, p))
  {
    ChunkIdsSpan(n, p, id);
    RangeAppend(ChunkSize(n, p) * id, ChunkSize(n, p) * (id + 1), Covered(n, p));
  }

  /** Workers `0 .. k-1` together generate exactly `0 .. (n/p)*k - 1`, in order. */
  lemma {:induction false} IdsUpToIsPrefix(n: nat, p: nat, k: nat)
    requires 0 < p && k <= p
    ensures IdsUpTo(n, p, k) == Range(0, ChunkSize(n, p) * k)
  {
    if k > 0 {
      IdsUpToIsPrefix(n, p, k - 1);
      ChunkIdsSpan(n, p, k - 1);
      RangeAppend(0, ChunkSize(n, p) * (k - 1), ChunkSize(n, p) * k);
    }
  }

  /** The run generates exactly the ids `0 .. (n/p)*p - 1`, each once, in increasing order. */
  lemma EmittedIdsExact(n: nat, p: nat)
    ensures EmittedIds(n, p) == Range(0, Covered(n, p))
    ensures Covered(n, p) <= n
  {
    if p > 0 {
      IdsUpToIsPrefix(n, p, p);
    }
  }

  /** An id below `n` is generated iff it lies below `n - n % p`; with no workers none is. */
  lemma EmittedIff(n: nat, p: nat, x: nat)
    requires x < n
    ensures x in EmittedIds(n, p) <==> (p > 0 && x < n - n % p)
  {
    EmittedIdsExact(n, p);
    InRange(0, Covered(n, p), x);
  }

  /** Every id in `[0, n)` is generated iff `p` divides `n` (for `p == 0`: iff `n == 0`). */
  lemma EmitsAllIff(n: nat, p: nat)
    ensures EmittedIds(n, p) == Range(0, n) <==> (if p == 0 then n == 0 else n % p == 0)
  {
    EmittedIdsExact(n, p);
    if EmittedIds(n, p) == Range(0, n) {
      assert |Range(0, Covered(n, p))| == |Range(0, n)|;
    }
  }

  /** With more workers than ids, every chunk is empty and nothing is generated. */
  lemma MoreWorkersThanIds(n: nat, p: nat)
    requires n < p
    ensures forall id :: 0 <= id < p ==> ChunkIds(n, p, id) == []
    ensures EmittedIds(n, p) == []
  {
    assert n / p == 0;
    EmittedIdsExact(n, p);
  }
}
