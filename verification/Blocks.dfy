/** Elements in blocks of equal size, one block a thread. */
module Blocks {

  lemma Multiple(k: int, per: int)
    requires per > 0
    ensures k >= 1 ==> k * per >= per
    ensures k <= -1 ==> k * per <= -per
  {
    if k >= 1 { assert k * per == per + (k - 1) * per; }
    if k <= -1 { assert k * per == -per + (k + 1) * per; }
  }

  lemma Quotient(e: int, q: int, r: int, per: int)
    requires per > 0 && e == q * per + r && 0 <= r < per
    ensures e / per == q && e % per == r
  {
    assert (q - e / per) * per == e % per - r;
    Multiple(q - e / per, per);
  }

  /** Block arithmetic: e is in block q at offset r. */
  lemma Block(e: int, q: int, r: int, per: int, threads: int)
    requires per > 0 && e == q * per + r && 0 <= r < per && 0 <= e < threads * per
    ensures 0 <= q < threads
    ensures r > 0 ==> (e - 1) / per == q && (e - 1) % per == r - 1
    ensures r + 1 < per ==> (e + 1) / per == q && (e + 1) % per == r + 1 && e + 1 < threads * per
  {
    Multiple(q - threads, per);
    Multiple(q + 1 - threads, per);
    Multiple(q, per);
    assert (q - threads) * per == q * per - threads * per;
    assert (q + 1 - threads) * per == q * per + per - threads * per;
    if r > 0 { Quotient(e - 1, q, r - 1, per); }
    if r + 1 < per { Quotient(e + 1, q, r + 1, per); }
  }

  lemma BlockStart(t: nat, per: nat, threads: nat)
    requires per > 0 && t < threads
    ensures t * per < threads * per && (t * per) / per == t && (t * per) % per == 0
  {
    assert (threads - t) * per == threads * per - t * per;
    Multiple(threads - t, per);
    Quotient(t * per, t, 0, per);
  }

  lemma WholeBlocks(n: nat, threads: nat)
    requires 0 < threads <= n
    ensures n / threads >= 1 && threads * (n / threads) <= n
  {
    var q, r := n / threads, n % threads;
    assert n == q * threads + r;
    if q == 0 { assert false; }
  }

  lemma SameBlock(t: int, i: int, per: int, u: int, j: int)
    requires 0 <= i < per && 0 <= j < per && t * per + i == u * per + j
    ensures t == u && i == j
  {
    Quotient(t * per + i, t, i, per);
    Quotient(t * per + i, u, j, per);
  }

  lemma InBlocks(t: int, i: int, per: int, threads: int)
    requires 0 <= t < threads && 0 <= i < per
    ensures 0 <= t * per + i < threads * per
  {
    Multiple(threads - t, per);
    Multiple(t, per);
    assert threads * per == t * per + (threads - t) * per;
  }
}
