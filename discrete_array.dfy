/**
 * The per-stage arrays of an LQ optimal-control problem are resizable
 * sequences of Eigen objects. Resizing one in place keeps the entries below
 * the new length and appends default-constructed entries, whose values are
 * unspecified. This module states that behaviour on values.
 */
module DiscreteArray {

  function Min(a: nat, b: nat): (r: nat)
    ensures r <= a && r <= b && (r == a || r == b)
  {
    if a <= b then a else b
  }

  /** `r` is what resizing `s` to length `n` may leave behind: `n` entries,
      the first `Min(n, |s|)` of them those of `s`, the rest unconstrained. */
  ghost predicate Resizes<E>(s: seq<E>, r: seq<E>, n: nat)
  {
    |r| == n && r[..Min(n, |s|)] == s[..Min(n, |s|)]
  }

  /** Resizing `s` to `n` entries where every new entry is `blank`. */
  function Resized<E>(s: seq<E>, n: nat, blank: E): (r: seq<E>)
    ensures |r| == n
  {
    if n <= |s| then s[..n] else s + seq(n - |s|, _ => blank)
  }

  /** `Resized` keeps the entries below the new length and fills the rest
      with `blank`. */
  lemma ResizedResizes<E>(s: seq<E>, n: nat, blank: E)
    ensures Resizes(s, Resized(s, n, blank), n)
    ensures forall i :: |s| <= i < n ==> Resized(s, n, blank)[i] == blank
  {
  }

  /** Resizing twice to the same length changes nothing the second time,
      whatever the new entries of the first resize were. */
  lemma ResizeIdempotent<E>(s: seq<E>, r: seq<E>, r2: seq<E>, n: nat)
    requires Resizes(s, r, n) && Resizes(r, r2, n)
    ensures r2 == r
  {
    assert r2 == r2[..n] && r == r[..n];
  }

  /** The smallest of `m` and every length in `ns`. */
  function Floor(m: nat, ns: seq<nat>): (r: nat)
    ensures r <= m
    ensures forall i :: 0 <= i < |ns| ==> r <= ns[i]
    ensures r == m || exists i :: 0 <= i < |ns| && r == ns[i]
  {
    if ns == [] then m else Min(Floor(m, ns[..|ns| - 1]), ns[|ns| - 1])
  }

  /** `ss[i + 1]` is a resize of `ss[i]` to `ns[i]` entries, for every step. */
  ghost predicate ResizeChain<E>(ss: seq<seq<E>>, ns: seq<nat>)
  {
    |ss| == |ns| + 1 &&
    forall i :: 0 <= i < |ns| ==> Resizes(ss[i], ss[i + 1], ns[i])
  }

  /** After any series of resizes, the entries below every length the array
      ever had are those it started with. */
  lemma {:induction false} ResizeChainKeepsPrefix<E>(ss: seq<seq<E>>, ns: seq<nat>)
    requires ResizeChain(ss, ns)
    ensures Floor(|ss[0]|, ns) <= |ss[|ns|]|
    ensures ss[|ns|][..Floor(|ss[0]|, ns)] == ss[0][..Floor(|ss[0]|, ns)]
  {
    if ns != [] {
      var k := |ns| - 1;
      var ss', ns' := ss[..k + 1], ns[..k];
      assert ResizeChain(ss', ns') by {
        forall i | 0 <= i < |ns'|
          ensures Resizes(ss'[i], ss'[i + 1], ns'[i])
        {
          assert Resizes(ss[i], ss[i + 1], ns[i]);
        }
      }
      ResizeChainKeepsPrefix(ss', ns');
      var lo', lo := Floor(|ss[0]|, ns'), Floor(|ss[0]|, ns);
      assert lo == Min(lo', ns[k]);
      assert Resizes(ss[k], ss[k + 1], ns[k]);
      var m := Min(ns[k], |ss[k]|);
      assert lo <= m;
      calc {
        ss[k + 1][..lo];
        ss[k + 1][..m][..lo];
        ss[k][..m][..lo];
        ss[k][..lo];
        ss[k][..lo'][..lo];
        ss[0][..lo'][..lo];
        ss[0][..lo];
      }
    }
  }
}
