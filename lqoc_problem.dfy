/**
 * A linear-quadratic optimal-control problem over K stages: affine
 * time-varying dynamics (A, B, d), reference state and control trajectories
 * (x, u) and the LQ approximation of the cost (q, qv, Q, rv, R, P).
 * Per-transition and per-control arrays have K entries; per-state arrays
 * carry the terminal stage as well and have K + 1. The Eigen objects stored
 * in the arrays are one opaque element type E.
 */
module Problem {
  import opened DiscreteArray

  /** The eleven per-stage arrays, by role. */
  datatype Member =
    | DynA    // A_: state matrix of the dynamics
    | DynB    // B_: state-control matrix of the dynamics
    | DynD    // d_: affine term of the dynamics
    | RefX    // x_: reference state trajectory
    | RefU    // u_: reference control trajectory
    | CostQ0  // q_: constant cost term
    | CostQv  // qv_: state gradient of the cost
    | CostQ   // Q_: state Hessian of the cost
    | CostRv  // rv_: control gradient of the cost
    | CostR   // R_: control Hessian of the cost
    | CostP   // P_: state-control cross term of the cost

  /** The arrays indexed by state, which hold an entry for the terminal stage. */
  predicate CarriesTerminal(m: Member)
  {
    m.RefX? || m.CostQ0? || m.CostQv? || m.CostQ?
  }

  /** The length array `m` has in a problem with `n` stages. */
  function StageLength(m: Member, n: nat): nat
  {
    if CarriesTerminal(m) then n + 1 else n
  }

  /** The value of an LQOCProblem object: its stage count and its arrays. */
  datatype ProblemData<E> = ProblemData(
    K: int,
    A: seq<E>, B: seq<E>, d: seq<E>,
    x: seq<E>, u: seq<E>,
    q: seq<E>, qv: seq<E>, Q: seq<E>,
    rv: seq<E>, R: seq<E>, P: seq<E>)

  function Get<E>(p: ProblemData<E>, m: Member): seq<E>
  {
    match m
    case DynA => p.A
    case DynB => p.B
    case DynD => p.d
    case RefX => p.x
    case RefU => p.u
    case CostQ0 => p.q
    case CostQv => p.qv
    case CostQ => p.Q
    case CostRv => p.rv
    case CostR => p.R
    case CostP => p.P
  }

  /** Every array length is the one the stage count calls for. */
  ghost predicate Consistent<E>(p: ProblemData<E>)
  {
    p.K >= 0 && forall m :: |Get(p, m)| == StageLength(m, p.K)
  }

  /** `p'` is a state that changing the stage count of `p` to `n` may produce:
      the count is `n` and every array is resized in place to its length. */
  ghost predicate ChangedTo<E>(p: ProblemData<E>, p': ProblemData<E>, n: nat)
  {
    p'.K == n && forall m :: Resizes(Get(p, m), Get(p', m), StageLength(m, n))
  }

  /** Consistency, array by array: transition and control arrays have K
      entries, state arrays K + 1. */
  lemma ConsistentLengths<E>(p: ProblemData<E>)
    ensures Consistent(p) <==>
      p.K >= 0 &&
      |p.A| == p.K && |p.B| == p.K && |p.d| == p.K &&
      |p.u| == p.K && |p.rv| == p.K && |p.R| == p.K && |p.P| == p.K &&
      |p.x| == p.K + 1 && |p.q| == p.K + 1 && |p.qv| == p.K + 1 && |p.Q| == p.K + 1
  {
    if Consistent(p) {
      assert |Get(p, DynA)| == StageLength(DynA, p.K);
      assert |Get(p, DynB)| == StageLength(DynB, p.K);
      assert |Get(p, DynD)| == StageLength(DynD, p.K);
      assert |Get(p, RefU)| == StageLength(RefU, p.K);
      assert |Get(p, CostRv)| == StageLength(CostRv, p.K);
      assert |Get(p, CostR)| == StageLength(CostR, p.K);
      assert |Get(p, CostP)| == StageLength(CostP, p.K);
      assert |Get(p, RefX)| == StageLength(RefX, p.K);
      assert |Get(p, CostQ0)| == StageLength(CostQ0, p.K);
      assert |Get(p, CostQv)| == StageLength(CostQv, p.K);
      assert |Get(p, CostQ)| == StageLength(CostQ, p.K);
    }
  }

  /** With no stages, transition and control arrays are empty and each state
      array holds the terminal entry alone. */
  lemma EmptyHorizon<E>(p: ProblemData<E>)
    requires Consistent(p) && p.K == 0
    ensures p.A == [] && p.B == [] && p.d == [] && p.u == [] && p.rv == [] && p.R == [] && p.P == []
    ensures |p.x| == 1 && |p.q| == 1 && |p.qv| == 1 && |p.Q| == 1
  {
    ConsistentLengths(p);
  }

  /** Changing the stage count to `n` leaves a consistent problem with `n`
      stages, whatever the arrays' lengths were before. */
  lemma ChangeEstablishes<E>(p: ProblemData<E>, p': ProblemData<E>, n: nat)
    requires ChangedTo(p, p', n)
    ensures Consistent(p') && p'.K == n
  {
    forall m ensures |Get(p', m)| == StageLength(m, n) {
      assert Resizes(Get(p, m), Get(p', m), StageLength(m, n));
    }
  }

  /** A stage-count change, array by array: each transition and control
      array is resized in place to `n` entries, each state array to `n + 1`. */
  lemma ChangedToArrays<E>(p: ProblemData<E>, p': ProblemData<E>, n: nat)
    requires ChangedTo(p, p', n)
    ensures p'.K == n
    ensures Resizes(p.A, p'.A, n) && Resizes(p.B, p'.B, n) && Resizes(p.d, p'.d, n)
    ensures Resizes(p.u, p'.u, n) && Resizes(p.rv, p'.rv, n) && Resizes(p.R, p'.R, n)
    ensures Resizes(p.P, p'.P, n)
    ensures Resizes(p.x, p'.x, n + 1) && Resizes(p.q, p'.q, n + 1)
    ensures Resizes(p.qv, p'.qv, n + 1) && Resizes(p.Q, p'.Q, n + 1)
  {
    assert Resizes(Get(p, DynA), Get(p', DynA), StageLength(DynA, n));
    assert Resizes(Get(p, DynB), Get(p', DynB), StageLength(DynB, n));
    assert Resizes(Get(p, DynD), Get(p', DynD), StageLength(DynD, n));
    assert Resizes(Get(p, RefU), Get(p', RefU), StageLength(RefU, n));
    assert Resizes(Get(p, CostRv), Get(p', CostRv), StageLength(CostRv, n));
    assert Resizes(Get(p, CostR), Get(p', CostR), StageLength(CostR, n));
    assert Resizes(Get(p, CostP), Get(p', CostP), StageLength(CostP, n));
    assert Resizes(Get(p, RefX), Get(p', RefX), StageLength(RefX, n));
    assert Resizes(Get(p, CostQ0), Get(p', CostQ0), StageLength(CostQ0, n));
    assert Resizes(Get(p, CostQv), Get(p', CostQv), StageLength(CostQv, n));
    assert Resizes(Get(p, CostQ), Get(p', CostQ), StageLength(CostQ, n));
  }

  /** Changing the stage count twice to the same `n` gives the same problem,
      count and contents, as changing it once. */
  lemma ChangeIdempotent<E>(p: ProblemData<E>, p1: ProblemData<E>, p2: ProblemData<E>, n: nat)
    requires ChangedTo(p, p1, n) && ChangedTo(p1, p2, n)
    ensures p2 == p1
  {
    forall m ensures Get(p2, m) == Get(p1, m) {
      ResizeIdempotent(Get(p, m), Get(p1, m), Get(p2, m), StageLength(m, n));
    }
    assert Get(p2, DynA) == Get(p1, DynA) && Get(p2, DynB) == Get(p1, DynB);
    assert Get(p2, DynD) == Get(p1, DynD) && Get(p2, RefX) == Get(p1, RefX);
    assert Get(p2, RefU) == Get(p1, RefU) && Get(p2, CostQ0) == Get(p1, CostQ0);
    assert Get(p2, CostQv) == Get(p1, CostQv) && Get(p2, CostQ) == Get(p1, CostQ);
    assert Get(p2, CostRv) == Get(p1, CostRv) && Get(p2, CostR) == Get(p1, CostR);
    assert Get(p2, CostP) == Get(p1, CostP);
  }

  /** A stage-count change that fills every new entry with `blank` meets
      the specification of a change. */
  lemma ResizedAllChanges<E>(p: ProblemData<E>, p': ProblemData<E>, n: nat, blank: E)
    requires p'.K == n
    requires p'.A == Resized(p.A, n, blank) && p'.B == Resized(p.B, n, blank)
    requires p'.d == Resized(p.d, n, blank) && p'.x == Resized(p.x, n + 1, blank)
    requires p'.u == Resized(p.u, n, blank) && p'.q == Resized(p.q, n + 1, blank)
    requires p'.qv == Resized(p.qv, n + 1, blank) && p'.Q == Resized(p.Q, n + 1, blank)
    requires p'.rv == Resized(p.rv, n, blank) && p'.R == Resized(p.R, n, blank)
    requires p'.P == Resized(p.P, n, blank)
    ensures ChangedTo(p, p', n)
  {
    forall m ensures Resizes(Get(p, m), Get(p', m), StageLength(m, n)) {
      ResizedResizes(Get(p, m), StageLength(m, n), blank);
    }
  }

  /** `ps[i + 1]` results from changing the stage count of `ps[i]` to `ns[i]`. */
  ghost predicate Changes<E>(ps: seq<ProblemData<E>>, ns: seq<nat>)
  {
    |ps| == |ns| + 1 &&
    forall i :: 0 <= i < |ns| ==> ChangedTo(ps[i], ps[i + 1], ns[i])
  }

  /** After any series of stage-count changes, the problem is consistent and
      its count, hence every array length, is the last count supplied. */
  lemma LastChangeDecides<E>(ps: seq<ProblemData<E>>, ns: seq<nat>)
    requires Changes(ps, ns) && ns != []
    ensures Consistent(ps[|ns|]) && ps[|ns|].K == ns[|ns| - 1]
  {
    var k := |ns| - 1;
    assert ChangedTo(ps[k], ps[k + 1], ns[k]);
    ChangeEstablishes(ps[k], ps[k + 1], ns[k]);
  }

  /** After any series of stage-count changes, each array still holds its
      original entries at every stage index it kept throughout; `ls` are the
      lengths array `m` took over the series. */
  lemma ChangesKeepStageData<E>(ps: seq<ProblemData<E>>, ns: seq<nat>, m: Member, ls: seq<nat>)
    requires Changes(ps, ns)
    requires |ls| == |ns| && forall i :: 0 <= i < |ns| ==> ls[i] == StageLength(m, ns[i])
    ensures Floor(|Get(ps[0], m)|, ls) <= |Get(ps[|ns|], m)|
    ensures Get(ps[|ns|], m)[..Floor(|Get(ps[0], m)|, ls)] == Get(ps[0], m)[..Floor(|Get(ps[0], m)|, ls)]
  {
    var ss := seq(|ps|, i requires 0 <= i < |ps| => Get(ps[i], m));
    forall i | 0 <= i < |ls| ensures Resizes(ss[i], ss[i + 1], ls[i]) {
      assert ChangedTo(ps[i], ps[i + 1], ns[i]);
    }
    ResizeChainKeepsPrefix(ss, ls);
  }

  /** An LQ optimal-control problem whose arrays are resized in place. */
  class LQOCProblem<E(0)> {
    var A: seq<E>
    var B: seq<E>
    var d: seq<E>
    var x: seq<E>
    var u: seq<E>
    var q: seq<E>
    var qv: seq<E>
    var Q: seq<E>
    var rv: seq<E>
    var R: seq<E>
    var P: seq<E>
    /** The stage count, as last set by ChangeNumStages. */
    var K: int

    ghost function Model(): ProblemData<E>
      reads this
    {
      ProblemData(K, A, B, d, x, u, q, qv, Q, rv, R, P)
    }

    /** The length invariant: every array length is the one K calls for. */
    ghost predicate Valid()
      reads this
    {
      Consistent(Model())
    }

    /** Creates a problem with `N` stages (none by default). */
    constructor (N: nat := 0)
      ensures Valid() && K == N
      ensures |A| == N && |B| == N && |d| == N && |u| == N && |rv| == N && |R| == N && |P| == N
      ensures |x| == N + 1 && |q| == N + 1 && |qv| == N + 1 && |Q| == N + 1
    {
      new;
      ChangeNumStages(N);
    }

    /** The stage count: the length of every transition and control array,
        one less than that of every state array. As a function it reads the
        object and cannot change any field. */
    function GetNumStages(): (k: int)
      reads this
      ensures k == K
      ensures Valid() ==> k >= 0
      ensures Valid() ==> |A| == k && |B| == k && |d| == k && |u| == k && |rv| == k && |R| == k && |P| == k
      ensures Valid() ==> |x| == k + 1 && |q| == k + 1 && |qv| == k + 1 && |Q| == k + 1
    {
      ConsistentLengths(Model());
      K
    }

    /** Sets the stage count to `N` and resizes every array in place:
        transition and control arrays to `N`, state arrays to `N + 1`. */
    method ChangeNumStages(N: nat)
      modifies this
      ensures Valid() && K == N
      ensures ChangedTo(old(Model()), Model(), N)
      ensures |A| == N && |B| == N && |d| == N && |u| == N && |rv| == N && |R| == N && |P| == N
      ensures |x| == N + 1 && |q| == N + 1 && |qv| == N + 1 && |Q| == N + 1
    {
      ghost var before := Model();
      var blank: E := *;  // a default-constructed entry: its value is unspecified
      // The eleven resizes touch disjoint arrays, so they are computed first
      // and stored, with the new count, in one simultaneous update.
      var A', B' := Resized(A, N, blank), Resized(B, N, blank);
      var x', u' := Resized(x, N + 1, blank), Resized(u, N, blank);
      var d', P', q', qv', Q' :=
        Resized(d, N, blank), Resized(P, N, blank), Resized(q, N + 1, blank),
        Resized(qv, N + 1, blank), Resized(Q, N + 1, blank);
      var rv', R' := Resized(rv, N, blank), Resized(R, N, blank);
      K, A, B, x, u, d, P, q, qv, Q, rv, R := N, A', B', x', u', d', P', q', qv', Q', rv', R';
      ResizedAllChanges(before, Model(), N, blank);
      ChangeEstablishes(before, Model(), N);
      ConsistentLengths(Model());
    }
  }
}

/** A caller's view: what the contracts of LQOCProblem let a client conclude. */
module ProblemClient {
  import opened Problem

  method Scenario(N: nat, M: nat)
  {
    var p := new LQOCProblem<int>();
    assert p.GetNumStages() == 0 && p.A == [] && |p.x| == 1;
    assert p.GetNumStages() == |p.B| && |p.Q| == p.GetNumStages() + 1;

    ghost var empty := p.Model();
    p.ChangeNumStages(N);
    ghost var first := p.Model();
    ChangedToArrays(empty, first, N);
    assert first.x[..1] == empty.x[..1];
    p.ChangeNumStages(M);
    ghost var second := p.Model();
    p.ChangeNumStages(M);
    ChangeIdempotent(first, second, p.Model(), M);
    assert p.Model() == second;
    assert p.GetNumStages() == M && |p.A| == M && |p.Q| == M + 1;
  }
}
