# LQOCProblem: stage-count bookkeeping of a linear-quadratic optimal-control problem

`ct::optcon::LQOCProblem` holds one linear-quadratic optimal-control problem
over `K` discrete stages: the affine time-varying dynamics (`A_`, `B_`, `d_`),
the reference state and control trajectories (`x_`, `u_`) and the LQ
approximation of the cost (`q_`, `qv_`, `Q_`, `rv_`, `R_`, `P_`), each an array
with one entry per stage. Its one behaviour is `changeNumStages(N)`, which stores
`N` as the stage count and resizes every array in place: per-transition and
per-control arrays to `N` entries, per-state arrays, which also carry the
terminal stage, to `N + 1`. The constructor delegates to it and
`getNumStages` reads the count back.

The model:

- `discrete_array.dfy`, module `DiscreteArray`: what resizing an array in place
  does, on values. `Resizes(s, r, n)` says `r` has `n` entries and keeps the
  first `min(n, |s|)` entries of `s`; entries past the old end are
  unconstrained (default-constructed). `Resized(s, n, blank)` is one such resize.
  Lemmas: resizing twice to the same length is a no-op the second time; after
  any series of resizes, the entries below every length the array ever had are
  the original ones.
- `lqoc_problem.dfy`, module `Problem`: `ProblemData` is the value of one
  problem object (count and eleven arrays); `Member` names the eleven arrays;
  `StageLength(m, n)` is `n + 1` for the state-indexed arrays `x_`, `q_`,
  `qv_`, `Q_` and `n` for the rest. `Consistent(p)` is the length invariant and
  `ChangedTo(p, p', n)` specifies a stage-count change. The class
  `LQOCProblem<E>` has the eleven arrays as `seq<E>` fields and the count `K`;
  `Valid()` is `Consistent(Model())`. Module `ProblemClient` shows what a caller
  can conclude from the class's contracts.

The Eigen matrices, vectors and scalars stored in the arrays are one opaque
element type `E`; their numeric content plays no part in the length invariant.

The comments at `LQOCProblem.h:54` and `:109` say the stage count includes the
terminal stage, but the code stores `N` while the state arrays get `N + 1`
entries. The model follows the code: `K == N`, and the terminal stage is the
extra entry of the state arrays.

## Model

| member | source | states |
|---|---|---|
| `Problem.LQOCProblem.constructor` | ct_optcon/include/ct/optcon/problem/LQOCProblem.h:49-52 | constructing with `N` stages (default 0) leaves `K == N`, the length invariant, `N` entries in each transition/control array and `N + 1` in each state array |
| `Problem.LQOCProblem.GetNumStages` | ct_optcon/include/ct/optcon/problem/LQOCProblem.h:55-58 | returns the stored count; on a valid object that count is non-negative, equals the length of each of `A`, `B`, `d`, `u`, `rv`, `R`, `P` and is one less than the length of each of `x`, `q`, `qv`, `Q`; being a function, it changes no field |
| `Problem.LQOCProblem.ChangeNumStages` | ct_optcon/include/ct/optcon/problem/LQOCProblem.h:61-79 | after the call `K == N`, the invariant holds, each of `A`, `B`, `d`, `u`, `rv`, `R`, `P` has `N` entries and each of `x`, `q`, `qv`, `Q` has `N + 1`; every array is a resize in place of its old value (`ChangedTo`), whatever the lengths were before |
| `Problem.ConsistentLengths` | ct_optcon/include/ct/optcon/problem/LQOCProblem.h:63-78 | the invariant holds if and only if the count is non-negative, the seven transition and control arrays have `K` entries and the four state arrays `K + 1` |
| `Problem.EmptyHorizon` | ct_optcon/include/ct/optcon/problem/LQOCProblem.h:49-52 | with zero stages (the constructor's default) the transition and control arrays are empty and each state array holds exactly one (terminal) entry |
| `Problem.ChangeEstablishes` | ct_optcon/include/ct/optcon/problem/LQOCProblem.h:61-79 | any stage-count change to `n` yields a consistent problem with count `n`, independent of the lengths before |
| `Problem.ResizedAllChanges` | ct_optcon/include/ct/optcon/problem/LQOCProblem.h:63-78 | storing `n` and resizing every array to its stage length, filling new entries with one default value, meets the specification `ChangedTo` |
| `Problem.ChangedToArrays` | ct_optcon/include/ct/optcon/problem/LQOCProblem.h:63-78 | a stage-count change to `n`, array by array: the count is `n`, each of `A`, `B`, `d`, `u`, `rv`, `R`, `P` is a resize in place of its old value to `n` entries and each of `x`, `q`, `qv`, `Q` to `n + 1` (old entries below the new length kept) |
| `Problem.ChangeIdempotent` | ct_optcon/include/ct/optcon/problem/LQOCProblem.h:61-79 | changing the stage count twice to the same `n` leaves the count, every length and every entry as the first change left them |
| `Problem.LastChangeDecides` | ct_optcon/include/ct/optcon/problem/LQOCProblem.h:61-79 | after any non-empty series of stage-count changes the problem is consistent and its count, hence every array length, is the last count supplied, whatever came before |
| `Problem.ChangesKeepStageData` | ct_optcon/include/ct/optcon/problem/LQOCProblem.h:65-78 | after any series of stage-count changes each array still holds its original entries at every stage index it kept throughout |
| `DiscreteArray.Resized` | ct_optcon/include/ct/optcon/problem/LQOCProblem.h:65-78 | a resize to `n` has exactly `n` entries |
| `DiscreteArray.ResizedResizes` | ct_optcon/include/ct/optcon/problem/LQOCProblem.h:65-78 | a resize keeps the entries below the new length and puts the default value in every new slot |
| `DiscreteArray.ResizeIdempotent` | ct_optcon/include/ct/optcon/problem/LQOCProblem.h:65-78 | resizing an array that already has `n` entries to `n` again leaves it unchanged |
| `DiscreteArray.ResizeChainKeepsPrefix` | ct_optcon/include/ct/optcon/problem/LQOCProblem.h:65-78 | after any series of resizes, the entries below the smallest length the array ever had are the original ones |

## Left out

- Element values: the Eigen matrices, vectors and scalars (`LQOCProblem.h:83-105`) are one opaque type `E`; their dimensions and numbers are not modelled.
- New entries: a resize leaves new entries default-constructed and unspecified; `ChangeNumStages` promises nothing about them (`ChangedTo` leaves them free). Its body fills them with one arbitrary value of `E`.
- `ChangeNumStages`: assumes `N + 1` fits in the source's 32-bit `int` (`N < 2147483647`; at `INT_MAX` the `N+1` of `LQOCProblem.h:68` and `:73-75` is signed overflow, undefined behaviour) and that every resize succeeds. A resize that throws (`std::bad_alloc`, `std::length_error`) leaves the source object with `K_ == N` already stored (`:63`) and only the arrays before it resized, which breaks the length invariant; the model's single update and its unconditional `Valid()` do not capture that state.
- Negative stage counts: the code passes any `int` to the resizes without a check; the model takes the count as a `nat`, so a negative `N` cannot be passed.
- Order of the resizes: the eleven resizes touch disjoint arrays, so the model computes them first and stores them with the new count in one simultaneous update instead of one after another; when no resize throws the final state is the same.
- The resize itself belongs to the array types of `ct_core` (`DiscreteArray`, a `std::vector` with an aligned allocator), which are not part of this model; it is modelled as `std::vector::resize` is specified: prefix kept, length set.
- `NLOCBackendMP.hpp` (a worker-thread pool for the nonlinear solver): only declarations of its members are available and its behaviour is thread coordination, so it is not modelled.
- `matlab.hpp`: a preprocessor switch whose fallback is an empty `MatFile` class; it has no behaviour to model.
