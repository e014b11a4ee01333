# PETSc mesh redistribution, quasi-Newton bookkeeping and integer hash set, in Dafny

This project models three parts of PETSc and proves properties of each.

**Mesh redistribution (`src/dm/ao/examples/tutorials/ex2.c`).** The example
distributes a triangle mesh over `size` ranks in five phases:

- *Read.* Vertices and elements are split naively. Rank `i` gets
  `n/size + (n % size > i)` of each. Each rank builds a compressed-row
  adjacency graph (`ia`, `ja`) of its elements, dropping negative (boundary)
  neighbour ids.
- *Partition elements.* A partitioner chooses a destination rank
  (`isnewproc`) for each element.
- *Move elements.*
  - The destinations are counted per rank.
  - They are turned into a contiguous new element numbering.
  - The numbering is scaled by 3.
  - Every element's three vertex ids are scattered to its new owner.
- *Partition vertices.* A bit mask of `n_vert` bits travels around a ring of
  ranks:
  - Every rank except the last claims the unmarked vertices its elements
    reference, in order, up to `n_vert/size`.
  - The last rank takes whatever is still unmarked.
- *Move vertices.*
  - An application ordering built from the claimed lists renumbers every
    element reference.
  - The claimed vertices' coordinates are gathered to their owners.

The files:

- `data_read.dfy` models the split and the adjacency builder.
- `element_move.dfy` states the element numbering and scatter as functions
  and proves them.
- `vertex_ownership.dfy` does the same for the claim scan and the ring.
- `vertex_move.dfy` does the same for the renumbering and the coordinate
  gather.
- `world.dfy` composes the phases as functions over the states of all ranks.
- `grid.dfy` holds:
  - the mutable per-rank `GridData` class;
  - the phases as methods that update each rank in place, each proved to
    produce exactly the state the `World` function describes.

**Quasi-Newton solver (`src/snes/impls/qn/qn.c`).** `quasi_newton.dfy` models
the solver object:

- the defaults set at creation;
- the DEFAULT choices resolved at set-up;
- the three setters;
- the counters of the solve loop: the iteration count, the restart counter
  `i_r`, the line-search failure count, and the converged reason.

The numerical content of an iteration enters as an oracle `Trial` per
iteration. The oracle reports whether:

- the function-count limit was hit;
- the line search failed;
- the inner solver diverged;
- the convergence test set a reason;
- Powell's restart test held.

**Integer hash set (`src/sys/tests/ex41.c`).** `hash_set.dfy` models
`PetscHSetI` as its test uses it:

- A class with its keys in slot order and a capacity.
- Set-level contracts for every operation.
- Methods replaying the test's checks, each proved to return `true`.

`seqs.dfy` holds the shared sequence vocabulary:

- sums, concatenation, counting;
- blocks of a flat vector, block scatter and gather;
- permutations of `[0, n)`.

## Model

| member | source | states |
|---|---|---|
| DataRead.SplitPrefix | src/dm/ao/examples/tutorials/ex2.c:204-207 | the first k ranks together hold (n/size)*k + min(k, n%size) items |
| DataRead.SplitTotal | src/dm/ao/examples/tutorials/ex2.c:248-251 | the per-rank counts add up to n: the split loses and duplicates nothing |
| DataRead.SplitBalanced | src/dm/ao/examples/tutorials/ex2.c:349-357 | a rank gets n/size + 1 iff its index is below n%size, else n/size; counts never increase with the rank index and differ by at most one |
| DataRead.SplitRootShare | src/dm/ao/examples/tutorials/ex2.c:196 | rank 0's share as the root computes it equals its split count, and is at least any other rank's, so the buffers sized from it fit every rank |
| DataRead.RowNeighborsFacts | src/dm/ao/examples/tutorials/ex2.c:291-293 | an adjacency row keeps exactly the non-negative neighbour ids, in order, at most three |
| DataRead.PutIfPresent | src/dm/ao/examples/tutorials/ex2.c:291 | a non-negative id is appended at `net` and the fill grows by one; a negative id changes nothing |
| DataRead.PutRow | src/dm/ao/examples/tutorials/ex2.c:291-294 | `ja` up to the new fill is the old prefix followed by the row's present neighbours; the fill grows by at most 3 |
| DataRead.BuildAdjacency | src/dm/ao/examples/tutorials/ex2.c:282-295 | `ia[0] == 0`; `ia[i]` is the total length of rows before i; `ja[..ia[m]]` is the rows concatenated; `ia[m] <= 3m`, so the 3m+1 allocation suffices |
| DataRead.AdjacencyRows | src/dm/ao/examples/tutorials/ex2.c:311-324 | for any such graph, row i of `ja` (between `ia[i]` and `ia[i+1]`) is exactly element i's present neighbours, its length is their count (at most 3), and it holds no negative id |
| ElementMove.CountsTotal | src/dm/ao/examples/tutorials/ex2.c:455-456 | the per-rank counts of the destinations are non-negative and add up to the number of elements |
| ElementMove.StartIsBelow | src/dm/ao/examples/tutorials/ex2.c:461 | rank r's block of the new numbering begins after exactly the elements headed for lower ranks |
| ElementMove.StartStep | src/dm/ao/examples/tutorials/ex2.c:461 | block starts are non-decreasing within [0, n_ele], and rank r's block is counts[r] long |
| ElementMove.NumberingInBlock | src/dm/ao/examples/tutorials/ex2.c:466 | an element's new id lies inside its destination rank's block |
| ElementMove.NumberingStable | src/dm/ao/examples/tutorials/ex2.c:466 | elements headed for the same rank keep their relative order |
| ElementMove.NumberingInjective | src/dm/ao/examples/tutorials/ex2.c:466 | two different elements never get the same new id |
| ElementMove.NumberingBijective | src/dm/ao/examples/tutorials/ex2.c:466 | the new ids are a permutation of [0, n_ele) |
| ElementMove.NumberingOwner | src/dm/ao/examples/tutorials/ex2.c:466 | every id in rank r's block belongs to exactly one element headed for r: the one with that many earlier elements headed for r |
| ElementMove.NumberingIdentity | src/dm/ao/examples/tutorials/ex2.c:466 | when destinations are already in rank order, the numbering is the identity |
| ElementMove.ScatterPlan | src/dm/ao/examples/tutorials/ex2.c:474-477 | the scaled ids 3*num[g] place every three-entry record inside the 3*n_ele vector, with no two records overlapping |
| ElementMove.ElementLands | src/dm/ao/examples/tutorials/ex2.c:494-497 | after the scatter, entries 3*num[g]..3*num[g]+2 of the global vector are element g's three vertex ids, unchanged |
| ElementMove.ReceivedInRange | src/dm/ao/examples/tutorials/ex2.c:504-511 | if every record held vertex ids below n, every rank's received list still does |
| ElementMove.RankRecord | src/dm/ao/examples/tutorials/ex2.c:504-511 | record j of rank r's new list is the j-th element (in global order) headed for r |
| ElementMove.RankReceives | src/dm/ao/examples/tutorials/ex2.c:504-511 | rank r's new element list, record by record, is exactly the elements headed for r, in their original order |
| VertexOwnership.ScanSound | src/dm/ao/examples/tutorials/ex2.c:603-613 | the scan's mask gains exactly the claimed ids and loses none; claimed ids are references that were unmarked; no id is claimed twice; at most max(nmax, 1) are claimed |
| VertexOwnership.ScanCount | src/dm/ao/examples/tutorials/ex2.c:607-608 | every claim sets exactly one more bit of the mask |
| VertexOwnership.ScanComplete | src/dm/ao/examples/tutorials/ex2.c:603-613 | a scan that never reached its quota leaves every one of its references marked |
| VertexOwnership.StoppedStays | src/dm/ao/examples/tutorials/ex2.c:609 | once the quota is reached, the remaining references are never looked at |
| VertexOwnership.ScanSkip | src/dm/ao/examples/tutorials/ex2.c:607 | a reference already marked changes neither the mask nor the claim list |
| VertexOwnership.ScanClaim | src/dm/ao/examples/tutorials/ex2.c:607-608 | an unmarked reference, while the scan runs, is marked and appended to the claims |
| VertexOwnership.UnclaimedExact | src/dm/ao/examples/tutorials/ex2.c:586-594 | the last rank's list holds exactly the unmarked ids, increasing, each once; its length is n_vert minus the marked count (the `nlocal` counted first) |
| VertexOwnership.RingPrefix | src/dm/ao/examples/tutorials/ex2.c:582-584 | the mask rank r receives marks exactly the ids the ranks before it claimed; those claims are distinct and below n_vert |
| VertexOwnership.RingPartition | src/dm/ao/examples/tutorials/ex2.c:586-627 | after the ring, the claim lists rank after rank are a permutation of [0, n_vert): every vertex is owned by exactly one rank, and the nlocal values sum to n_vert |
| VertexOwnership.NonLastClaims | src/dm/ao/examples/tutorials/ex2.c:574-577 | a non-last rank claims only ids its own elements reference and that no earlier rank claimed, and at most max(n_vert/size, 1) of them |
| VertexMove.ApplicationToPetsc | src/dm/ao/examples/tutorials/ex2.c:665 | the new id w of old vertex v is a position in the ordering that holds v, whenever v is in the ordering |
| VertexMove.ClaimedVertexNewId | src/dm/ao/examples/tutorials/ex2.c:660 | rank r's k-th claimed vertex gets new id (sum of nlocal over ranks below r) + k |
| VertexMove.RenumberRoundTrip | src/dm/ao/examples/tutorials/ex2.c:665 | with the ordering a permutation of [0, n_vert), renumbered ids stay below n_vert and map back through the ordering to the old ids |
| VertexMove.RenumberInjective | src/dm/ao/examples/tutorials/ex2.c:665 | two different old vertices never get the same new id |
| VertexMove.ScaledFits | src/dm/ao/examples/tutorials/ex2.c:694-695 | the claimed ids doubled address coordinate pairs inside the 2*n_vert vector |
| VertexMove.MovedCoordinatesAt | src/dm/ao/examples/tutorials/ex2.c:701-717 | new vert[2k..2k+1] are the old coordinates of vertex localvert[k] |
| VertexMove.ReferenceConsistency | src/dm/ao/examples/tutorials/ex2.c:660-717 | end to end: an element that referenced old vertex x now references the new id of x, and the rank owning that id holds x's old coordinates at it |
| World.Records | src/dm/ao/examples/tutorials/ex2.c:486-488 | the ranks' element lists cut into three-entry records, one per destination |
| World.RecordsInRange | src/dm/ao/examples/tutorials/ex2.c:486-488 | records carry only vertex ids found in the ranks' element lists |
| World.ElementShare | src/dm/ao/examples/tutorials/ex2.c:504-511 | rank r's state after the element phase is its old state with its window of the scattered vector, counts[r] elements and no destinations |
| World.ElementsMovedFacts | src/dm/ao/examples/tutorials/ex2.c:440-524 | the element phase keeps the states well formed, moves no coordinates or claims, keeps every reference below n_vert, and gives each rank the elements headed for it, in order |
| World.OwnedFacts | src/dm/ao/examples/tutorials/ex2.c:560-639 | after the ring, the claims are a permutation of [0, n_vert) summing to n_vert, and the element lists and coordinates are unchanged |
| World.OwnedRefsInRange | src/dm/ao/examples/tutorials/ex2.c:560-639 | the ring changes no element list, so every reference stays below n_vert |
| World.VerticesMovedFacts | src/dm/ao/examples/tutorials/ex2.c:645-727 | the vertex move keeps the states well formed and the claims, keeps every reference below n_vert after renumbering, keeps each rank's element count, and sets its vertex count to its claim count |
| World.Redistributed | src/dm/ao/examples/tutorials/ex2.c:136-148 | after the three phases every vertex has exactly one owner, each rank holds counts[r] elements whose references are new ids below n_vert, and its vertex count is its claim count |
| World.RedistributedStages | src/dm/ao/examples/tutorials/ex2.c:141-148 | each phase's precondition is met by the previous phase's result, and the whole is the composition of the three phases |
| Grid.ScaleIndices | src/dm/ao/examples/tutorials/ex2.c:474-476 | every index is multiplied by f in place, entry by entry |
| Grid.LookupSetAppend | src/dm/ao/examples/tutorials/ex2.c:607-609 | the bit is set; a bit already set changes nothing; a clear bit appends v and reports whether the count reached nmax |
| Grid.ScanCorner | src/dm/ao/examples/tutorials/ex2.c:607-609 | one corner advances the mask and claims as the scan function does; on stop they are the whole scan's result |
| Grid.ScanElement | src/dm/ao/examples/tutorials/ex2.c:606-611 | the three corners of element i advance the mask and claims as the scan function does |
| Grid.GridData.constructor | src/dm/ao/examples/tutorials/ex2.c:65-73 | a rank's state after reading and partitioning: counts match the arrays, nothing claimed yet |
| Grid.GridData.ClaimVertices | src/dm/ao/examples/tutorials/ex2.c:603-613 | the in-place scan leaves the mask and `localvert` exactly as the scan function says, and changes no other field |
| Grid.GridData.ClaimRemaining | src/dm/ao/examples/tutorials/ex2.c:586-594 | the last rank's `localvert` is exactly the unmarked ids, with the count loop of 586-594 sizing the buffer and the fill loop of 614-621 filling it |
| Grid.GridData.PartitionVertices | src/dm/ao/examples/tutorials/ex2.c:574-631 | a rank's ring turn: non-last ranks scan with quota n_vert/size, and the last rank takes the rest without touching the mask |
| Grid.GridData.ReceiveElements | src/dm/ao/examples/tutorials/ex2.c:504-511 | the rank's element list becomes its window of the scattered vector, its count becomes counts[r], and its destinations are consumed |
| Grid.GridData.MoveVertices | src/dm/ao/examples/tutorials/ex2.c:660-717 | references are renumbered through the ordering, coordinates become the claimed pairs, and `mlocal_vert` becomes `nlocal` |
| Grid.ScatterElements | src/dm/ao/examples/tutorials/ex2.c:466-497 | number, scale by 3 in place and scatter: the result is the specified scattered vector |
| Grid.ElementLoop | src/dm/ao/examples/tutorials/ex2.c:504-511 | rank by rank, each rank takes its element window and the others stay as they were; one rank's turn is the helper `ElementTurn`, and `PhaseDone` closes the loop |
| Grid.MoveElements | src/dm/ao/examples/tutorials/ex2.c:440-524 | the ranks' states afterwards are exactly `ElementsMoved` of the states before |
| Grid.RingTurn | src/dm/ao/examples/tutorials/ex2.c:582-627 | rank r's turn: the mask passed on is what the next rank must receive, and rank r owns its claims |
| Grid.RingLoop | src/dm/ao/examples/tutorials/ex2.c:582-627 | the mask goes round the ranks in order and each takes its claims; one rank's turn is the helper `RingTurn`, and `PhaseDone` closes the loop |
| Grid.PartitionVerticesRing | src/dm/ao/examples/tutorials/ex2.c:560-639 | the ranks' states afterwards are exactly `Owned` of the states before |
| Grid.VertexLoop | src/dm/ao/examples/tutorials/ex2.c:660-717 | every rank moves its vertices in turn; one rank's turn is the helper `VertexTurn`, and `PhaseDone` closes the loop |
| Grid.MoveVerticesAll | src/dm/ao/examples/tutorials/ex2.c:645-727 | the ranks' states afterwards are exactly `VerticesMoved` of the states before |
| Grid.Redistribute | src/dm/ao/examples/tutorials/ex2.c:141-148 | running the three phases in place leaves exactly `Redistributed` of the states before |
| QuasiNewton.ResolvedNeverDefault | src/snes/impls/qn/qn.c:250-277 | after set-up, neither the scale nor the restart type is DEFAULT, nor is the function type under left preconditioning; both Broyden variants always end with scale NONE |
| QuasiNewton.ResolvedChoices | src/snes/impls/qn/qn.c:250-266 | an explicit L-BFGS scale or any explicit restart type survives set-up; DEFAULT scale becomes SCALAR for L-BFGS and NONE otherwise; DEFAULT restart becomes POWELL iff L-BFGS; the function type changes iff left-preconditioned and DEFAULT |
| QuasiNewton.ResolveIdempotent | src/snes/impls/qn/qn.c:250-296 | setting up twice resolves to the same choices as setting up once |
| QuasiNewton.IterateFailures | src/snes/impls/qn/qn.c:136-143 | a failed line search adds one to the failure count; reaching max_failures stops with DIVERGED_LINE_SEARCH; otherwise the step restarts (`i_r` back to 0) |
| QuasiNewton.IterateRestart | src/snes/impls/qn/qn.c:187-223 | a completed iteration advances i and the iteration number together; PERIODIC resets `i_r` once it passes m-1; POWELL with `i_r` <= 1 and NONE never reset |
| QuasiNewton.LoopRestartBound | src/snes/impls/qn/qn.c:202-217 | with PERIODIC restarts and m >= 1, `i_r` stays within [0, m] throughout the loop |
| QuasiNewton.LoopEnds | src/snes/impls/qn/qn.c:123-224 | the loop either runs out with i == max_its and no reason set, or leaves early with i < max_its and a reason other than DIVERGED_MAX_IT; the iteration number never passes i + 1 |
| QuasiNewton.LoopFailures | src/snes/impls/qn/qn.c:137-141 | the loop sets DIVERGED_LINE_SEARCH only with the failure count at max_failures or beyond |
| QuasiNewton.SolveEnds | src/snes/impls/qn/qn.c:53-228 | every solve with max_its >= 0 ends with a reason; DIVERGED_MAX_IT is reported iff no pre-loop check stopped it and all max_its iterations ran, and then i == max_its |
| QuasiNewton.Snes.constructor | src/snes/impls/qn/qn.c:574-595 | left nonlinear preconditioning, max_its 10000 and max_funcs 30000 unless tolerances were set, m = 10, L-BFGS with DEFAULT scale and restart |
| QuasiNewton.Snes.SetUp | src/snes/impls/qn/qn.c:247-296 | set-up replaces the function, scale and restart types by their resolved values; every other setting (`Config`) and the counters are unchanged |
| QuasiNewton.Snes.SetScaleType | src/snes/impls/qn/qn.c:455-462 | stores the scale type; JACOBIAN also makes the solver use a linear solver; every other setting (`Config`) and the counters are unchanged |
| QuasiNewton.Snes.SetRestartType | src/snes/impls/qn/qn.c:465-471 | stores the restart type; every other setting (`Config`) and the counters are unchanged |
| QuasiNewton.Snes.SetType | src/snes/impls/qn/qn.c:505-511 | stores the QN variant; every other setting (`Config`) and the counters are unchanged |
| QuasiNewton.Snes.Iteration | src/snes/impls/qn/qn.c:124-223 | one pass of the loop body moves the loop counters, failure count, iteration number and reason exactly as `Iterate`, and changes no setting |
| QuasiNewton.Snes.RunLoop | src/snes/impls/qn/qn.c:123-228 | the in-place loop and the iteration-limit rule leave the counters and reason exactly as `Loop` then `Finish`, and change no setting |
| QuasiNewton.Snes.Solve | src/snes/impls/qn/qn.c:23-230 | a solver with bounds is refused and unchanged; otherwise the failure count, iteration number and reason end as `Solved` says; no setting changes on either path |
| HashSet.HSetI.constructor | src/sys/tests/ex41.c:19-22 | a new set is empty |
| HashSet.HSetI.GetSize | src/sys/tests/ex41.c:21-22 | the size is the number of elements |
| HashSet.HSetI.GetCapacity | src/sys/tests/ex41.c:117-120 | the capacity is at least the number of elements |
| HashSet.HSetI.Has | src/sys/tests/ex41.c:28-35 | true iff x is an element |
| HashSet.HSetI.Resize | src/sys/tests/ex41.c:115-120 | the elements stay, and the capacity becomes at least k and, in this model, never shrinks |
| HashSet.HSetI.Add | src/sys/tests/ex41.c:31-35 | the elements become old + {x}; the size grows by one iff x was absent; the capacity never shrinks |
| HashSet.HSetI.Del | src/sys/tests/ex41.c:37-43 | the elements become old - {x}; the size drops by one iff x was present; deleting an absent key is not an error |
| HashSet.HSetI.QueryAdd | src/sys/tests/ex41.c:45-48 | inserts x and reports true iff x was absent |
| HashSet.HSetI.QueryDel | src/sys/tests/ex41.c:49-52 | removes x and reports true iff x was present |
| HashSet.HSetI.Clear | src/sys/tests/ex41.c:58-60 | the set becomes empty and keeps its capacity |
| HashSet.HSetI.Reset | src/sys/tests/ex41.c:93-98 | the set becomes empty, its room is released, and it stays usable |
| HashSet.HSetI.GetElems | src/sys/tests/ex41.c:67-79 | writes each element exactly once at arr[off..off+size] and returns off+size, leaving the rest of the array alone |
| HashSet.HSetI.Duplicate | src/sys/tests/ex41.c:81-87 | a fresh set with exactly the same elements; in this model it also gets the same capacity |
| HashSet.HSetI.Update | src/sys/tests/ex41.c:127-131 | this set becomes the union of both sets (also when both are the same object), and its capacity never shrinks |
| HashSet.IncreasingRange | src/sys/tests/ex41.c:137-141 | a sorted listing of exactly lo..lo+n-1 has lo+i at position i |
| HashSet.Fill | src/sys/tests/ex41.c:121-126 | adding 1..n to one set and n+1..2n to another leaves exactly those ranges, with no lost capacity; one pass of the loop (ex41.c:122-123) is the helper `FillTurn` |
| HashSet.MergeScenario | src/sys/tests/ex41.c:112-141 | both sets have room for n after the resize and the first loses none in its fill; after the merge the size is 2n, the listing holds exactly 1..2n, each once, and any increasing arrangement of it reads 1, 2, ..., 2n |
| HashSet.SortedListing | src/sys/tests/ex41.c:136-141 | a listing holding exactly 1..m, once sorted, has i + 1 at every position i, as the test checks after sorting |
| HashSet.LookupScenario | src/sys/tests/ex41.c:19-43 | every check of the lookup, insert and delete part holds |
| HashSet.QueryScenario | src/sys/tests/ex41.c:45-52 | every check of the query part holds |
| HashSet.ListingScenario | src/sys/tests/ex41.c:54-88 | every check of the resize, clear, listing and duplicate part holds, including that each listing sorts to (13, 42) |
| HashSet.ResetScenario | src/sys/tests/ex41.c:90-110 | every check of the reset part holds, including a reset of a newly created set |

## Left out

- File input, `printf`/viewer output, logging events and timing in ex2.c. The model starts from the values the reader would have read.
- The MPI transport in ex2.c: broadcasts, sends and receives, the vector scatters and the application ordering (AO). Each collective step is modelled as a specification function over all ranks' data in rank order. Vector ownership is contiguous by rank.
- The partitioner (`DataPartitionElements`, ex2.c:390-433). Its output, `isnewproc`, is an input to the model, with any destination below `size` allowed.
- `ia`, `ja` as `GridData` fields: `BuildAdjacency` returns them. The partitioner that consumes them is not modelled.
- The int-to-double-to-int round trip of the element vertex ids (ex2.c:486-488, 509-510) is taken as exact.
- Coordinates are `real` values that are only moved, never computed on.
- `localvert` after the vertex move: the source doubles it in place and then frees it (ex2.c:694-696). The model doubles a copy and keeps the unscaled claim list.
- The global numbering vector (`isnum`/`idx`) is modelled at the level of all ranks, and `isnewproc` is consumed (emptied) by the element phase.
- The numerics of the quasi-Newton solve are left out: the LMVM matrix updates and solves, the line search, vector norms and Powell's dot products (qn.c:125-132, 188-201). Their outcomes are the per-iteration `Trial` inputs.
- Also left out of the quasi-Newton model:
  - `SNESCheckFunctionNorm` (qn.c:74);
  - the Jacobian recomputation on restart;
  - the monitor;
  - the options database and the viewer (`SNESSetFromOptions_QN`, `SNESView_QN`, `SNESReset_QN`, `SNESDestroy_QN`);
  - the norms stored on the solver.
- `SNES` and `SNES_QN` are merged into one `Snes` class holding the fields the QN code reads and writes.
- QuasiNewton.SolveEnds: claims nothing for a negative max_its. There the loop does not run and the reason stays unset, as `Finish` models.
- The Jacobian domain-error exits are not modelled: `SNESCheckJacobianDomainerror` before the loop (qn.c:115-121) and on a restart (qn.c:218-220), both taken only with the JACOBIAN scale type. They end the solve with DIVERGED_JACOBIAN_DOMAIN. `Solved`, `SolveEnds` and `Snes.Solve` therefore describe a solve in which the Jacobian is never reported outside its domain; with JACOBIAN scaling the real solver can also stop for that reason, before DIVERGED_MAX_IT is reached.
- C `int` overflow is not modelled in ex2.c. The model uses unbounded integers for `3*mlocal_ele+1` (ex2.c:283), `3*counts[rank]` (ex2.c:461), `idx[i] *= 3` (ex2.c:474-476) and `localvert[i] *= 2` (ex2.c:694). The source is only correct while these stay below 2^31, and the model assumes they do.
- `include/petsc/private/hashseti.h` is not part of this model. The hash function, probing and the real growth policy are not modelled. Slot order is modelled as insertion order, and no contract depends on it.
- HashSet.HSetI.Resize: the model raises the capacity to exactly k when it is below k and otherwise keeps it. The real resize policy is only bounded from below: ex41.c:119-120 checks only that the capacity is at least n. "Never shrinks" is therefore this model's choice, not a promise of the source.
- HashSet.HSetI.Add: growing to 2*capacity + 1 when full is a modelling choice. Only "the capacity never shrinks" is promised.
- `PetscHSetIDestroy` and `PetscSortInt` are not modelled: objects are garbage-collected values. The sorted checks are stated as `SortsTo` and `IncreasingRange`.
- HashSet.MergeScenario: the test's fixed n = 10 is generalised to any n.
- HashSet.HSetI.Duplicate: giving the copy the original's capacity is this model's choice. ex41.c:81-87 checks only the copy's elements, and the real copy may be built with a different amount of room.
