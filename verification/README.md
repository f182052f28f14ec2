# Verified models of CoMD, miniGMG, PENNANT and PathFinder

This project models the parts of four scientific mini-applications in which several
pieces of code have to agree with one another, and proves that they do.  It is a model:
nothing in it executes the programs.  `dafny verify dfyconfig.toml` checks all of it.

The four parts and what is proved of each:

* **CoMD**, molecular dynamics.  Atoms live in link cells, a one-dimensional array that
  encodes a three-dimensional grid and a shell of halo cells.  Proved: the numbering of
  cells is a bijection; `updateLinkCells` moves atoms without losing any; the three-axis,
  six-message exchange of `redistributeAtoms` leaves in every cell of every rank exactly
  one copy of exactly the atoms with a periodic image there, over any run of steps; the
  second exchange, which matches atoms by position in the cell, gives every halo atom its
  owner's value; and the half-pair and full-pair kernels, for Lennard-Jones and for the
  embedded atom method, compute the sum over all periodic images within the cutoff,
  on the arrays of all ranks together, and the energy of all atoms.
* **miniGMG**, geometric multigrid.  Proved: the plan of `create_domain`, followed on all
  ranks by `exchange_boundary`, writes every ghost cell that has a neighbour exactly once,
  with the value of the globally adjacent cell; CG keeps residuals orthogonal and
  directions conjugate; and the communication-avoiding solvers, which work on coefficients
  over a Krylov basis, go through the iterates of CG and BiCGStab for every step count, and
  every solver stops where the first of its tests fires.
* **PENNANT**, hydrodynamics on unstructured meshes.  Proved: for rectangular, pie and hex
  meshes the lists of slaves and masters that processes generate independently match entry
  by entry; on matching lists the gather, sum and scatter leave every copy of every point
  with the global sum, in any order of arrival; from the generator through the maps over
  sides, corners and chunks to those sums, every copy of every point on every process gets
  what a single process would compute from the whole mesh, whatever the number of
  processes; and summing forces and masses to points keeps their totals, on one process
  and over all points of the mesh.
* **PathFinder**, signature search in graphs.  Proved: the depth-first search with a fresh
  visited set for each leg terminates, finds a path if and only if there is one, and
  returns it.

## Modules

| modules | what they hold |
|---|---|
| `LinkCellIndex`, `Decomposition`, `Periodic` | cell numbering, rank grid, periodic images |
| `Atoms`, `LinkCells`, `CounterDrift` | cells as values, and as the arrays that the code updates in place |
| `CellLists`, `Placement`, `AtomExchange`, `AtomProtocol`, `HaloBuffers`, `Redistribute`, `AllRanks`, `Simulation` | the atom exchange, one axis at a time, on all ranks' arrays, and runs of it |
| `ForceExchange`, `ForceBuffers`, `AllForces` | the exchange matched by position, and the sizes of message buffers |
| `LoadSums`, `PairLaws`, `PairForces`, `FullPairs`, `HalfPairs`, `HalfPairLoops`, `LennardJones`, `PairImages` | pair sums, the two ways to compute them, and why neighbouring cells suffice |
| `SetSums`, `ImageSums`, `ConsistentStores`, `WorldForces`, `StepForces`, `Worlds` | sums over periodic images, and the kernels on all ranks |
| `EmbeddedAtom`, `EmbeddingExchange`, `CutoffPairs`, `WorldEmbedding`, `EamRuns`, `CutoffWorlds` | the three-pass kernels, on one rank and on all, and what they differ in |
| `GhostAxis`, `BoxLayout`, `BufferCopies`, `GhostPlan`, `GhostValues`, `GhostExchange` | the ghost plan, one axis at a time, the copies, and all ranks together |
| `SquareRoots`, `GridVectors`, `SolverRuns`, `ConjugateGradient`, `KrylovBasis`, `CommAvoidingCG`, `BiCGStab`, `CommAvoidingBiCGStab`, `SolverFailures` | the solvers, and when they report something else than what happened |
| `ZoneSplit`, `ProcessGrid`, `MessageLists`, `MeshPoints`, `MeshMessages`, `MeshLists`, `MeshMatch`, `MeshWorld`, `MeshBuild`, `RectMesh`, `PieMesh`, `HexMesh`, `MeshCorners`, `MeshGenerate` | the mesh generators |
| `PointExchange`, `PointCounts` | the exchange between processes that share points |
| `MeshSides`, `MeshEdges`, `MeshChunks`, `CornerSums`, `HydroTotals`, `SideFractions`, `RealSums`, `GlobalTotals` | mesh maps, areas, and conserved totals, on one process and over all |
| `MeshSums` | the whole way from the generator to the sums at the points, on all processes |
| `BitField`, `SignatureSearch` | the search and its visited set |

## Conventions

* Floating-point numbers are exact reals.  Square roots are functions with the laws of a
  square root; the pair potential's tables are functions of the distance; the operator of
  the solvers is a linear function, self-adjoint only for the orthogonality of CG.  Tests
  for infinite values cannot succeed and are not modelled.
* All ranks together are a sequence of local states.  A message is what the sender loads,
  handed to the rank that waits for it; where the order of arrival could matter it is a
  parameter.  Loops that the programs share among threads are sequential.
* Storage that the code updates in place is an array or a class field that methods update,
  with a function that gives its meaning.  Each such method is proved against that
  function, and the lemmas are about the function.
* Point positions of the generated meshes are represented by their place in the whole
  mesh, from which the code computes the coordinates.

## Where the code does not do what its context suggests

The model follows the code.  Where the code falls short of what its context suggests, the
results named here give the exact condition and an input on which it does.

* `moveAtom` adjusts `nLocal` for halo cells above the first one only
  (CoMD/src-mpi/linkCells.c:255), so the counter drifts by the atoms that enter the first
  halo cell: `LinkCells.CounterRight`, `CounterDrift.Drifts`.  Cell contents are right
  anyway.
* The message buffers are sized without the x faces (CoMD/src-mpi/haloExchange.c:151 and
  216): `ForceBuffers.AtomBuffersSuffice`, `ForceBuffers.ForceBuffersSuffice`,
  `ForceBuffers.AtomBufferTooSmall`, `ForceBuffers.ForceBufferTooSmall`.
* The half-pair embedded atom kernel leaves a pair exactly at the cutoff out of its last
  pass, though not of its first (CoMD/src-mpi/eam.c:269 and 354):
  `WorldEmbedding.KernelsAgreeExactly`, `CutoffWorlds.KernelsCanDiffer`.
* With the diagonal preconditioner BiCGStab monitors the residual of another grid than the
  one it returns unless the operator does not see the scaling of the initial guess:
  `BiCGStab.MonitorsTrueResidual`, `SolverFailures.GuessIsScaled`.
* A vanishing square of As counts as convergence in BiCGStab (miniGMG/solver.c:560), where
  a comment (line 550) takes it to mean that the residual vanishes, and as a breakdown in
  its communication-avoiding forms (miniGMG/solver.c:445):
  `SolverFailures.FalseConvergenceExactly`, `SolverFailures.CaFailsThere`,
  `SolverFailures.MergeFails`.
* `initChunks` never ends when a zone has more sides than a chunk may have, and reads the
  entry before the first (PENNANT/src/Mesh.cc:234) when it is the first zone:
  `MeshChunks.EndsExactly`, `MeshChunks.TriangleTooLong`.
* The zone lists of a hex mesh are wrong for a single row of two or more zones, or a single
  column of three or more (where the spacing of points is a division by zero as well):
  `HexMesh.ZonesRightExactly`, `HexMesh.SingleRowWrong`.

Two more differences are matters of reading and have no result:

* `initInvMap` reads one entry before and one after the sorted pairs; the values are not
  used, and the model does not read them.
* PathFinder's README lets a node have several labels (line 16); in the code a node has one,
  and a label may belong to several nodes.

## Model

| member | source | states |
|---|---|---|
| `LinkCellIndex.HaloPlanes` | CoMD/src-mpi/linkCells.c:97-103 | the number of halo cells is the size of the three pairs of planes that the numbering uses |
| `LinkCellIndex.TupleRoundTrip` | CoMD/src-mpi/linkCells.c:190-237 | for every grid, getTuple undoes getBoxFromTuple on all tuples from -1 to the grid size, and the local tuples are exactly those numbered below nLocalBoxes |
| `LinkCellIndex.BoxRoundTrip` | CoMD/src-mpi/linkCells.c:383-455 | getBoxFromTuple undoes getTuple on every cell number, so the two are inverse bijections |
| `Decomposition.InitDomainValid` | CoMD/src-mpi/linkCells.c:83-109 | a layout that passes the assertion on two cells an axis divides the box into whole bricks of whole cells, none narrower than the cutoff |
| `Decomposition.ProcessorNumNeighbors` | CoMD/src-mpi/decomposition.c:57-66 | steps of processorNum name real ranks, change one coordinate only, and stepping back returns |
| `Decomposition.AxisCellIsRelative` | CoMD/src-mpi/linkCells.c:334-366 | getBoxFromCoord yields the global cell relative to the rank's first cell, clamped to the upper halo |
| `Decomposition.ShiftCell` | CoMD/src-mpi/haloExchange.c:161-184 | a shift by whole periods shifts the cell by whole periods |
| `Decomposition.ExactlyOneOwner` | CoMD/src-mpi/decomposition.c:27-50 | every position in the box is classified into a local cell by exactly one rank, its owner |
| `LinkCells.LinkCellStore.PutAtomInBox` | CoMD/src-mpi/linkCells.c:156-182 | the atom goes to the end of the cell of its coordinate, nothing else changes, and nLocal counts it when the cell is local |
| `LinkCells.LinkCellStore.CopyAtom` | CoMD/src-mpi/linkCells.c:312-322 | one slot is overwritten by another, all other slots are kept |
| `LinkCells.LinkCellStore.AppendCopy` | CoMD/src-mpi/linkCells.c:243-251 | first half of moveAtom: the atom is also at the end of the other cell |
| `LinkCells.LinkCellStore.RemoveSlot` | CoMD/src-mpi/linkCells.c:252-259 | second half of moveAtom: the last atom fills the gap |
| `LinkCells.LinkCellStore.MoveAtom` | CoMD/src-mpi/linkCells.c:243-259 | both cells afterwards, the bookkeeping of nLocal, which misses the first halo cell, and when the assertion that the other cell is not full fails |
| `LinkCells.LinkCellStore.EmptyHaloCells` | CoMD/src-mpi/linkCells.c:369-373 | halo cells are empty, local cells as before |
| `LinkCells.LinkCellStore.UpdateLinkCells` | CoMD/src-mpi/linkCells.c:274-291 | terminates; unless an assertion stops it, which cannot happen when cells have room, the local atoms are the same multiset as before over all cells, every cell has just the atoms that belong in it, halo cells holding only those that left, and nLocal drifts by the number of local atoms that belonged in the first halo cell |
| `LinkCells.CounterRight` | CoMD/src-mpi/linkCells.c:243-291 | a counter that was right is right afterwards if and only if no local atom belonged in the first halo cell |
| `CounterDrift.Drifts` | CoMD/src-mpi/linkCells.c:255 | a rank with one local atom that moves into the first halo cell: the counter stays at one, with no local atom left |
| `Atoms.RebinningMove` | CoMD/src-mpi/linkCells.c:280-290 | one moveAtom to the cell of the atom's coordinate keeps the multiset of atoms, and no atom that was in place leaves it |
| `Atoms.RebinningRoom` | CoMD/src-mpi/linkCells.c:280-290 | when every cell has room for all atoms that belong in it, no move overflows a cell, in whatever order atoms are moved |
| `Atoms.RebinMember` | CoMD/src-mpi/linkCells.c:276-290 | every atom met by the loop, re-examined or not, is one of the rank's original local atoms |
| `CellLists.BlockFacts` | CoMD/src-mpi/haloExchange.c:344-350 | the nested loops list every tuple of the range once and no other |
| `CellLists.BlockLength` | CoMD/src-mpi/haloExchange.c:344-350 | a list has as many cells as the product of its extents |
| `CellLists.BlockShift` | CoMD/src-mpi/haloExchange.c:344-350 | a shifted range gives the shifted list, entry by entry |
| `CellLists.MakeCellList` | CoMD/src-mpi/haloExchange.c:328-352 | the nested loops compute that list |
| `AtomExchange.MkAtomCellList` | CoMD/src-mpi/haloExchange.c:328-352 | the list of a face is its two planes of cells, all of them on the other axes |
| `AtomExchange.SenderOffset` | CoMD/src-mpi/haloExchange.c:161-184 | the sender's coordinate, the step to the receiver and the shift factor fit together, across the periodic boundary too |
| `AtomExchange.PutAllCells` | CoMD/src-mpi/haloExchange.c:406-426 | unloading appends to each cell exactly the atoms of the message that belong there, in order |
| `AtomExchange.ArrivesAt` | CoMD/src-mpi/haloExchange.c:361-426 | an atom in a sent cell arrives, shifted, in the matching cell of the receiver |
| `AtomExchange.ExpectedSplits` | CoMD/src-mpi/haloExchange.c:278-307 | what a cell must hold after an axis is what it held, what the minus neighbour had one brick above and what the plus neighbour had one brick below, and nothing else |
| `AtomExchange.SourcesDisjoint` | CoMD/src-mpi/haloExchange.c:278-307 | the three sources never supply the same atom |
| `Periodic.OneAxisCovers` | CoMD/src-mpi/haloExchange.c:278-307 | an atom within one cell of its owner's brick has an image in a cell exactly when it is stored there or at one of the two neighbours |
| `AtomProtocol.CellAfter` | CoMD/src-mpi/haloExchange.c:278-307 | a cell after an axis: its contents, then the minus message's atoms, then the plus message's |
| `AtomProtocol.AxisExchanged` | CoMD/src-mpi/haloExchange.c:278-307 | one axis turns placement by owner into placement by periodic image, each image once, on all ranks |
| `AtomProtocol.HaloExchangeComplete` | CoMD/src-mpi/haloExchange.c:247-251 | after the three axes every cell of every rank holds every image of every atom in it exactly once, in all 26 directions |
| `HaloBuffers.LoadAtomsBuffer` | CoMD/src-mpi/haloExchange.c:361-394 | the message is the atoms of the listed cells, in list order, shifted |
| `HaloBuffers.UnloadAtomsBuffer` | CoMD/src-mpi/haloExchange.c:406-426 | the cells afterwards are those of the specification of unloading, and nLocal grows by the atoms that land in local cells |
| `HaloBuffers.SortAtomsInCell` | CoMD/src-mpi/haloExchange.c:613-645 | the cell is the same multiset in ascending order of gid, other cells as before |
| `Redistribute.RebinnedPlaced` | CoMD/src-mpi/linkCells.c:274-291 | updateLinkCells on all ranks leaves every atom with its owner, in the local or halo cell of its position |
| `Redistribute.RedistributeCorrect` | CoMD/src-mpi/timestep.c:136-146 | whenever every atom is within one cell of its owner's brick, every local and halo cell of every rank ends up with exactly one copy of exactly the atoms with a periodic image in it, sorted |
| `Redistribute.RedistributeCompletes` | CoMD/src-mpi/timestep.c:136-146 | from any such state the sequence runs to its end |
| `AllRanks.SendTo` | CoMD/src-mpi/haloExchange.c:361-394 | what a rank loads for a face is the message of the protocol |
| `AllRanks.RoomForBoth` | CoMD/src-mpi/haloExchange.c:301-302 | cells only grow, so if the outcome fits then both messages find room, one after the other |
| `AllRanks.Unloading` | CoMD/src-mpi/haloExchange.c:301-302 | unloading the two messages in turn leads to the cells of the protocol |
| `AllRanks.SenderIsNeighbor` | CoMD/src-mpi/haloExchange.c:291-297 | the rank that a face's number names exists, and what it sent across its opposite face is what arrives here |
| `AllRanks.ExchangeData` | CoMD/src-mpi/haloExchange.c:278-307 | loading, delivering and unloading on the arrays of all ranks leaves the state that the protocol's axis step gives |
| `AllRanks.HaloStages` | CoMD/src-mpi/haloExchange.c:247-251 | if every cell has a slot for each image that belongs in it, then no cell overflows at any stage of the exchange, every message has a cell for each of its atoms, and no two atoms that a cell sorts have the same gid |
| `AllRanks.OwnedCanRebin` | CoMD/src-mpi/linkCells.c:274-291 | a rank's own atoms, none further than one cell outside its brick, all have a cell there |
| `AllRanks.RedistributeAtoms` | CoMD/src-mpi/timestep.c:136-146 | on the arrays of all ranks together, re-binning, six messages and sorting, unless an assertion on a full cell ends the program, end with every local and halo cell of every rank holding exactly one copy of exactly the atoms with a periodic image in it, sorted |
| `Simulation.OneLocalCopy` | CoMD/src-mpi/timestep.c:136-146 | every atom is in one slot of one local cell of one rank, its owner's |
| `Simulation.ExpectedWrapped` | CoMD/src-mpi/timestep.c:80-93 | positions outside the box stand for the same images as positions wrapped into it |
| `Simulation.StepConsistent` | CoMD/src-mpi/timestep.c:31-59 | a time step in which no atom moves further than one cell keeps the global state consistent, for the same atoms at their new positions |
| `Simulation.RunConservesAtoms` | CoMD/src-mpi/timestep.c:31-59 | over any number of steps no atom is lost, duplicated or changed in kind |
| `ForceExchange.MkForceSendCellList` | CoMD/src-mpi/haloExchange.c:446-486 | the send list of a face |
| `ForceExchange.MkForceRecvCellList` | CoMD/src-mpi/haloExchange.c:495-535 | the receive list of a face |
| `ForceExchange.ListsAlign` | CoMD/src-mpi/haloExchange.c:446-535 | the k-th receive cell of a face is the image of the k-th send cell of the opposite face of the neighbour |
| `ForceExchange.UnloadOfLoad` | CoMD/src-mpi/haloExchange.c:543-592 | unloading what was loaded copies cell to cell, in list order |
| `ForceExchange.AscendingUnique` | CoMD/src-mpi/haloExchange.c:606-661 | an ascending list is determined by its members: why sorting aligns the slots of paired cells |
| `ForceExchange.PairedCells` | CoMD/src-mpi/haloExchange.c:606-661 | a receive cell and the send cell it is paired with hold the same gids in the same order |
| `ForceExchange.ForceAxisCarries` | CoMD/src-mpi/haloExchange.c:278-307 | one axis brings the right values to its halo planes, edges and corners included |
| `ForceExchange.ForceExchangeComplete` | CoMD/src-mpi/haloExchange.c:205-237 | after the exchange every slot of every halo cell holds the value that the owner of its atom computed, and every message fits its cells |
| `ForceBuffers.LoadForceBuffer` | CoMD/src-mpi/haloExchange.c:543-563 | the message is the values of the listed cells |
| `ForceBuffers.UnloadForceBuffer` | CoMD/src-mpi/haloExchange.c:571-592 | the values afterwards are those of the specification, and the message has one number per slot |
| `AllForces.ForceSender` | CoMD/src-mpi/haloExchange.c:291-297 | what arrives through a face is what the neighbour there loaded for its opposite face |
| `AllForces.UnloadingForces` | CoMD/src-mpi/haloExchange.c:571-592 | both messages have one number for each receiving slot, and unloading them in turn leads to the values of the protocol |
| `AllForces.ExchangeForceAxis` | CoMD/src-mpi/haloExchange.c:278-307 | loading, delivering and unloading on the arrays of all ranks leaves the values that the protocol's axis step gives |
| `AllForces.ForceHaloExchange` | CoMD/src-mpi/haloExchange.c:247-251 | on the arrays of all ranks together, every slot of every halo cell ends up with the value that the owner of its atom computed |
| `ForceBuffers.AtomBuffersSuffice` | CoMD/src-mpi/haloExchange.c:144-153 | the atom buffers hold the largest message of every face if and only if the x face is no larger than the larger of the other two |
| `ForceBuffers.ForceBuffersSuffice` | CoMD/src-mpi/haloExchange.c:205-218 | the same for the force buffers |
| `ForceBuffers.AtomBufferTooSmall` | CoMD/src-mpi/haloExchange.c:148-153 | a grid of 2 by 8 by 8 cells is one where they do not |
| `ForceBuffers.ForceBufferTooSmall` | CoMD/src-mpi/haloExchange.c:211-218 | the same grid overflows the force buffers |
| `PairForces.GetNeighborBoxes` | CoMD/src-mpi/linkCells.c:131-143 | the 27 cell numbers, in the order of the loops |
| `PairForces.NeighborsAre` | CoMD/src-mpi/linkCells.c:131-143 | a local cell has 27 different neighbours, itself among them, and they are exactly the cells of the adjacent tuples |
| `PairForces.NeighborsMutual` | CoMD/src-mpi/linkCells.c:131-143 | being neighbours goes both ways between local cells |
| `PairForces.FarCells` | CoMD/src-mpi/linkCells.c:83-95 | positions in cells that are not adjacent are further apart than the cutoff |
| `PairForces.FarCellLoad` | CoMD/src-mpi/ljForce.c:169-204 | a cell that is not a neighbour contributes nothing to a local atom |
| `PairForces.NeighborsSuffice` | CoMD/src-mpi/ljForce.c:169-204 | the sum over the 27 neighbours is the sum over all cells of the rank |
| `PairForces.PairOpposite` | CoMD/src-mpi/ljForce.c:204-226 | the two atoms of a pair get the same energy and density, and opposite forces |
| `PairLaws.ContributionOpposite` | CoMD/src-mpi/ljForce.c:204-226 | the same for any of the laws, as a function of the separation |
| `PairImages.StoreLocated` | CoMD/src-mpi/ljForce.c:169-204 | what the kernels assume about positions and cells holds after every redistribution |
| `PairImages.CloseImageHeld` | CoMD/src-mpi/ljForce.c:169-204 | every periodic image of any atom within the cutoff of a local atom is held by the rank, in an adjacent cell |
| `PairImages.ImageHeldOnce` | CoMD/src-mpi/ljForce.c:169-204 | no rank holds an image twice |
| `PairImages.LocalIdsDiffer` | CoMD/src-mpi/ljForce.c:190-194 | local atoms have different gids, as the test on gids needs |
| `ImageSums.CloseImagesAre` | CoMD/src-mpi/ljForce.c:169-204 | the finite set of images that the reference sum runs over is that of all images, of all atoms, any number of periods away, within the cutoff |
| `ImageSums.BruteForceIsImageSum` | CoMD/src-mpi/ljForce.c:169-229 | for every local atom the sum over the atoms that the rank holds is the sum over all periodic images, of all atoms of the simulation, within the cutoff |
| `ConsistentStores.KernelsReady` | CoMD/src-mpi/ljForce.c:169-204 | after every redistribution the stores are as both kernels need them, if no two atoms are at the same place |
| `ConsistentStores.AllIds` | CoMD/src-mpi/ljForce.c:169-229 | the local slots of all ranks together hold exactly the atoms of the simulation |
| `ConsistentStores.NextRankEnergy` | CoMD/src-mpi/timestep.c:96-122 | adding the energies that ranks return adds up the energies of their atoms, none counted twice |
| `Worlds.ConsistentExists` | CoMD/src-mpi/timestep.c:136-146 | every set of atoms in the box has a consistent state |
| `Worlds.WorldExists` | CoMD/src-mpi/timestep.c:136-146 | and stores of all ranks that hold it, if the cells have room |
| `FullPairs.InitNbrBoxes` | CoMD/src-openmp/linkCells.c:111-121 | the cached lists are the neighbours of every local cell |
| `FullPairs.FullRow` | CoMD/src-openmp/ljForce.c:190-218 | one atom against one cell: its load grows by the sum over the cell, the energy with it |
| `FullPairs.FullCell` | CoMD/src-openmp/ljForce.c:185-219 | all atoms of a cell against one cell |
| `FullPairs.FullBox` | CoMD/src-openmp/ljForce.c:177-220 | all atoms of a cell against its neighbours |
| `FullPairs.AddFullPairs` | CoMD/src-openmp/ljForce.c:171-221 | the whole pass adds to every local atom the sum over all atoms of the rank and keeps the energy equal to the sum over local atoms |
| `FullPairs.PassesAgree` | CoMD/src-openmp/ljForce.c:171-221 | any two passes that do so leave the same loads |
| `HalfPairs.PairOnce` | CoMD/src-mpi/ljForce.c:190-194 | of each pair of local atoms each atom gets the pair's contribution exactly once, from one side or the other |
| `HalfPairs.SkippedSlots` | CoMD/src-mpi/eam.c:251-262 | the embedded atom kernel's tests on cells and slots skip the same pairs as a test on slot numbers |
| `HalfPairs.HalvesMakeWhole` | CoMD/src-mpi/ljForce.c:169-229 | what an atom gets as first and as second of its pairs adds up to the sum over all atoms of the rank |
| `HalfPairs.HalfNeighborsSuffice` | CoMD/src-mpi/ljForce.c:175-204 | its own half is found among the 27 neighbours |
| `HalfPairLoops.AddPair` | CoMD/src-mpi/ljForce.c:204-226 | a pair within the cutoff adds to both atoms, and its energy once for each local one |
| `HalfPairLoops.HalfPair` | CoMD/src-mpi/ljForce.c:190-226 | one visited pair, with the tests that skip it |
| `HalfPairLoops.HalfRow` | CoMD/src-mpi/ljForce.c:186-227 | one atom against one cell: what it and the atoms of the cell get |
| `HalfPairLoops.HalfCells` | CoMD/src-mpi/ljForce.c:183-228 | a cell against one cell |
| `HalfPairLoops.HalfBox` | CoMD/src-mpi/ljForce.c:174-229 | a cell against its neighbours |
| `HalfPairLoops.AddHalfPairs` | CoMD/src-mpi/ljForce.c:168-230 | the whole pass adds to every local atom the same sum as the pass over full pairs, and keeps the same energy |
| `LennardJones.FullPairForce` | CoMD/src-openmp/ljForce.c:140-228 | the full-pair kernel: every local atom has the sum over all atoms of the rank; the energy is that of these sums |
| `LennardJones.HalfPairForce` | CoMD/src-mpi/ljForce.c:140-236 | the half-pair kernel: the same loads and the same energy |
| `LennardJones.KernelsAgree` | CoMD/src-mpi/ljForce.c:140-236 | the two kernels give every local slot the same energy and force |
| `LennardJones.ComputedEnergy` | CoMD/src-mpi/ljForce.c:212-217 | counting a pair once for each local atom gives the sum of the local atoms' energies |
| `WorldForces.ComputedIsSums` | CoMD/src-mpi/ljForce.c:140-236 | on any rank of a consistent state what either kernel leaves in a local slot is the sum over the periodic images of the slot's atom |
| `WorldForces.HalfForceAll` | CoMD/src-mpi/ljForce.c:140-236 | the half-pair kernel on all ranks and the reduction of its energies: every atom has the sum over all its periodic images within the cutoff, and the total is the energy of all atoms, each counted once |
| `WorldForces.FullForceAll` | CoMD/src-openmp/ljForce.c:140-228 | the full-pair kernel on all ranks: the same loads and the same total |
| `StepForces.RanksAreWorld` | CoMD/src-mpi/timestep.c:31-59 | the link cells of all ranks in a consistent state are stores as the kernels' results need them |
| `StepForces.StepHalfForces` | CoMD/src-mpi/timestep.c:31-59 | after a step in which no atom moves by more than a cell, redistribution and the half-pair kernel on the arrays of all ranks give every atom, at its new position, the sum over its periodic images |
| `EmbeddedAtom.Embed` | CoMD/src-mpi/eam.c:303-320 | embedding energies and derivatives of exactly the local atoms, from their densities |
| `EmbeddedAtom.HalfDensity` | CoMD/src-mpi/eam.c:232-320 | first two steps over half pairs: every local atom has the pair sum, its embedding energy and its derivative |
| `EmbeddedAtom.FullDensity` | CoMD/src-openmp/eam.c:232-320 | the same over full pairs |
| `EmbeddedAtom.DensitiesAgree` | CoMD/src-mpi/eam.c:232-320 | both kernels have the same densities, energies and derivatives for local atoms |
| `EmbeddedAtom.HalfForces` | CoMD/src-mpi/eam.c:326-373 | the last step over half pairs adds the sum over all pairs below the cutoff |
| `EmbeddedAtom.FullForces` | CoMD/src-openmp/eam.c:325-373 | the last step over full pairs adds the sum over all pairs up to the cutoff |
| `WorldEmbedding.DensityLoads` | CoMD/src-mpi/eam.c:232-320 | on any rank of a consistent state the first two steps leave every local slot with the pair sum over its atom's periodic images and the embedding energy |
| `WorldEmbedding.ForceLoads` | CoMD/src-mpi/eam.c:326-373 | the last step adds the sum over the periodic images with the derivatives of their atoms |
| `EamRuns.CarriesBefore` | CoMD/src-mpi/eam.c:322-324 | what the ranks send between the steps is the derivative that each atom's owner computed |
| `EamRuns.TaggedAfter` | CoMD/src-mpi/eam.c:322-324 | after the exchange every slot of every rank holds the derivative of its atom |
| `EamRuns.EamForceAll` | CoMD/src-mpi/eam.c:215-376 | three passes and the exchange on the arrays of all ranks, with either kernel: every atom's density, energy and force are the sums over its periodic images, and the returned energies add up to that of all atoms |
| `WorldEmbedding.KernelsAgreeExactly` | CoMD/src-mpi/eam.c:269-354 | the two kernels give every atom the same density and energy and the same total energy; and the same forces if and only if the images exactly at each atom's cutoff pull with no force together |
| `WorldEmbedding.NoneAtCutoff` | CoMD/src-mpi/eam.c:354 | which is so when no image of an atom is exactly at the cutoff of another |
| `CutoffWorlds.RunsAgreeExactly` | CoMD/src-mpi/eam.c:215-376 | after a run of each kernel on the same ranks every local slot of every rank agrees under that same condition, and only then |
| `CutoffWorlds.KernelsCanDiffer` | CoMD/src-mpi/eam.c:354 | two atoms at exactly the cutoff on eight ranks, with a consistent state and stores that hold it, for which the condition fails |
| `CutoffWorlds.CutoffOfSlot` | CoMD/src-mpi/eam.c:354 | what a slot gets from the atoms of its rank at the cutoff is what its atom gets from all images there |
| `EmbeddingExchange.DensitiesSendSame` | CoMD/src-mpi/eam.c:322-324 | kernels with the same local derivatives send the same values |
| `EmbeddingExchange.ExchangeKeepsAgreement` | CoMD/src-mpi/eam.c:322-324 | agreement on local cells before the exchange becomes agreement on all cells of all ranks |
| `EmbeddingExchange.ReceivedAgree` | CoMD/src-mpi/eam.c:322-324 | so the last passes start from the same derivatives |
| `CutoffPairs.SumSplit` | CoMD/src-mpi/eam.c:354 | the two sums of the last pass differ by the pairs exactly at the cutoff |
| `CutoffPairs.AgreeExactly` | CoMD/src-mpi/eam.c:269-354 | on one rank, the last passes leave every local atom with the same load if and only if what is exactly at its cutoff adds up to nothing |
| `CutoffPairs.NoPairNothing` | CoMD/src-mpi/eam.c:354 | which is so when the rank holds no atom exactly at the cutoff |
| `BoxLayout.IndexInjective` | miniGMG/box.c:26-42 | different cells of a padded box have different places |
| `BoxLayout.CreateBox` | miniGMG/box.c:26-50 | the pencil, plane and volume computed hold the box with its ghosts, rounded and padded as written |
| `BoxLayout.PadVolume` | miniGMG/box.c:47-50 | the padding loop ends, and where |
| `BufferCopies.CopyPencil` | miniGMG/exchange_boundary.inc:34-59 | the special cases for short rows copy what the general loop copies |
| `BufferCopies.DoBufferCopy` | miniGMG/exchange_boundary.inc:10-60 | a block is copied cell by cell from one layout into another, everything else kept |
| `GhostPlan.NumberRoundTrip` | miniGMG/mg.c:147-150 | directions and their numbers determine each other, and opposite directions have numbers that add up to 26 |
| `GhostPlan.EveryDirection` | miniGMG/mg.c:190-230 | the plan considers all 26 directions |
| `GhostPlan.OverAndBack` | miniGMG/mg.c:58-86 | a subdomain is the neighbour of its neighbour in the opposite direction, index and rank |
| `GhostPlan.NeighboringRankTells` | miniGMG/mg.c:67-86 | the rank tells whether a neighbour is on this rank, on another, or off the domain |
| `GhostPlan.AllTagsHas` | miniGMG/mg.c:218-477 | the plan of one kind has one copy for every subdomain and direction that wants one |
| `GhostPlan.BuildPlan` | miniGMG/mg.c:218-477 | the nested loops with their running counter build exactly that plan |
| `GhostAxis.NeighborsUndo` | miniGMG/mg.c:58-86 | on one axis the way back leads back |
| `GhostAxis.SourceIsGhost` | miniGMG/mg.c:331-345 | the cells read for a neighbour are that neighbour's ghost cells |
| `GhostAxis.PackedBy` | miniGMG/mg.c:251-281 | every place of a message is packed by some subdomain |
| `GhostAxis.UnpackedCell` | miniGMG/mg.c:376-472 | a subdomain unpacks into its ghost cells what the message holds for them |
| `GhostAxis.EveryLevelValid` | miniGMG/mg.c:104-109 | if the ghosts fit the coarsest boxes, as create_domain demands, every level is a valid layout |
| `GhostValues.PackedValue` | miniGMG/mg.c:224-311 | packing puts a cell's value at its place in the message, faces, edges and corners alike |
| `GhostValues.UnpackedValue` | miniGMG/mg.c:376-472 | unpacking takes the value that belongs in the ghost cell from a message packed for the opposite direction |
| `GhostValues.LocalValue` | miniGMG/mg.c:313-374 | a local copy takes a cell to the ghost cell that stands for it |
| `GhostValues.OnlyWriter` | miniGMG/mg.c:218-477 | no other copy of the plan writes that cell; interior cells and boundary ghosts are never written |
| `GhostValues.WrittenExactlyOnce` | miniGMG/mg.c:218-477 | every ghost cell with a neighbour is written by exactly one place of the plan |
| `GhostExchange.RunPack` | miniGMG/exchange_boundary.inc:137-145 | running the packing copies fills all messages |
| `GhostExchange.MessageComplete` | miniGMG/exchange_boundary.inc:137-145 | every place of a message has the value it must have |
| `GhostExchange.Deliver` | miniGMG/exchange_boundary.inc:109-157 | the message received in a direction is what the neighbour there packed for the opposite one |
| `GhostExchange.RunLocal` | miniGMG/exchange_boundary.inc:167-172 | the copies between subdomains of a rank |
| `GhostExchange.RunUnpack` | miniGMG/exchange_boundary.inc:184-192 | the copies out of the messages |
| `GhostExchange.BothFill` | miniGMG/exchange_boundary.inc:162-192 | together they fill every ghost cell with a neighbour |
| `GhostExchange.ExchangeBoundary` | miniGMG/exchange_boundary.inc:66-199 | on all ranks, every ghost cell with a neighbour ends up with the interior value of the globally adjacent cell; all other cells are as before |
| `SolverRuns.StoppedExactly` | miniGMG/solver.c:536-581 | a run is stopped by a test in a certain state if and only if that is what the first step in which a test fires says |
| `SolverRuns.FixedRounds` | miniGMG/solver.c:349 | in rounds of s steps the outer loop ends at the first multiple of s from its limit on |
| `ConjugateGradient.CG` | miniGMG/solver.c:714-745 | the result is an iterate of the recurrences, no division by zero was made, and the run stops where the first of its tests, in their order, fires, or after the last update |
| `ConjugateGradient.CgOrthogonal` | miniGMG/solver.c:720-744 | for a self-adjoint operator all residuals of a run are mutually orthogonal and all directions mutually conjugate |
| `ConjugateGradient.CgResidual` | miniGMG/solver.c:720-744 | the recursively updated residual is the true residual of the iterate |
| `KrylovBasis.DotThroughBasis` | miniGMG/solver.c:381-398 | products of coefficients with g are grid products |
| `KrylovBasis.GramProduct` | miniGMG/matmul.inc:10-53 | products through the Gram matrix are grid products |
| `KrylovBasis.ShiftIsOperator` | miniGMG/solver.c:337-342 | the shift matrix acts as the operator on coefficients that do not reach a column without a successor |
| `KrylovBasis.DoubleShift` | miniGMG/solver.c:337-342 | the double shift matrix is the shift applied twice |
| `KrylovBasis.MakeBasis` | miniGMG/solver.c:360-379 | the basis grids are the powers of the operator on p and r |
| `KrylovBasis.Combine` | miniGMG/solver.c:503-510 | the grid that a coefficient vector stands for |
| `CommAvoidingCG.InnerReach` | miniGMG/solver.c:625-628 | one inner step reaches one power further, so s steps never leave the basis |
| `CommAvoidingCG.InnerStep` | miniGMG/solver.c:666-696 | one inner step in coefficient space is one step of CG |
| `CommAvoidingCG.InnerSteps` | miniGMG/solver.c:666-696 | the inner loop |
| `CommAvoidingCG.OuterStep` | miniGMG/solver.c:633-708 | one pass of the outer loop, from grids to grids |
| `CommAvoidingCG.CACG` | miniGMG/solver.c:588-710 | for every s the result is an iterate of CG, with the same p, r, x, alpha and beta at every step, and no division by zero; and the run stops where the first of its own tests fires, or at the end of the last round of s steps |
| `BiCGStab.MonitorsTrueResidual` | miniGMG/solver.c:521-585 | with the diagonal preconditioner the monitored residual is that of the grid handed back if and only if the operator does not see whether the initial guess is scaled |
| `BiCGStab.ZeroGuessMonitors` | miniGMG/mg.c:738-743 | a zero initial guess is enough |
| `BiCGStab.FirstHalf` | miniGMG/solver.c:536-553 | the loop body up to its first convergence test |
| `BiCGStab.SecondHalf` | miniGMG/solver.c:554-581 | the rest of it |
| `BiCGStab.BiCGStab` | miniGMG/solver.c:521-585 | the result is an iterate, or half a step further, scaled back; no division by zero was made; and the solver stops where the first of its tests, in their order, fires |
| `SolverFailures.FalseConvergenceExactly` | miniGMG/solver.c:549-560 | BiCGStab reports convergence of a residual that is not small if and only if it comes to a half step whose residual the operator maps to zero |
| `SolverFailures.InjectiveNever` | miniGMG/solver.c:549-560 | which never happens when the operator maps no other grid to zero |
| `SolverFailures.CaFailsThere` | miniGMG/solver.c:389-450 | for every problem and every limit, a run of the communication-avoiding forms ends with a failure at a half step if and only if it comes to that half step with a residual that its test does not find small, and the operator maps that residual to zero |
| `SolverFailures.ReducedExactly` | miniGMG/solver.c:441-444 | with a square root, that test compares the squares of the norms: it does not depend on anything else about the root |
| `SolverFailures.MergeFails` | miniGMG/solver.c:560 | an operator on two points, with a right-hand side, for which the run of BiCGStab ends with success at the first half step, its residual as large as the first one, and the run of every communication-avoiding form, whatever the square root and the number of steps, ends there with a failure |
| `SolverFailures.GuessIsScaled` | miniGMG/solver.c:521-585 | a problem with a guess that is not zero for which the monitored residual is not that of the result |
| `CommAvoidingBiCGStab.Shifted` | miniGMG/solver.c:395-397 | the shifted coefficients stand for the operator applied once and twice |
| `CommAvoidingBiCGStab.HalfValues` | miniGMG/solver.c:421-437 | the half step, its image, and their products through the Gram matrix |
| `CommAvoidingBiCGStab.NextReach` | miniGMG/solver.c:459-498 | how far the coefficients reach after a full step: twice per step |
| `CommAvoidingBiCGStab.InnerHalf` | miniGMG/solver.c:395-450 | the first half of an inner step is the first half of a BiCGStab step |
| `CommAvoidingBiCGStab.InnerFull` | miniGMG/solver.c:451-499 | the second half of it |
| `CommAvoidingBiCGStab.InnerSteps` | miniGMG/solver.c:389-501 | the inner loop: at most s steps, ended by the first test that fires |
| `CommAvoidingBiCGStab.OuterStep` | miniGMG/solver.c:349-512 | one pass of the outer loop: the iterate s steps further, or where the first test stops it |
| `CommAvoidingBiCGStab.CABiCGStab` | miniGMG/solver.c:291-517 | with fixed s, the result is an iterate of BiCGStab, or half a step further, scaled back; and the run stops where the first of its tests, in their order, fires, or at the end of the last round of s steps |
| `CommAvoidingBiCGStab.TelescopingCABiCGStab` | miniGMG/solver.c:58-287 | the same when the number of steps per basis doubles up to a maximum, the last round being that of the doubling |
| `BitField.SetBit` | PathFinder/ref/bitfield.c:75-87 | setting one bit changes that bit only |
| `BitField.Bitfield.NodeVisited` | PathFinder/ref/bitfield.c:75-87 | tells whether the node was marked, and marks it and no other |
| `BitField.Bitfield.Copy` | PathFinder/ref/bitfield.c:91-107 | the same marks in storage of its own |
| `BitField.Bitfield.Clear` | PathFinder/ref/bitfield.c:110-114 | no node is marked |
| `SignatureSearch.ExhaustedBlocks` | PathFinder/README:148-197 | no path leads out of a set of visited nodes that are closed under edges and match no label |
| `SignatureSearch.NodeVector.AppendVectors` | PathFinder/ref/searchAlgorithms.c:186-191 | the vector is extended by the other one |
| `SignatureSearch.FindNextLabel` | PathFinder/ref/searchAlgorithms.c:138-218 | terminates; on success a path that visits the remaining labels in order is appended, on failure the result is as before and everything newly visited is exhausted |
| `SignatureSearch.MatchEdges` | PathFinder/ref/searchAlgorithms.c:171-200 | the first loop over the edges, with a fresh visited set for every next leg |
| `SignatureSearch.NextLeg` | PathFinder/ref/searchAlgorithms.c:178-192 | the search for the rest of the signature |
| `SignatureSearch.FollowEdges` | PathFinder/ref/searchAlgorithms.c:207-212 | the second loop over the edges |
| `SignatureSearch.FindLabeledNodes` | PathFinder/ref/systemCallMap.c:182-206 | the nodes that carry a label |
| `SignatureSearch.FindLabelPath` | PathFinder/ref/searchAlgorithms.c:378-429 | succeeds if and only if the graph has a path along which the labels are met in order, and returns one |
| `SignatureSearch.SignatureIsPath` | PathFinder/README:148-197 | what the search looks for, leg by leg, is a path of the graph with positions at which the labels are met in order |
| `MeshSides.InitSides` | PENNANT/src/Mesh.cc:165-191 | the map of sides to zones, points and neighbours, as the zone lists define it |
| `MeshSides.NeighboursUndo` | PENNANT/src/Mesh.cc:165-191 | previous and next side undo each other within the zone, and the second point of a side is the first of the next |
| `MeshSides.SidesByZone` | PENNANT/src/Mesh.cc:165-191 | sides are numbered zone by zone |
| `MeshEdges.EdgeOf` | PENNANT/src/Mesh.cc:205-213 | the edge of one side: the listed one, or a new one that is then listed |
| `MeshEdges.InitEdges` | PENNANT/src/Mesh.cc:194-219 | two sides have the same edge if and only if they join the same two points, and the edges are numbered without gaps |
| `MeshChunks.ProgressExactly` | PENNANT/src/Mesh.cc:231-235 | from a cut that splits no zone the next one makes progress if and only if the zone that starts there fits in a chunk |
| `MeshChunks.EndsExactly` | PENNANT/src/Mesh.cc:226-241 | the loop comes to an end if and only if no zone has more sides than a chunk may have |
| `MeshChunks.TriangleTooLong` | PENNANT/src/Mesh.cc:226-241 | two triangles and chunks of two sides, for which it does not |
| `MeshChunks.CoversOnce` | PENNANT/src/Mesh.cc:222-263 | every index is in exactly one chunk |
| `MeshChunks.EqualChunks` | PENNANT/src/Mesh.cc:243-261 | the point and zone chunks: consecutive, no longer than the chunk size |
| `MeshChunks.InitSideChunks` | PENNANT/src/Mesh.cc:226-241 | when every zone fits, the loop ends, its cuts being those of the specification, with chunks that split no zone, are no longer than the chunk size and cover all sides |
| `MeshChunks.InitChunks` | PENNANT/src/Mesh.cc:222-263 | all chunks, and zone ranges that partition the zones |
| `CornerSums.SortPairs` | PENNANT/src/Mesh.cc:270-273 | the pairs of point and corner in order |
| `CornerSums.InitInvMap` | PENNANT/src/Mesh.cc:266-288 | for every point the linked list from mappcfirst along mapccnext is the list of its corners, each once, ending at -1 |
| `CornerSums.SumList` | PENNANT/src/Mesh.cc:757-761 | the walk along a list adds up the corners of its point |
| `CornerSums.SumOnProc` | PENNANT/src/Mesh.cc:747-765 | chunk by chunk, every point gets the sum over its corners |
| `HydroTotals.SumCrnrForce` | PENNANT/src/Hydro.cc:365-381 | every corner of the chunk gets the difference of its two sides' forces |
| `HydroTotals.CalcCrnrMass` | PENNANT/src/Hydro.cc:346-362 | every corner of the chunk gets half the shares of its two sides |
| `SideFractions.CalcVols` | PENNANT/src/Mesh.cc:472-512 | on a chunk that splits no zone: the area and volume of every side, their sums over every zone, the number of sides without positive volume, and nothing outside the chunk |
| `SideFractions.CalcSideFracs` | PENNANT/src/Mesh.cc:527-539 | every side of the chunk gets its share of its zone's area |
| `SideFractions.ChunkZones` | PENNANT/src/Mesh.cc:482-483 | the zones that calcVols clears for a chunk of whole zones are exactly those whose sides it then adds up |
| `SideFractions.InitFractions` | PENNANT/src/Mesh.cc:150-160 | chunk by chunk over the initial mesh: every zone has the area of its sides together, every side its share of it, and the count of bad sides is right |
| `SideFractions.GoodSidesHaveAreas` | PENNANT/src/Mesh.cc:503-524 | when no side is bad, on a mesh on one side of the axis, every zone has an area to divide by |
| `HydroTotals.SharesAddUp` | PENNANT/src/Mesh.cc:527-539 | the side fractions of a zone add up to one |
| `HydroTotals.PointsKeepTotal` | PENNANT/src/Mesh.cc:747-765 | summing corner values to points keeps their total |
| `HydroTotals.TotalForceZero` | PENNANT/src/Hydro.cc:365-381 | on one process, before the sum across processes, the total force on the points is zero |
| `HydroTotals.TotalMassKept` | PENNANT/src/Hydro.cc:222-223 | on one process, before the sum across processes, in any step, with the areas and densities of that step and the fractions of the initial areas: the total mass of the points is the sum of zone density times area |
| `PointExchange.InitParallel` | PENNANT/src/Mesh.cc:291-330 | where every message starts in the flat lists |
| `PointExchange.LoadSlaves` | PENNANT/src/Mesh.cc:624-637 | the messages of the slaves |
| `PointExchange.ReceiveAll` | PENNANT/src/Mesh.cc:612-642 | whatever the order of arrival, every message ends up in its own part of the buffer |
| `PointExchange.ParallelSum` | PENNANT/src/Mesh.cc:658-675 | masters get the sums and the proxies are set to them |
| `PointExchange.LoadProxies` | PENNANT/src/Mesh.cc:702-709 | the messages back to the slaves |
| `PointExchange.StoreSlaves` | PENNANT/src/Mesh.cc:722-726 | slave points take their values from the buffer |
| `PointExchange.MasterGetsTotal` | PENNANT/src/Mesh.cc:602-675 | given matching lists, a master ends up with the sum of all copies of its point |
| `PointExchange.EveryCopyGetsTotal` | PENNANT/src/Mesh.cc:602-744 | every copy on every process ends up with that sum |
| `PointExchange.GatherPhase` | PENNANT/src/Mesh.cc:602-654 | parallelGather on all processes |
| `PointExchange.SumPhase` | PENNANT/src/Mesh.cc:658-675 | parallelSum on all processes |
| `PointExchange.ScatterPhase` | PENNANT/src/Mesh.cc:679-732 | parallelScatter on all processes |
| `PointExchange.SumAcrossProcs` | PENNANT/src/Mesh.cc:736-744 | in any order of arrival every copy of every point is left with the sum over all its copies |
| `PointCounts.CountPoints` | PENNANT/src/Mesh.cc:333-351 | the sum of nump - numslv over all processes is the number of distinct points of the mesh |
| `PointCounts.AllOwned` | PENNANT/src/Mesh.cc:335-338 | every point has a copy that is not a slave |
| `GlobalTotals.MeshTotalKept` | PENNANT/src/Mesh.cc:736-778 | the sum across processes keeps the total: over the points of the mesh, each counted at its one copy that is no slave, the results add up to all that the processes put in |
| `GlobalTotals.GlobalForceZero` | PENNANT/src/Hydro.cc:247-248 | after sumToPoints on all processes the forces on the points of the whole mesh add up to zero |
| `GlobalTotals.GlobalMassKept` | PENNANT/src/Hydro.cc:247-248 | and in any step the masses of the points add up to the mass of all zones of all processes |
| `ZoneSplit.StartGrows` | PENNANT/src/GenMesh.cc:96-103 | with no more processes than zones every process gets a zone |
| `ZoneSplit.ZoneIsIn` | PENNANT/src/GenMesh.cc:96-103 | every zone of an axis belongs to exactly one process |
| `ZoneSplit.OneLineOwner` | PENNANT/src/GenMesh.cc:96-103 | every grid line is owned by one process only |
| `ProcessGrid.DivisorBelow` | PENNANT/src/GenMesh.cc:633-635 | the largest divisor up to a number |
| `ProcessGrid.DivisorAbove` | PENNANT/src/GenMesh.cc:636-637 | the smallest divisor from a number on; the loop ends because the root does not exceed the number of processes |
| `ProcessGrid.RootBounds` | PENNANT/src/GenMesh.cc:624-631 | the root lies between the tolerance and the number of processes |
| `ProcessGrid.BestDivisor` | PENNANT/src/GenMesh.cc:632-641 | one of the two divisors next to the root gives the shortest long side of all divisors |
| `ProcessGrid.CalcNumPE` | PENNANT/src/GenMesh.cc:615-648 | the grid uses all processes, and of all grids that do its blocks have the shortest long side |
| `MeshPoints.FindSite` | PENNANT/src/GenMesh.cc:434-465 | every local point is at one site of the block |
| `MeshPoints.KeysDiffer` | PENNANT/src/GenMesh.cc:434-465 | no process has a point of the mesh twice |
| `MeshPoints.AtInOrder` | PENNANT/src/GenMesh.cc:434-465 | points are numbered row by row, site by site |
| `MeshMessages.PiecesMatch` | PENNANT/src/GenMesh.cc:527-602 | master and slave list the same points of every site of a side, though they count differently |
| `MeshMessages.RunsMatch` | PENNANT/src/GenMesh.cc:185-237 | so the lists of a whole side agree entry by entry |
| `MeshMessages.CornersMatch` | PENNANT/src/GenMesh.cc:518-610 | the corner of a block is the opposite corner of the one beyond it |
| `MeshLists.ListedIsSlave` | PENNANT/src/GenMesh.cc:177-211 | every listed slave point is at a site that another process owns |
| `MeshLists.SlaveIsListed` | PENNANT/src/GenMesh.cc:177-211 | and every point at such a site is listed |
| `MeshLists.MasterIsOwn` | PENNANT/src/GenMesh.cc:212-246 | no master point is itself a slave |
| `MeshMatch.SlavesClimb` | PENNANT/src/GenMesh.cc:177-211 | slave points are listed in ascending order, hence once |
| `MeshMatch.PeIsValid` | PENNANT/src/GenMesh.cc:122-248 | the lists of one process are valid |
| `MeshWorld.MasterCounterpart` | PENNANT/src/GenMesh.cc:122-612 | every master message has the slave message it waits for |
| `MeshWorld.SlaveCounterpart` | PENNANT/src/GenMesh.cc:122-612 | every slave message has a master that waits for it |
| `MeshWorld.OneOwnSite` | PENNANT/src/GenMesh.cc:122-612 | two copies of a point that are not slaves are one copy |
| `MeshWorld.ListsMatch` | PENNANT/src/GenMesh.cc:84-119 | the lists that the processes of a rect, pie or hex mesh generate independently match: equal lengths, the same point at every entry, one owner for every point |
| `RectMesh.RectPoints` | PENNANT/src/GenMesh.cc:142-151 | the points of the block, in order |
| `RectMesh.RectZones` | PENNANT/src/GenMesh.cc:154-168 | every zone lists its four corners |
| `RectMesh.RectSlaves` | PENNANT/src/GenMesh.cc:177-211 | the slave lists |
| `RectMesh.RectMasters` | PENNANT/src/GenMesh.cc:212-246 | the master lists |
| `RectMesh.GenerateRect` | PENNANT/src/GenMesh.cc:122-248 | all of them, and nothing to exchange for a single process |
| `PieMesh.PiePoints` | PENNANT/src/GenMesh.cc:271-287 | the points, with one for the row of the origin |
| `PieMesh.PieZones` | PENNANT/src/GenMesh.cc:289-310 | three corners next to the origin, four elsewhere |
| `PieMesh.PieLeftMessages` | PENNANT/src/GenMesh.cc:340-361 | the origin goes to its holder in a message of its own, except from the holder's neighbour |
| `PieMesh.PieSlaves` | PENNANT/src/GenMesh.cc:319-361 | the slave lists |
| `PieMesh.PieMasters` | PENNANT/src/GenMesh.cc:363-410 | the master lists |
| `PieMesh.GeneratePie` | PENNANT/src/GenMesh.cc:251-412 | all of them |
| `HexMesh.HexPoints` | PENNANT/src/GenMesh.cc:434-465 | the points, one or two to a site, and where every row begins |
| `HexMesh.VerticesAre` | PENNANT/src/GenMesh.cc:471-505 | the numbers worked out for a zone are the points at its four sites |
| `HexMesh.ZonesRightExactly` | PENNANT/src/GenMesh.cc:467-508 | all zones of a hex mesh list their corners if and only if it has at least two zones each way, or is a single column of at most two |
| `HexMesh.SingleRowWrong` | PENNANT/src/GenMesh.cc:471-505 | a row of two zones is a mesh for which they do not, and a single zone one for which they do |
| `HexMesh.HexZones` | PENNANT/src/GenMesh.cc:467-508 | the zone lists: for any mesh the numbers worked out for each zone, in order, and for the meshes above the corners of each zone |
| `HexMesh.HexSlaves` | PENNANT/src/GenMesh.cc:518-563 | the slave lists |
| `HexMesh.HexMasters` | PENNANT/src/GenMesh.cc:565-610 | the master lists |
| `HexMesh.GenerateHex` | PENNANT/src/GenMesh.cc:415-612 | all of them, for any mesh |
| `MeshGenerate.Generate` | PENNANT/src/GenMesh.cc:84-119 | every process of a mesh generates its part of the whole, its zones listed one after another, with their corners unless it is one of the hex meshes whose lists come out wrong |
| `MeshCorners.EveryPointSummed` | PENNANT/src/Mesh.cc:266-288 | every point of a generated block is a corner of one of its zones, so its list of corners is not empty |
| `MeshGenerate.GenerateMesh` | PENNANT/src/GenMesh.cc:84-119 | from calcNumPE on: if every process gets zones along both axes, the lists of all processes match; and, except for the hex meshes whose zone lists come out wrong, every local point is a corner of a local zone |
| `MeshSums.ZoneNumberIs` | PENNANT/src/GenMesh.cc:154-168 | the zones of a block are numbered row by row |
| `MeshSums.InitMesh` | PENNANT/src/Mesh.cc:68-110 | from the generator to the maps, chunks and lists of corners of one process: every local point has a list, and it leads through all of its corners |
| `MeshSums.InitAll` | PENNANT/src/Mesh.cc:68-110 | the same on all processes, for every kind of mesh, number of processes and chunk size |
| `MeshSums.SumOfBlock` | PENNANT/src/Mesh.cc:747-765 | what the corners of a process give a point is the sum over the zones of its block |
| `MeshSums.PartsAddUp` | PENNANT/src/GenMesh.cc:96-103 | the blocks of all processes together give a point what the zones of the whole mesh give it, each once |
| `MeshSums.FieldExists` | PENNANT/src/Mesh.cc:747-765 | whatever values the corners of the whole mesh have, a process's corners can hold them |
| `MeshSums.TotalIsMeshSum` | PENNANT/src/Mesh.cc:736-778 | the sum over all copies of a point, each with the sum of its process's corners, is the sum over the zones of the whole mesh, which does not depend on the processes |
| `MeshSums.SumToPoints` | PENNANT/src/Mesh.cc:768-778 | sumToPoints on all processes of a generated mesh, whatever their number and the order in which messages arrive: every copy of every point is left with what a single process would compute from the whole mesh |

## Left out

* MPI, OpenMP and allocation: messages are handed over explicitly, threads' loops are
  sequential, sizes of arrays are assumed.
* Rounding, overflow and infinite values; `sqrt`, `sin` and `cos` beyond their laws, hence
  the coordinates of mesh points; the interpolation of tables.
- LinkCells.LinkCellStore.PutAtomInBox: requires room in the cell; the code does not check.
- Simulation.StepConsistent: a step is any change of positions by at most one cell, not the leapfrog formulas; velocities and forces are not carried along.
- HaloBuffers.UnloadAtomsBuffer: the message carries gid, species, position and momentum; forces and energies are recomputed after every redistribution and are not moved with atoms.
- LennardJones.HalfPairForce: requires that no two atoms are at the same place, where the code divides by zero.
- HalfPairLoops.AddHalfPairs: the same.
- EmbeddedAtom.HalfDensity: the same.
- EmbeddedAtom.HalfForces: the same; and the derivatives are those after the exchange, which `EamRuns.EamForceAll` ties to those before it.
- WorldForces.HalfForceAll: requires that no two atoms are at the same place.
- EamRuns.EamForceAll: requires of the half-pair kernel that no two atoms are at the same place; one method for both kernels, which differ in the pair loops it calls; temporary storage is given rather than set up at the first call.
- AllRanks.RedistributeAtoms: requires that the images that belong in a cell fit its slots, where unloading messages does not check; what becomes of nLocal is stated for each rank's methods alone.
- AllRanks.ExchangeData: all ranks load before any unloads, so messages of different axes cannot overtake one another; the original relies on matching sends and receives.
- FullPairs.AddFullPairs: energies, forces and densities are one array of records, not three arrays; the two potentials share the loops, which differ only in the law of the pair and in the test that skips one.
- ProcessGrid.CalcNumPE: the root is a parameter with the law of a square root, and zone counts are positive C ints, without which the second search could divide by zero.
- MeshWorld.ListsMatch: requires no more processes than zones along either axis; the code does not check, and blocks without zones would result.
- MeshGenerate.GenerateMesh: says nothing of the lists when a process gets no zones along an axis.
- MeshChunks.InitSideChunks: requires that every zone fits in a chunk; `MeshChunks.EndsExactly` shows that the loop does not end otherwise.
- MeshChunks.InitChunks: the same.
- SideFractions.InitFractions: requires that every zone has an area, where the code would divide by zero before it checks for bad sides; `SideFractions.GoodSidesHaveAreas` shows it of meshes that pass the check.  Centres of zones are given.
- MeshSums.InitMesh: hex meshes must be ones whose zone lists come out right; chunks hold at least the six sides that a zone can have; edges, of which the sums make no use, are left to `MeshEdges.InitEdges`.
- MeshSums.SumToPoints: the corner values are given as those of the zones of the whole mesh, however they were computed; vectors are summed one component at a time.
- CornerSums.SumOnProc: requires that every point has a corner, where the code would follow an entry that was never set; `MeshCorners.EveryPointSummed` shows it of generated meshes.
- MeshSides.InitSides: the maps of a side are one array of records instead of one array for each map.
- GhostExchange.ExchangeBoundary: message buffers have the size that their level needs, while the code reuses those of the finest level; all of faces, edges and corners are exchanged together; ghost cells outside a non-periodic domain are left as they are, and no message is exchanged with a neighbour beyond it, where the code compares the neighbour's rank of -1 with its own only and posts one.
- CommAvoidingBiCGStab.CABiCGStab: the number of steps per basis is a parameter; debugging output and counters are not modelled.
- SignatureSearch.FindLabelPath: a signature of fewer than two labels finds nothing, and the search that follows a precomputed diagram is not modelled.
* miniGMG: smoothing, restriction, interpolation, the multigrid cycle and the stencils behind `apply_op`.
* CoMD: random velocities, lattice creation, potential files, kinetic energy, time integration formulas.
* PENNANT: the hydrodynamics formulas, time step control, input and output.
* PathFinder: graph generation and parsing, the search for all legs, and building the map of labels.
* The openmp copies of the halo exchange and the decomposition, which are the same code.
