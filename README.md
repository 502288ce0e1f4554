# Molecular dynamics core, modelled in Dafny

A model of the simulation core of a browser-based molecular dynamics
toy. It covers:

- the `Atom` class: its bond list, its bond forces and its Euler step;
- the functions of `src/lib/atomFunctions.ts`:
  - population creation with a random bond graph;
  - cutoff neighbor lists;
  - neighborhood color propagation;
  - long-range gravity/Coulomb forces;
  - the sequential tick;
  - the merge of the worker answers in the parallel ticks;
- the four web workers: neighbors, colors, long-range forces and
  short-range forces.

The shape of the model follows the source:

- **Mutable `Atom` objects are a Dafny `class`.** Its methods carry
  `modifies` frames and state the new fields. The in-place passes over the
  population are methods with loops, proved against value-level
  specification functions:
  - `NeighborLists.CalculateNeighborLists`;
  - `LongRange.ApplyLongRangeForces`;
  - `ColorPropagation.UpdateAtomColorsByNeighborhood`;
  - `Population.CreateAtoms`.

  The sequential tick, `Tick.UpdateAtomsSequential`, calls these passes.
  Its own contract states only its frame and that every force ends at
  zero; what each phase computes is stated by the pass it calls.
- **The workers are methods over plain records** (`AtomData`, `BondData`)
  that build dictionaries. Each one is proved equal to a recursive function
  describing its loops, and the lemmas are stated about that function.

Some cross-cutting pieces are shared:

- `PairIndex`: the sorted pair key and the `i < j` pair enumeration.
- `PairSchedule`: the shared `processedPairs` deduplication of the three
  pair passes.
- `ForceMapPass`: the dictionary pass with a snapshot that the two force
  workers share.
- `RecordIndex`: `new Map(records.map(...))`, where the last record wins.

Two behaviours of the source are reproduced as written, and lemmas
exhibit them:

- **The sequential path counts each bond's vibrational force twice.**
  `atom.applyVibrationalForce` has a deduplication set local to each call,
  and every atom runs it over its own bond list, so each bond's force is
  added once from either end. See `Tick.VibrationalDoubleCount`.
- **Both force workers keep a stale snapshot.** They capture `forces[atom.id]`
  once per atom, and every pair overwrites the entry from that snapshot.
  Only the last pair's force survives on the center, and the answered
  forces need not sum to zero. See:
  - `ForceMapPass.RowPassCenter`;
  - `ShortRangeWorker.RotationalRowEffect`;
  - `LongRangeWorker.WorkerNotNetZero`.

  The sequential `applyLongRangeForces` does not have this problem:
  `LongRange.LongRangeNetZero` proves its forces sum to zero.

The two color passes also disagree on one configuration.
`ColorVariants.SequentialPassExample` and `ColorVariants.WorkerPassExample`
show it.

Parameters stand for things the model does not compute:

- **Real numbers** model floating point.
- **`length: Vec3 -> real`** stands for the Euclidean norm
  (`Vector3.length`/`distanceTo`). The cutoff test is stated on the
  squared distance.
- **`rotational: (real, Vec3, Vec3, Vec3) -> Vec3`** stands for the
  per-pair angle term of the rotational force (`angleTo`, `cross`,
  `normalize`). On it the model keeps the pair enumeration and the order in
  which terms are accumulated.
- **`random: nat -> real`** is the seeded generator: its k-th draw, a value
  in `[0, 1)`, consumed in call order.
- **`shuffledColors`** is the permuted palette.
- **Ids are `nat`.** `createAtoms` gives atom `i` the id `i`.
- **The string pair key** `[a, b].sort().join('-')` is the ordered pair
  `(min, max)`.

## Model

| member | source | states |
|---|---|---|
| PairIndex.PairKeyUnordered | src/lib/atomFunctions.ts:136 | the sorted pair key is the same from both ends, and two keys are equal exactly when the pairs have the same members |
| PairIndex.PairsExactlyOnce | src/models/Atom.ts:72-73 | the `i < j` double loop over n bonds visits exactly the pairs i < j < n, each once |
| PairIndex.PairsLast | src/models/Atom.ts:72-73 | with at least two bonds, the last visited pair is (n-2, n-1) |
| PairIndex.PairsShort | src/models/Atom.ts:72-73 | with fewer than two bonds no pair is visited |
| PairIndex.RowMembers | src/models/Atom.ts:73 | the inner loop from lo to hi visits exactly (i, j) for lo <= j < hi, and hi - lo of them |
| PairIndex.PairsBeforeMembers | src/models/Atom.ts:72-73 | the first `rows` outer iterations visit exactly the pairs i < rows, i < j < n |
| PairIndex.PairsBeforeNoDup | src/models/Atom.ts:72-73 | no pair is visited twice by the nested loops |
| Vectors.SqDistSymmetric | src/lib/atomFunctions.ts:82 | the squared distance is symmetric and non-negative |
| Vectors.WithinCutoffSymmetric | src/lib/atomFunctions.ts:82 | the cutoff test holds from a to b exactly when it holds from b to a |
| Vectors.ForceAtUpdate | src/workers/longRangeForcesWorker.ts:102 | the lookup of an entry that counts a missing one as [0, 0, 0] (ForceAt), after a write, reads the written value at that id and the old value, or zero, everywhere else |
| Vectors.SumAppend | src/models/Atom.ts:65 | the sum of a concatenation is the sum of the sums |
| Vectors.SumSubtract | src/models/Atom.ts:66 | subtracting forces entry by entry subtracts their sum |
| Vectors.NetZero | src/models/Atom.ts:65-66 | adding a set of forces to one atom and subtracting each from its partner leaves the total unchanged |
| AtomModel.LocalVibrationalForceSelf | src/models/Atom.ts:58-62 | a bond to the same position gives zero force, whatever the norm |
| AtomModel.LocalVibrationalForceAntisymmetric | src/models/Atom.ts:58-66 | with a sign-blind norm, the spring force on q from p is the opposite of the force on p from q |
| AtomModel.LocalVibrationalForce | src/models/Atom.ts:57-62 | the per-bond spring force: along the normalized direction to the partner, scaled by springConstant·(distance − 1); no ensures of its own, its meaning is stated by LocalVibrationalForceSelf, LocalVibrationalForceAntisymmetric and WorkerVibrationalAgreesLocal |
| AtomModel.EulerStep | src/models/Atom.ts:91-95 | the Euler step of updatePosVelByDelta; no ensures of its own, its meaning is stated by EulerStepSemiImplicit and EulerStepInertial |
| AtomModel.EulerStepSemiImplicit | src/models/Atom.ts:89-99 | the step is semi-implicit Euler: the velocity gains (F/m)·dt, and the position moves by the NEW velocity, i.e. v·dt + (F/m)·dt² |
| AtomModel.EulerStepInertial | src/models/Atom.ts:89-99 | with zero force the velocity is kept and the position moves by v·dt |
| AtomModel.Atom.constructor | src/models/Atom.ts:16-32 | the given position, velocity, mass, charge and original color, with color set to the original color, zero force and no bonds |
| AtomModel.Atom.AddBond | src/models/Atom.ts:35-40 | the partner is appended unless already present, this atom is appended to the partner's list by the recursive call, and both end up bonded |
| AtomModel.Atom.ApplyBondPair | src/models/Atom.ts:48-66 | one iteration: a processed pair key changes nothing; otherwise the key is recorded, this atom gains the spring force and the partner loses it |
| AtomModel.Atom.VibrationalStep | src/models/Atom.ts:46-67 | one `forEach` iteration keeps the progress invariant: the atom holds the partial sum, and every partner visited so far has lost its force |
| AtomModel.Atom.ApplyVibrationalForce | src/models/Atom.ts:43-68 | the atom gains the sum of the spring forces of its bonds (VibrationalForces: one LocalVibrationalForce per partner, in bond order), each partner loses its own force, and the total force of the atom and its partners is unchanged |
| AtomModel.Atom.ApplyRotationalForce | src/models/Atom.ts:71-86 | the force becomes the old force plus the rotational terms of every bond pair i < j, accumulated in loop order |
| AtomModel.Atom.UpdatePosVelByDelta | src/models/Atom.ts:89-99 | position and velocity advance by one Euler step of the accumulated force, and the force is reset to zero |
| AtomModel.PairKeysFresh | src/models/Atom.ts:51-54 | a partner id that appears in no earlier bond has a key not yet processed |
| AtomModel.ForcesShifted | src/models/Atom.ts:66 | if each partner lost its own force, the partners' forces are the old forces minus those forces |
| Rotation.AccumulateAppend | src/models/Atom.ts:82-83 | accumulating over two runs of pairs is accumulating over the first and then the second |
| Rotation.RowFromAccumulates | src/models/Atom.ts:73-84 | the inner loop from a base force adds the terms of the row's pairs in order |
| Rotation.RowsFromAccumulates | src/models/Atom.ts:72-85 | the nested loops from a base force add the terms of all the visited pairs in order |
| NeighborLists.NeighborsOf | src/lib/atomFunctions.ts:80-84 | the filter lists only other atoms of the population (by reference) within the cutoff, lists every such atom, and is no longer than the population |
| NeighborLists.NeighborsOfAppend | src/lib/atomFunctions.ts:80-84 | the filter keeps population order |
| NeighborLists.NeighborsSymmetric | src/lib/atomFunctions.ts:80-84 | within a population, b is a neighbor of a exactly when a is one of b, and no atom is its own neighbor |
| NeighborLists.CalculateNeighborLists | src/lib/atomFunctions.ts:76-89 | the keys are exactly the population's ids, and each id holds the filtered list of the last atom with that id |
| NeighborLists.ListsOfLastWins | src/lib/atomFunctions.ts:85 | the finished sequence of `map.set` calls gives the result CalculateNeighborLists promises |
| NeighborLists.NeighborListsOfDistinct | src/lib/atomFunctions.ts:76-89 | with distinct ids every atom's own list is present, and the lists hold only population atoms other than their own |
| NeighborLists.ListedAreMembers | src/lib/atomFunctions.ts:100 | a population atom and every atom on its list are members of the set the passes may write |
| RecordIndex.IndexById | src/workers/longRangeForcesWorker.ts:31-33 | the keys are the records' ids, and each key maps to a record carrying that id |
| RecordIndex.IndexByIdLast | src/workers/longRangeForcesWorker.ts:31-33 | a key maps to the last record carrying its id |
| RecordIndex.ResolveIndexById | src/workers/longRangeForcesWorker.ts:31-47 | `ids.map(id => atomMap.get(id)!)` (Resolve) against the id map of some records gives, in order, one of those records for each id, carrying that id |
| RecordIndex.LastWinsStep | src/lib/atomFunctions.ts:85 | one more `map.set` keeps the keys equal to the ids seen, each holding the value of its last occurrence |
| NeighborsWorker.Ids | src/workers/neighborsWorker.ts:31 | the id list has the records' ids, in order |
| NeighborsWorker.WithinMembers | src/workers/neighborsWorker.ts:21-30 | a record survives the filter exactly when its id differs from the atom's and it is within the cutoff |
| NeighborsWorker.NeighborIdsMembers | src/workers/neighborsWorker.ts:21-31 | the answer never lists the atom's own id, lists only ids of records within the cutoff, and lists every other-id record within the cutoff |
| NeighborsWorker.NeighborIdsAppend | src/workers/neighborsWorker.ts:21-31 | filter-then-map keeps input order |
| NeighborsWorker.WithinAppend | src/workers/neighborsWorker.ts:21-30 | the filter distributes over concatenation |
| NeighborsWorker.IdsAppend | src/workers/neighborsWorker.ts:31 | the id map distributes over concatenation |
| NeighborsWorker.WithinSymmetric | src/workers/neighborsWorker.ts:22-30 | b passes a's filter exactly when a passes b's |
| NeighborsWorker.AnswersKeys | src/workers/neighborsWorker.ts:20-34 | after the loop has handled a prefix, the keys are exactly the prefix's ids |
| NeighborsWorker.AnswersLast | src/workers/neighborsWorker.ts:20-34 | a key holds the answer of the last handled record with that id |
| NeighborsWorker.BuildNeighborsMap | src/workers/neighborsWorker.ts:15-37 | every input id is a key, holding the answer for the last record carrying that id |
| ColorPropagation.LocalVisit | src/lib/atomFunctions.ts:99-115 | one iteration of the color pass; no ensures of its own, its meaning is stated by LocalVisitIsolated and LocalVisitSpreads |
| ColorPropagation.PaintAtomsDomains | src/lib/atomFunctions.ts:111-114 | painting records the listed atoms and marks their ids processed |
| ColorPropagation.PaintAtomsEffect | src/lib/atomFunctions.ts:111-114 | painting gives exactly the listed atoms the shared color and keeps every other entry |
| ColorPropagation.LocalVisitIsolated | src/lib/atomFunctions.ts:100-103 | an atom with a missing or empty list is reset to its original color and nothing else changes |
| ColorPropagation.LocalVisitSpreads | src/lib/atomFunctions.ts:106-114 | an unprocessed atom with neighbors gives itself and its neighbors the first neighbor's current color, marks them processed, and leaves all else alone |
| ColorPropagation.LocalPropagateProvenance | src/lib/atomFunctions.ts:92-118 | every member stays recorded, and every resulting color is a color some member held before or the original color of a visited atom |
| ColorPropagation.SetColor | src/lib/atomFunctions.ts:113 | one color write keeps heap and state map in agreement |
| ColorPropagation.UpdateAtomColorsByNeighborhood | src/lib/atomFunctions.ts:92-118 | every member's new color is the one the value-level pass computes from the members' old colors |
| ColorWorker.Visit | src/workers/colorWorker.ts:27-44 | one iteration of the worker's loop; no ensures of its own, its meaning is stated by VisitIsolated, VisitProcessed and VisitSpreads |
| ColorWorker.PaintDomains | src/workers/colorWorker.ts:40-43 | painting adds the listed ids to the answered and the processed ids |
| ColorWorker.PaintEffect | src/workers/colorWorker.ts:40-43 | painting sets exactly the listed ids to the shared color and keeps every other entry |
| ColorWorker.VisitIsolated | src/workers/colorWorker.ts:28-32 | an atom with a missing or empty list is answered with its original color, and the processed set is unchanged |
| ColorWorker.VisitProcessed | src/workers/colorWorker.ts:35 | an already processed atom with neighbors changes nothing |
| ColorWorker.VisitSpreads | src/workers/colorWorker.ts:35-43 | an unprocessed atom with neighbors gives itself and its neighbors the first neighbor's answered color, or its own original color when that is missing or empty, marks them processed, and leaves all else alone |
| ColorWorker.PropagateOriginals | src/workers/colorWorker.ts:23-46 | every answered color is the original color of some input atom |
| ColorWorker.PropagateCovers | src/workers/colorWorker.ts:23-46 | every visited atom has an answer, and so has every processed id |
| ColorWorker.ColorPass | src/workers/colorWorker.ts:19-50 | the answer is that of the pass; every input id is answered, and only with original colors of the inputs |
| ColorVariants.SequentialPassExample | src/lib/atomFunctions.ts:106-114 | on two mutual neighbors, the sequential pass paints A with B's current color |
| ColorVariants.WorkerPassExample | src/workers/colorWorker.ts:35-43 | on the same configuration, the worker paints A with its own original color |
| PairSchedule.ScheduleRowsStep | src/lib/atomFunctions.ts:132-175 | the outer loop one row further is one more inner loop |
| PairSchedule.ScheduleRowExtends | src/lib/atomFunctions.ts:139-142 | a row only appends to the handled pairs and only adds keys |
| PairSchedule.ScheduleRowConsistent | src/lib/atomFunctions.ts:136-142 | a row keeps the processed set equal to the handled keys, with no key handled twice |
| PairSchedule.ScheduleAtMostOnce | src/lib/atomFunctions.ts:130-142 | over the whole pass each unordered pair is handled at most once, and the processed set is exactly the handled keys |
| PairSchedule.ScheduleRowCovers | src/lib/atomFunctions.ts:136-142 | after a row, the key of each of its (center, partner) pairs is processed |
| PairSchedule.ScheduleCovers | src/lib/atomFunctions.ts:130-142 | at the end, every listed pair's key is processed |
| PairSchedule.ScheduleRowOrigin | src/lib/atomFunctions.ts:132-142 | the pairs a row handles have its center and one of its partners |
| PairSchedule.ScheduleOrigin | src/lib/atomFunctions.ts:132-142 | every handled pair is a center with one of its listed partners |
| LongRange.Clamp | src/lib/atomFunctions.ts:149 | `Math.max(r, MIN_DISTANCE)`: at least 0.1 and at least r, and equal to one of the two |
| LongRange.CentralForceNeg | src/lib/atomFunctions.ts:149-169 | reversing the displacement reverses the force |
| LongRange.LongRangeForceAntisymmetric | src/lib/atomFunctions.ts:145-173 | with a sign-blind norm, the force on the neighbor from the atom is the opposite of the force on the atom from the neighbor |
| LongRange.CentralForce | src/lib/atomFunctions.ts:149-169 | the pair force for a displacement: each magnitude over the square of the clamped distance, along the normalized displacement; no ensures of its own, its meaning is stated by CentralForceNeg and WorkerForceAgreesLocal |
| LongRange.LongRangeForce | src/lib/atomFunctions.ts:145-169 | the gravity plus Coulomb force on the atom from its neighbor; no ensures of its own, its meaning is stated by LongRangeForceAntisymmetric and WorkerForceAgreesLocal |
| LongRange.Contributions | src/lib/atomFunctions.ts:145-173 | one force per handled pair, in order |
| LongRange.DeltaForAppend | src/lib/atomFunctions.ts:172-173 | one more contribution adds its share to an atom's change |
| LongRange.NetChangeAppend | src/lib/atomFunctions.ts:172-173 | summing the changes over a population commutes with appending a contribution |
| LongRange.ShareSumAbsent | src/lib/atomFunctions.ts:172-173 | a pair with neither end in the population changes its total by nothing |
| LongRange.ShareSumOnlyCenter | src/lib/atomFunctions.ts:172 | a pair with only the atom end present changes the total by +f |
| LongRange.ShareSumOnlyPartner | src/lib/atomFunctions.ts:173 | a pair with only the neighbor end present changes the total by -f |
| LongRange.ShareSumSingle | src/lib/atomFunctions.ts:172-173 | with both ends, each present once, the shares cancel |
| LongRange.ShareSumEndAtLast | src/lib/atomFunctions.ts:172-173 | the base case of ShareSumSingle, when the last atom is an end |
| LongRange.NetChangeZero | src/lib/atomFunctions.ts:172-173 | if every endpoint occurs once in a population without repeats, the changes sum to zero |
| LongRange.NetChangeEmpty | src/lib/atomFunctions.ts:172-173 | no contribution means no change |
| LongRange.ContributionsPairs | src/lib/atomFunctions.ts:145-173 | the contributions keep the handled pairs in order |
| LongRange.LongRangeNetZero | src/lib/atomFunctions.ts:121-176 | over a population without repeats whose lists hold only its own atoms, the forces the pass adds sum to zero |
| LongRange.LongRangePairsOnce | src/lib/atomFunctions.ts:130-142 | the pass handles each unordered neighbor pair at most once, and the key of every listed (atom, neighbor) pair is processed |
| LongRange.ApplyShareAt | src/lib/atomFunctions.ts:172-173 | one pair's two writes change each object's force by exactly its share |
| LongRange.ExpectedAppend | src/lib/atomFunctions.ts:172-173 | appending a contribution performs its two writes |
| LongRange.SetForce | src/lib/atomFunctions.ts:172-173 | one force write keeps heap and state map in agreement |
| LongRange.ContributionsAppend | src/lib/atomFunctions.ts:145-173 | handling one more pair appends its contribution |
| LongRange.ApplyPair | src/lib/atomFunctions.ts:145-173 | one handled pair: the atom gains the force and the neighbor loses it |
| LongRange.ApplyRow | src/lib/atomFunctions.ts:135-174 | the inner loop over one atom's neighbors follows the schedule row and performs its contributions |
| LongRange.ApplyLongRangeForces | src/lib/atomFunctions.ts:121-176 | every member's force ends as its old force plus the changes of the handled contributions, computed from the members' positions |
| ForceMapPass.PassStep | src/workers/longRangeForcesWorker.ts:42-106 | the pass over one more row is one more row pass, from the snapshot of the center's entry |
| ForceMapPass.PairStep | src/workers/longRangeForcesWorker.ts:50-104 | one inner iteration of the dictionary pass; no ensures of its own, its meaning is stated by PairStepEffect and PairStepPartner |
| ForceMapPass.PairStepEffect | src/workers/longRangeForcesWorker.ts:50-104 | one inner iteration: a processed key changes nothing; otherwise the center's entry becomes snapshot + f and the partner's entry its previous value (or zero) minus f |
| ForceMapPass.RowPassSchedule | src/workers/longRangeForcesWorker.ts:44-105 | a row of the dictionary pass follows the schedule row of applyLongRangeForces |
| ForceMapPass.PassSchedule | src/workers/longRangeForcesWorker.ts:40-106 | the whole dictionary pass follows the shared pair schedule |
| ForceMapPass.PassAtMostOnce | src/workers/longRangeForcesWorker.ts:40-106 | each unordered pair is handled at most once, and every listed pair's key is processed |
| ForceMapPass.RowPassCenter | src/workers/longRangeForcesWorker.ts:43-100 | stale snapshot: after a row, the center's entry is unchanged if no pair was handled, and otherwise is the snapshot plus the force of the LAST handled pair only |
| ForceMapPass.PassRowCenter | src/workers/longRangeForcesWorker.ts:43-100 | RowPassCenter for row i of the pass |
| ForceMapPass.PairStepPartner | src/workers/longRangeForcesWorker.ts:102-104 | one inner iteration takes from a non-center entry exactly the force of a pair handled with it |
| ForceMapPass.RowPassPartner | src/workers/longRangeForcesWorker.ts:102-104 | after a row, every non-center entry has lost exactly the forces of the pairs the row handled with it |
| LongRangeWorker.WorkerRowsResolved | src/workers/longRangeForcesWorker.ts:42-47 | row i of the pass is atom i with, in list order, an input atom for each id its neighbor list names, carrying that id |
| LongRangeWorker.WorkerPairForce | src/workers/longRangeForcesWorker.ts:57-95 | the worker's pair force; no ensures of its own, its meaning is stated by WorkerForceAgreesLocal and WorkerForceClamped |
| LongRangeWorker.WorkerForceAgreesLocal | src/workers/longRangeForcesWorker.ts:57-95 | at least MIN_DISTANCE apart, the worker's pair force equals applyLongRangeForces' |
| LongRangeWorker.WorkerForceClamped | src/workers/longRangeForcesWorker.ts:63-95 | closer than MIN_DISTANCE, the force is the displacement times 1000·(G·m1·m2 + k·q1·q2) |
| LongRangeWorker.WorkerPairsOnce | src/workers/longRangeForcesWorker.ts:40-54 | the worker handles each unordered neighbor pair at most once |
| LongRangeWorker.WorkerListedProcessed | src/workers/longRangeForcesWorker.ts:40-54 | the key of every (atom, listed neighbor id) is processed by the end |
| LongRangeWorker.DemoAtomMap | src/workers/longRangeForcesWorker.ts:31-33 | the id map of the three-atom configuration |
| LongRangeWorker.DemoNeighborMap | src/workers/longRangeForcesWorker.ts:35-37 | the neighbor map of the three-atom configuration: each atom lists the other two |
| LongRangeWorker.DemoEntriesAnswered | src/workers/neighborsWorker.ts:20-34 | with a cutoff of 2, the neighbors worker answers exactly these lists for the three atoms |
| LongRangeWorker.DemoResolves | src/workers/longRangeForcesWorker.ts:47 | every listed id of the configuration resolves |
| LongRangeWorker.DemoRows | src/workers/longRangeForcesWorker.ts:42-47 | the rows of the configuration |
| LongRangeWorker.DemoForces | src/workers/longRangeForcesWorker.ts:57-95 | the pair forces of the configuration: 1, 0.25 and 1 along x for the pairs (0, 1), (0, 2) and (1, 2) |
| LongRangeWorker.DemoFirstRow | src/workers/longRangeForcesWorker.ts:43-104 | atom 0's row overwrites its entry from the zero snapshot: first 1, then 0.25 |
| LongRangeWorker.DemoSecondRow | src/workers/longRangeForcesWorker.ts:43-104 | atom 1's row, from its snapshot -1: the pair (1, 0) is skipped, and (1, 2) sets entry 1 to -1 + 1 and takes 1 from entry 2 |
| LongRangeWorker.DemoThirdRow | src/workers/longRangeForcesWorker.ts:43-104 | atom 2's row changes nothing: both its pairs are processed |
| LongRangeWorker.DemoWorkerPass | src/workers/longRangeForcesWorker.ts:40-106 | the worker pass over the configuration is the three row passes in turn |
| LongRangeWorker.WorkerNotNetZero | src/workers/longRangeForcesWorker.ts:43-104 | on the symmetric lists the neighbors worker answers, the answered forces are 0.25, 0 and -1.25 along x and sum to (-1, 0, 0), not zero |
| LongRangeWorker.NeighborLoop | src/workers/longRangeForcesWorker.ts:44-105 | the forces and the processed-pair set the inner loop returns are those of the specified row pass |
| LongRangeWorker.LongRangeForcesPass | src/workers/longRangeForcesWorker.ts:24-110 | the answered forces are those of the specified pass |
| ShortRangeWorker.VibrationalRowsResolved | src/workers/shortRangeForcesWorker.ts:30-34 | row i of the vibrational pass is record i with, in bond order, an input record for each of its bond ids, carrying that id |
| ShortRangeWorker.WorkerVibrationalForce | src/workers/shortRangeForcesWorker.ts:41-61 | the worker's spring force; no ensures of its own, its meaning is stated by WorkerVibrationalAgreesLocal and WorkerVibrationalClamped |
| ShortRangeWorker.WorkerVibrationalAgreesLocal | src/workers/shortRangeForcesWorker.ts:41-61 | at least MIN_DISTANCE apart, with a sign-blind norm, the worker's spring force is the one applyVibrationalForce adds |
| ShortRangeWorker.WorkerVibrationalClamped | src/workers/shortRangeForcesWorker.ts:48-61 | closer than MIN_DISTANCE, the force is the displacement times -9·springConstant |
| ShortRangeWorker.VibrationalPairsOnce | src/workers/shortRangeForcesWorker.ts:28-54 | each unordered bonded pair is handled at most once |
| ShortRangeWorker.VibrationalBondProcessed | src/workers/shortRangeForcesWorker.ts:28-54 | the key of every (record, bond id) is processed by the end |
| ShortRangeWorker.PartnersDiffer | src/workers/shortRangeForcesWorker.ts:33-34 | a record not bonded to itself has only partners with other ids |
| ShortRangeWorker.VibrationalRowCenter | src/workers/shortRangeForcesWorker.ts:31-65 | stale snapshot: after a record's row, its entry is the captured value plus the force of the row's last handled bond only |
| ShortRangeWorker.VibrationalRowPartner | src/workers/shortRangeForcesWorker.ts:67-69 | every other entry loses exactly the forces of the bonds the row handled with it |
| ShortRangeWorker.OverwriteLast | src/workers/shortRangeForcesWorker.ts:112-114 | with overwriting writes, only the last visited pair's term survives |
| ShortRangeWorker.OverwriteAppend | src/workers/shortRangeForcesWorker.ts:77-115 | overwriting over two runs of pairs is overwriting over the first and then the second |
| ShortRangeWorker.RowWriteOverwrites | src/workers/shortRangeForcesWorker.ts:78-115 | the inner loop makes exactly the writes of its row's pairs |
| ShortRangeWorker.RowsWriteOverwrites | src/workers/shortRangeForcesWorker.ts:77-116 | the nested loops make exactly the writes of the i < j pairs, in order |
| ShortRangeWorker.RotationalRowEffect | src/workers/shortRangeForcesWorker.ts:74-116 | a record's rotational loops write only its own entry: nothing with fewer than two bonds, otherwise the captured value plus the term of the last pair (n-2, n-1) alone |
| ShortRangeWorker.BondsInPrefix | src/workers/shortRangeForcesWorker.ts:79-80 | bond ids that resolve for all records resolve for a prefix |
| ShortRangeWorker.RotationalPassFrame | src/workers/shortRangeForcesWorker.ts:74-117 | the rotational pass leaves every id outside the records as it was |
| ShortRangeWorker.RotationalRowAt | src/workers/shortRangeForcesWorker.ts:74-116 | RotationalRowEffect entry by entry |
| ShortRangeWorker.RotationalPassAt | src/workers/shortRangeForcesWorker.ts:74-117 | the pass over one more record, entry by entry |
| ShortRangeWorker.RotationalPassFinal | src/workers/shortRangeForcesWorker.ts:74-117 | with distinct ids, each record's final entry is its pre-pass entry plus (with two or more bonds) the last pair's term only |
| ShortRangeWorker.BondLoop | src/workers/shortRangeForcesWorker.ts:33-70 | the forces and the processed-pair set the inner vibrational loop returns are those of the specified row pass |
| ShortRangeWorker.VibrationalLoops | src/workers/shortRangeForcesWorker.ts:28-71 | the vibrational loops reach the specified pass state |
| ShortRangeWorker.RotateAbout | src/workers/shortRangeForcesWorker.ts:75-116 | the nested i < j loops of a record reach its rotational row, over the positions of its resolved partners (BondPositions) |
| ShortRangeWorker.ShortRangeForcesPass | src/workers/shortRangeForcesWorker.ts:17-120 | the answer is the rotational pass over the state the vibrational pass leaves |
| Population.ShuffledLength | src/lib/atomFunctions.ts:17-24 | a permutation of the palette keeps its 25 colors |
| Population.CenteredRange | src/lib/atomFunctions.ts:30-42 | `(random() - 0.5) * d` lies within d/2 of zero |
| Population.AtomDraws | src/lib/atomFunctions.ts:30-42 | the attributes drawn for atom i, in the source's draw order; no ensures of its own, its meaning is stated by AtomDrawsRanges and NewAtom |
| Population.AtomDrawsRanges | src/lib/atomFunctions.ts:29-48 | mass lies in [1, 6), charge in [-1, 1), and every position and velocity coordinate within half its dispersion |
| Population.CandidateIndex | src/lib/atomFunctions.ts:54 | `Math.floor(random() * n)` is a valid index |
| Population.TryBond | src/lib/atomFunctions.ts:57-62 | the candidate is bonded exactly when it is another atom, not yet a partner and under the cap; the bond appears on both sides and the graph stays simple, symmetric and capped |
| Population.BondAttempt | src/lib/atomFunctions.ts:54-62 | one loop body: one draw picks the candidate, and the bond graph stays well formed |
| Population.BondAtom | src/lib/atomFunctions.ts:53-69 | the graph stays well formed; at most atomCount·10 + 1 draws are used, and all of them when the loop stops under the cap |
| Population.AssignBonds | src/lib/atomFunctions.ts:50-70 | the graph stays well formed and at most DrawBound(n) draws are used |
| Population.UnbondedGraph | src/lib/atomFunctions.ts:26-48 | a population without bonds is a bond graph for any cap |
| Population.NewAtom | src/lib/atomFunctions.ts:30-47 | a fresh atom with id i, no bonds, and the attributes of its eight draws |
| Population.NewAtoms | src/lib/atomFunctions.ts:29-48 | atomCount fresh, unbonded atoms; atom i has id i and the attributes of the draws starting at start + 8i |
| Population.CreateAtoms | src/lib/atomFunctions.ts:7-73 | atomCount fresh atoms with ids 0..n-1 and their drawn attributes, joined by a simple, symmetric, capped bond graph |
| Population.BondListsWellFormed | src/models/Atom.ts:46-54 | in a bond graph over distinct ids, every bond list has distinct partner ids, none equal to the atom's own |
| Tick.MergedForce | src/lib/atomFunctions.ts:334-340 | the sum of the short- and long-range answers, a missing entry counting as zero, in all four presence cases |
| Tick.MergeAtom | src/lib/atomFunctions.ts:333-353 | one Euler step of the merged force (the velocity first, then the position by the new velocity); the color is the answered one, or the original one when the answer is missing or the empty string (ColorOr, JavaScript's `or` on strings); the force field is untouched |
| Tick.MergeWorkerResults | src/lib/atomFunctions.ts:333-354 | every atom gets its merged Euler step and color |
| Tick.MembersArePopulation | src/lib/atomFunctions.ts:194 | with distinct ids, the freshly built lists hold only population atoms |
| Tick.ApplyLocalForces | src/lib/atomFunctions.ts:188-191 | its contract is its frame: only forces change; each atom's effect is stated by Atom.ApplyVibrationalForce and Atom.ApplyRotationalForce |
| Tick.IntegrateAll | src/lib/atomFunctions.ts:203 | every atom takes one Euler step of its accumulated force, and the force is reset to zero |
| Tick.UpdateAtomsSequential | src/lib/atomFunctions.ts:178-204 | only that a tick leaves every atom's force at zero and, through its frame, changes no bond; each phase is stated by the pass it calls |
| Tick.ApplySingleBond | src/models/Atom.ts:43-68 | applyVibrationalForce on an atom with one bond adds the spring force to the atom and subtracts it from the partner |
| Tick.VibrationalDoubleCount | src/lib/atomFunctions.ts:188-191 | for two atoms bonded only to each other, the tick's local-force calls in its order (each atom's vibrational, then rotational force) add TWICE the bond force to each end; the rotational calls add nothing |

## Left out

- Floating point: all arithmetic is on reals. Rounding, overflow, NaN and infinities are not modelled.
- The Euclidean norm and `Math.sqrt` are the parameter `length`. Lemmas that need the norm to ignore the sign of its argument say so in a requires. The cutoff test of the neighbor lists uses the squared distance, which is equivalent for a non-negative cutoff.
- The rotational term (`angleTo`, `cross`, `normalize`, `Math.PI`) is the parameter `rotational`. The model keeps only which pairs are visited and how their terms are combined.
- The palette shuffle (`sort(() => random() - 0.5)`) is left out. Its result is the input `shuffledColors`, a permutation of the palette. The draws it consumes are skipped by the `start` index.
- The seeded generator (`src/lib/randomUtils.ts`) is the parameter `random`, a stream of draws in [0, 1). randomUtils is not part of this model.
- `uuidv4()` ids: ids are `nat`. createAtoms gives atom i the id i. Elsewhere distinct ids are a requires where a lemma needs them.
- The string pair key `[a, b].sort().join('-')` is the ordered pair (min, max). Lexicographic sorting of uuid strings and plain sorting of numbers have the same effect here: two keys agree exactly when the pairs do.
- Worker messaging, promises, worker creation and termination, and error handling are left out. So are the `updateAtomsSequential2` and `updateAtomsParallel` orchestration and the React/three.js user interface. The model keeps what each worker computes from its message and the merge that ends both parallel ticks.
- `src/types.d.ts` and the remaining UI files are not part of this model.
- AtomModel.Atom.UpdatePosVelByDelta: requires a non-zero mass. The source would divide by zero, but createAtoms draws masses in [1, 6).
- Tick.MergeAtom: requires a non-zero mass, for the same reason.
- LongRangeWorker.LongRangeForcesPass: requires every listed neighbor id to resolve. The source's `atomMap.get(id)!` assumes it.
- ShortRangeWorker.ShortRangeForcesPass: requires every bond id to resolve. The source's `get(id)!` lookups assume it.
- AtomModel.Atom.ApplyVibrationalForce: requires distinct partner ids, none equal to the atom's own. The source would also skip repeated partners through `processedPairs`; every bond list createAtoms builds meets the requires (Population.BondListsWellFormed).
- Tick.ApplyLocalForces: states only its frame (forces only). Each atom's effect is stated by AtomModel.Atom.ApplyVibrationalForce and AtomModel.Atom.ApplyRotationalForce.
- Tick.UpdateAtomsSequential: states only that every force ends at zero and, through its frame, that bonds are untouched. The per-phase results are stated by the passes it calls.
- The rotational worker divides by `r1` and `r2`, which can be zero for coincident atoms. That formula sits inside the `rotational` parameter.
