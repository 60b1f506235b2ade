# Verified models of Halide compiler passes and an AI Engine kernel

This project models nine pieces of the compiler and its scripts in Dafny and proves what
they promise. Each file holds one module; `dafny verify dfyconfig.toml` checks them all.

1. **Async producers** (`AsyncIr`, `AsyncFork`, `AsyncProtocol`, `AsyncLockstep`,
   `AsyncValues`, `AsyncPasses`, `AsyncScopes`, `AsyncTidy`, `AsyncWhole`). A realization of an async function is split into a producer
   and a consumer task that meet at counting semaphores. Statements have a trace semantics; a fork
   has an interleaving semantics with blocking acquires. The two generated bodies run exactly
   the two shares of the sequential run. When no interleaving gets stuck, and when a produce
   is certain to precede a consume, are characterised exactly, and so is when a consume node
   sees the sequential values. For lockstep bodies the fork always finishes, leaves the
   semaphores at zero, and every consume node sees the sequential values. Semaphores and storage
   are declared around what uses them, before and after the clean-up passes.
2. **Common subexpression elimination** (`ExprGraph`, `CseLets`, `CseNumbering`, `CseUses`,
   `CseSharing`, `Cse`). Expressions are graphs whose nodes have addresses, so maps keyed by pointer differ
   from comparisons by structure. The passes are classes with their maps as fields.
3. **Interval analysis** (`Ir`, `Intervals`, `Euclid`, `BoundsArith`, `BoundsMulDiv`,
   `BoundsDivMod`, `BoundsLogic`, `BoundsCast`, `Bounds`, `BoundsVisitor`, `BoundsLimits`,
   `BoundsSigns`, `BoundsCapture`, `WideClass`, and for tightness `BoundsTight`,
   `BoundsAttained`, `BoundsFound`), **region analysis** (`Boxes`, `RegionIr`, `Regions`,
   `RegionSteps`, `RegionSafe`, `RegionWalk`, `RegionTight`, `BoxesTouched`, `PlainRegions`, `RegionLimits`) and their
   client **BoundSmallAllocations** (`SmallAllocations`, `AllocationPass`,
   `AllocationSizes`). Bounds are
   symbolic expressions; a value computed inside is compared with bounds read outside the
   scope. Names may be bound again: the region analysis follows the instances of a name.
4. **The auto-scheduler** (`Grouping`, `Partitioning`): the grouping loop with its ledger and
   its selectively invalidated cache; and (`Dependence`, `DependenceExact`,
   `DependenceAnalysis`) the worklist
   of required regions with its memo table. The two halves read different parts of a
   pipeline, so each has its own `Pipeline` (and `FStage`, `Stage` for a stage of a function).
5. **Loop splits** (`Splits`, `SplitKnowledge`, `SplitRuns`, `SplitPlans`).
6. **Name mangling** (`WindowsMangle`, `WindowsTables`, `WindowsText`, `WindowsTypes`, `ItaniumMangle`).
7. **Load alignment** (`AlignLoads`).
8. **The generated convolution** against the naive one (`Conv`, `ConvOutput`).
9. **Associative operators** (`AssociativeOps`).

`Wrappers`, `Positions` and `Euclid` hold what several of them share.

The simplifier, the prover, the equation solver and the unique-name generator are parameters
of which only soundness is required (`BoundsArith.OracleOk`, `Regions.OraclesOk`). The cost
model of the auto-scheduler, the box analysis of one stage, the rounding of the final vector
shift and the meaning of operators in common subexpression elimination are arbitrary.
Arithmetic on signed 32- and 64-bit values is mathematical, since the language leaves its
overflow undefined; 1-, 8- and 16-bit arithmetic wraps.

## Where the code does less than one would hope

- Interval analysis is not sound in general. `Bounds.Safe` collects the guards of the rules
  that fail; each has an input and the exact condition of its rule in `BoundsLimits`,
  `BoundsSigns` or `BoundsCapture`: modulus by a half-bounded divisor
  (`src/Bounds.cpp:546-549`), narrow signed division by -1 (`src/Bounds.cpp:497-509`), narrow
  sums and differences with one end (`src/Bounds.cpp:341-414`), the sign of a constant under a
  wrapping cast (`src/Bounds.cpp:435-450`), a narrowing cast that looks for constants in the
  wrong scope (`src/Bounds.cpp:217-249`), a let whose lower bound reads the name of its upper
  one, and a let whose body, or another variable's bounds, read the names it makes up
  (`src/Bounds.cpp:1234-1253`). The conditions on divisors are for one value, those on signs
  for 32 and 64 bits.
- Region analysis inherits these guards, and adds two of its own. A bound passed under a made
  up name must not be infinite, or the name is bound to an infinity (`src/Bounds.cpp:1865-1873`,
  `src/Bounds.cpp:1989-1992`). A let that depends on a narrowed variable is analysed again in
  the present scope, which is wrong once a name its value reads has been bound again
  (`src/Bounds.cpp:1840-1858`). `RegionSafe.SafeStmt` is the condition on statement and scope
  under which all guards are met, `PlainRegions` a class of statements that meet it, and
  `RegionLimits` has the failing inputs with their exact conditions. `AllocationPass.SafeCode`
  and `AllocationPass.PlainCode` do the same for small allocations.
- The fork of an async function accepts bodies in which a consume node may overtake a
  produce, or wait forever; `AsyncProtocol.OrderedIff` and `AsyncProtocol.DeadlockFreeIff`
  say exactly when, and `AsyncValues.SeesSequentialIff` when the values read are still the
  sequential ones.
- A split factor that is negative passes if it divides a known alignment
  (`src/ApplySplit.cpp:38-49`), although the error message says that factors must be strictly
  positive; its loops run nothing. ShiftInwards leaves the range when it is shorter than the
  factor. Fusing two loops of negative extent gives a loop that runs. Fusing a loop of known
  alignment with one of unknown alignment forgets the known one (`SplitKnowledge.FuseForgets`).
- AlignLoads takes the remainder of a constant base with the sign of C++, so a negative
  constant base yields a negative slice offset (`src/AlignLoads.cpp:73-136`).
- The memo table of required regions leaves the input estimates out of its key
  (`src/AutoSchedule.cpp:396-409`). When unbounded functions have been inlined, it is filled
  under the estimates of a shadowed variable `costs` and then asked under those of the outer
  one (`src/AutoSchedule.cpp:3451-3462`). The two may differ, since estimates are collected
  from the functions of the pipeline (`src/RegionCosts.cpp:337-344`), which inlining has
  changed; whether they ever do is not settled here.
- The vector kernel loads whole vectors and so reads four words past the last tap of the last
  filter and six past the last input word it uses (`ai_scripts/xhalide_generated.cc:448-455`,
  `ConvOutput.LoadsOverreach`); those lanes never enter a result.

## Model

| member | source | states |
|---|---|---|
| `AsyncFork.AddReleases` | src/AsyncProducers.cpp:103-122 | popping the semaphore vector around a produce body gives the body followed by one release per consume node, last semaphore first |
| `AsyncFork.SemaNameInjective` | src/AsyncProducers.cpp:308-318 | the numbered semaphore names of one function are pairwise different |
| `AsyncFork.EnoughSemaphores` | src/AsyncProducers.cpp:193-207 | the consumer's visit reaches no more consume nodes than were counted, so its vector never runs empty |
| `AsyncFork.ConsumerRuns` | src/AsyncProducers.cpp:187-237 | running the consumer's copy of a statement gives exactly the consumer's share of the original run, each consume node preceded by its acquire |
| `AsyncFork.ProducerRuns` | src/AsyncProducers.cpp:96-183 | running the producer's copy gives exactly the producer's share of the original run, each produce node followed by its releases, although no-ops have been collapsed |
| `AsyncFork.ProducerCollapses` | src/AsyncProducers.cpp:17-94 | without a produce node of the function the producer's copy collapses to a no-op |
| `AsyncFork.ProducerConsumesVector` | src/AsyncProducers.cpp:103-122 | a reachable produce node uses up the whole semaphore vector, and fails on an empty one |
| `AsyncProtocol.RunIsBalanced` | src/AsyncProducers.cpp:103-122 | in every configuration of every interleaving each semaphore holds releases made minus acquires made, and is never negative |
| `AsyncProtocol.EntryWaitsForProduce` | src/AsyncProducers.cpp:296-351 | in every interleaving, the m-th entry of any consume node comes after the m-th produce has completed |
| `AsyncProtocol.DeadlockFreeIff` | src/AsyncProducers.cpp:308-344 | no reachable configuration is stuck before both tasks finish if and only if no consume node is entered more often than the function is produced |
| `AsyncProtocol.StuckRun` | src/AsyncProducers.cpp:308-344 | otherwise an explicit interleaving that gets stuck |
| `AsyncProtocol.FinalSemaphores` | src/AsyncProducers.cpp:308-344 | when both tasks are done a semaphore holds the produces that its consume node did not wait for |
| `AsyncProtocol.OrderedIff` | src/AsyncProducers.cpp:296-351 | a produce step comes before a consume entry in every interleaving if and only if that entry or an earlier one has waited for the produce |
| `AsyncProtocol.UncoveredEntryOvertakes` | src/AsyncProducers.cpp:296-351 | if it has not waited, some interleaving lets the consumer overtake |
| `AsyncLockstep.LockstepInStep` | src/AsyncProducers.cpp:296-351 | in a lockstep statement produces and entries of each consume node keep pace through every prefix of the run |
| `AsyncLockstep.ForkRunsShares` | src/AsyncProducers.cpp:296-351 | the fork runs two tasks side by side that are the two shares of the sequential run, under exactly one declaration of each semaphore they use |
| `AsyncLockstep.LockstepForkTerminates` | src/AsyncProducers.cpp:296-351 | a lockstep body forks into tasks that never get stuck, leave every semaphore at zero, and use only semaphores that are declared around both |
| `AsyncLockstep.EntrySeesSequentialValues` | src/AsyncProducers.cpp:296-351 | with write-once storage, a consume entry that has waited finds in memory everything the sequential run had written, with the same values |
| `AsyncLockstep.LockstepForkSeesSequentialValues` | src/AsyncProducers.cpp:296-351 | for every lockstep body and every interleaving, every consume node sees the sequential values |
| `AsyncLockstep.OutOfStepOvertakes` | src/AsyncProducers.cpp:296-351 | a body that produces twice and consumes once is accepted, and its second produce may come after the consumption |
| `AsyncValues.SeesSequentialIff` | src/AsyncProducers.cpp:296-351 | for every run, in lockstep or not: an entry finds the sequential values in every interleaving, whatever the work writes, if and only if each piece of work done once before it is awaited by some node entered more often than the function was produced by then |
| `AsyncValues.ForkIsRightIff` | src/AsyncProducers.cpp:296-351 | the two exact conditions, for getting stuck and for the values seen, and that every semaphore is declared once around both tasks, for the fork of every accepted body that has consume nodes and does not nest nodes of the function |
| `AsyncPasses.ExpandBlock` | src/AsyncProducers.cpp:496-522 | the loop over the statement and semaphore vectors of a block computes the recursive expansion |
| `AsyncPasses.MergeUnderAcquires` | src/AsyncProducers.cpp:496-522 | moving the rest of a block under leading acquires is the recursive hoist |
| `AsyncPasses.HoistRuns` | src/AsyncProducers.cpp:496-522 | hoisting keeps the sequence of acquires, releases and work |
| `AsyncPasses.LetUnderAcquireRuns` | src/AsyncProducers.cpp:538-549 | moving a let under an acquire that does not use it keeps the run |
| `AsyncPasses.ExpandRuns` | src/AsyncProducers.cpp:493-560 | ExpandAcquireNodes keeps the run of every statement; its termination measure is the node count that it preserves |
| `AsyncPasses.MakeForkRuns` | src/AsyncProducers.cpp:565-587 | pulling lets and realizations out of a fork keeps what the two sides do |
| `AsyncPasses.TightenRuns` | src/AsyncProducers.cpp:562-627 | TightenForkNodes keeps the run of every statement |
| `AsyncScopes.ForkIsScoped` | src/AsyncProducers.cpp:296-351 | in the fork of every plain body each semaphore acquired or released is declared exactly once around its use and outside the fork, exactly the numbered semaphores are declared, and all that touches the function lies in a realization of it that encloses the fork |
| `AsyncScopes.ExpandScoped` | src/AsyncProducers.cpp:493-560 | ExpandAcquireNodes keeps every use in scope and every declaration |
| `AsyncScopes.TightenScoped` | src/AsyncProducers.cpp:562-627 | TightenForkNodes, which drops unused lets and realizations inside forks and pulls others out, keeps every use in scope and every semaphore declared |
| `AsyncScopes.PassesAreScoped` | src/AsyncProducers.cpp:629-641 | all of this holds of the result of the three passes |
| `AsyncTidy.ExpandExpands` | src/AsyncProducers.cpp:493-560 | after ExpandAcquireNodes no block, realization or produce or consume node starts with an acquire, and a let directly over an acquire is one it needs |
| `AsyncTidy.TightenTightens` | src/AsyncProducers.cpp:562-627 | after TightenForkNodes both sides of every fork have something to do and start with nothing that only one of them uses, and what is opened inside a fork is used |
| `AsyncTidy.MakeForkUses` | src/AsyncProducers.cpp:565-587 | make_fork keeps exactly the names that the two sides use |
| `AsyncWhole.ForkedRuns` | src/AsyncProducers.cpp:493-641 | fork, ExpandAcquireNodes and TightenForkNodes together: the result runs, side by side, the two shares of the sequential run without the marks of node borders, under one declaration of each semaphore; beside it the two exact conditions of the fork |
| `CseLets.RemoveLets.Mutate` | src/CSE.cpp:190-219 | the memoised pass with its swapped cache is exact capture-free inlining, whatever was visited before, and leaves the scope as it was |
| `CseLets.RemoveLets.VisitLet` | src/CSE.cpp:203-219 | a let is inlined under a fresh memo; the outer memo and scope are restored |
| `CseLets.InlinedEval` | src/CSE.cpp:190-219 | an inlined expression evaluates as the original does in the environment its scope stands for, shadowing included |
| `CseLets.InlinedLetFree` | src/CSE.cpp:203-219 | no let survives |
| `CseLets.InlinedAvoids` | src/CSE.cpp:190-219 | no variable appears that was not there |
| `CseNumbering.ExtractIff` | src/CSE.cpp:26-68 | worth a let is exactly what is neither constant nor a variable and, unless everything is lifted, is under all its casts and broadcasts more than a leaf and more than one step from one operand |
| `CseNumbering.EqualNumbersIffSame` | src/CSE.cpp:101-139 | two numbered expressions have the same value number if and only if they are syntactically equal |
| `CseNumbering.MissIsNovel` | src/CSE.cpp:114-127 | a miss in the use map of an expression's last child means that no entry anywhere has its shape |
| `CseNumbering.GVN.Mutate` | src/CSE.cpp:101-139 | the result is the one entry with the shape of the argument; earlier entries keep their numbers and every entry refers only to earlier ones |
| `CseUses.ComputeUseCounts.Include` | src/CSE.cpp:143-174 | one visit adds exactly the references it stands for, expands each extractable node once, and its lookup never fails |
| `CseUses.CountUses` | src/CSE.cpp:143-174 | each use count is the number of references from the root and from the children of every extractable node inside, each such node once |
| `Cse.Replacer.Mutate` | src/CSE.cpp:176-188 | a reference to a lifted entry becomes its variable and any other entry is rebuilt over such references; the result means the entry once the variables of entries up to it are bound, and needs only those strictly before it when it is rebuilt |
| `Cse.PlanLets` | src/CSE.cpp:256-269 | a fresh variable is chosen for exactly the entries used more than once, in order of their numbers |
| `Cse.WrapLets` | src/CSE.cpp:277-285 | wrapping outwards with the replacement erased gives a chain of lets, each value over earlier names only, that means the original; each let binds its entry, and no lifted entry is computed anywhere else |
| `Cse.SharedAreLifted` | src/CSE.cpp:143-174 | the lifted entries are exactly the extractable expressions of the shared graph referred to at least twice |
| `CseSharing.ExpandsBack` | src/CSE.cpp:176-188 | reading the variables of a replaced expression as their entries gives back the expression |
| `CseSharing.ReplacedNoCopy` | src/CSE.cpp:176-188 | inside a replaced expression whatever stands for a lifted entry is the variable of that entry |
| `Cse.CommonSubexpressionElimination` | src/CSE.cpp:237-291 | for every expression, environment and meaning of the operators the result has the value of the input; its lets use only earlier lets and stand for exactly the shared extractable expressions, and whatever stands for one of these, in the body or in a value, is its variable |
| `Intervals.ExtremeMeans` | src/Interval.cpp:16-77 | whichever of its rewrites applies, the eager minimum or maximum has the value of the minimum or maximum |
| `BoundsArith.AddSound` | src/Bounds.cpp:329-367 | the interval of a sum holds the wrapped sum, for 32-bit and wrapping types, unless a narrow sum is half-bounded |
| `BoundsArith.SubSound` | src/Bounds.cpp:369-414 | the same for differences, with the unsigned underflow test |
| `BoundsArith.ExtremeSound` | src/Bounds.cpp:581-612 | the intervals of min and max, with infinite ends on either side |
| `BoundsMulDiv.MulSound` | src/Bounds.cpp:416-484 | the interval of a product, scaled by a constant of known or unknown sign or from the four corners |
| `BoundsDivMod.DivSound` | src/Bounds.cpp:486-538 | the interval of a Euclidean quotient, by one value or by a divisor of one sign |
| `BoundsDivMod.ModSound` | src/Bounds.cpp:540-579 | the interval of a remainder, including the magnitude of the least value of a narrow type |
| `BoundsLogic.CompareSound` | src/Bounds.cpp:614-659 | the ends of a comparison are a sufficient and a necessary condition |
| `BoundsLogic.EqualSound` | src/Bounds.cpp:661-706 | equality needs overlapping ranges; apart ranges imply inequality |
| `BoundsLogic.ConjSound` | src/Bounds.cpp:708-759 | and, or with their folding of constants |
| `BoundsLogic.NotSound` | src/Bounds.cpp:763-782 | not exchanges the two conditions |
| `BoundsLogic.SelectSound` | src/Bounds.cpp:784-866 | whichever value a select takes lies in the interval, for every combination of known and unknown conditions and shared ends under a fresh name |
| `BoundsCast.CastSound` | src/Bounds.cpp:189-289 | the interval of a cast, widening, narrowing with constants that fit, or falling back to the type |
| `BoundsCast.VarSound` | src/Bounds.cpp:291-327 | a variable in symbolic and in constant mode |
| `BoundsCast.LetSound` | src/Bounds.cpp:1194-1260 | the body's bounds wrapped in lets for the value's bounds mean what they meant inside, unless a name is captured |
| `Bounds.Enter` | src/Bounds.cpp:1227-1230 | inside a let its variable lies in the interval recorded for it and every other variable still agrees with the scope |
| `Bounds.BoundsSound` | src/Bounds.cpp:174-866 | for every expression and every environment inside the scope the value lies in the returned interval, in both modes and for every depth of re-analysis, where no failing rule is used |
| `BoundsTight.RuleIsTight` | src/Bounds.cpp:329-612 | for every type, over bounded non-empty operands: each end of the interval of a sum, difference, product, minimum, maximum or quotient by a positive literal is the result of the operation on values of the operands, unless a narrow type could not be shown not to wrap |
| `BoundsTight.ModTightIff` | src/Bounds.cpp:540-579 | the ends of a remainder by a positive literal are reached if and only if the range holds a multiple, or a number just before one |
| `BoundsTight.CmpCorners` | src/Bounds.cpp:614-659 | each end of an order comparison is its outcome on ends of the operands |
| `BoundsTight.EqualTightIff` | src/Bounds.cpp:661-706 | of an equality or inequality the end that tells overlapping from apart ranges is always reached, the other one if and only if the ranges are not one and the same number |
| `BoundsAttained.BoundsTightFor` | src/Bounds.cpp:174-866 | for every expression over 32- and 64-bit integers in which each scoped variable occurs at most once, in symbolic and in constant mode: the interval is bounded and each end is the value of the expression in some environment inside the scope |
| `BoundsAttained.Merged` | src/Bounds.cpp:174-866 | values of two expressions without common scoped variables are reached together |
| `BoundsFound.ConstantBoundsFound` | src/Bounds.cpp:62-73 | over a scope of constants, with a simplifier that folds what mentions no variable, both constant ends of an arithmetic expression are found and both are values of it |
| `BoundsVisitor.Visitor.Visit` | src/Bounds.cpp:76-327 | the visitor leaves the interval of the expression in its field and restores scope and mode |
| `BoundsVisitor.FindConstantBounds` | src/Bounds.cpp:62-73 | both ends are constants or missing and hold the value in every environment inside the scope; where each scoped variable occurs once, every end is a value, and over constants both are found |
| `BoundsLimits.ModLowerOnlyIff` | src/Bounds.cpp:546-549 | the interval returned for a divisor with only a lower end is right if and only if that end is not positive |
| `BoundsLimits.ModUpperOnlyNever` | src/Bounds.cpp:546-549 | with only an upper end it is never right |
| `BoundsLimits.DivByMinusOneIff` | src/Bounds.cpp:497-509 | a narrow signed range divided by -1 is bounded rightly if and only if the least value of the type is not in it, or alone |
| `BoundsLimits.ShiftOneEndIff` | src/Bounds.cpp:341-414 | a narrow range with one end, plus or minus a constant, is bounded rightly if and only if the constant moves it away from the limit of its open side |
| `BoundsLimits.TakenOneEndIff` | src/Bounds.cpp:369-414 | a constant minus a narrow range with one end is bounded rightly if and only if the limit of the open side does not wrap |
| `BoundsSigns.ScaleSignIff` | src/Bounds.cpp:435-450 | a range scaled by a constant under casts is bounded rightly if and only if the sign seen under the casts is not opposite to that of the value |
| `BoundsSigns.QuotientSignIff` | src/Bounds.cpp:497-509 | the same for a quotient, unless it does not vary over the range |
| `BoundsSigns.RemainderSignIff` | src/Bounds.cpp:540-579 | a remainder by a constant under casts is bounded rightly if and only if a constant seen as positive is positive |
| `BoundsSigns.CastSignEscapes` | src/Bounds.cpp:435-450 | 200 cast to 8 bits is read as positive and breaks all three |
| `BoundsLimits.ShadowedLetEscapes` | src/Bounds.cpp:1234-1243 | a let that shadows a scoped variable reports a lower bound above its value |
| `BoundsCapture.WrapRightIff` | src/Bounds.cpp:1234-1253 | the lets around a bound mean what its names meant inside if and only if defining the name of the upper bound leaves the lower bound alone |
| `BoundsCapture.CapturedBodyIff` | src/Bounds.cpp:1194-1260 | for any value and any arithmetic body: a let is bounded rightly if and only if giving x.min and x.max the bounds of the value leaves the value of the body alone |
| `BoundsCapture.CapturedNamesIff` | src/Bounds.cpp:1234-1253 | every body keeps its value under the lets if and only if x.min and x.max already have the values the lets give them |
| `BoundsCapture.ReadsItsNameIff` | src/Bounds.cpp:1234-1253 | let x = p in x.min is bounded rightly if and only if p has the value of x.min |
| `BoundsCapture.CapturedScopeIff` | src/Bounds.cpp:1234-1253 | a variable whose bounds read x.min or x.max stays inside under a let of x if and only if its interval, read with the names as the let defines them, includes the interval itself |
| `BoundsCapture.NestedLetIsSafe` | src/Bounds.cpp:1194-1260 | a let that reuses the name of an enclosing one is analysed safely |
| `BoundsLimits.ReanalysedIff` | src/Bounds.cpp:217-249 | a narrowing cast that finds constants for outer bounds in the inner scope is right if and only if they span the type or the outer range wraps into them |
| `BoundsLimits.ReanalysedCastEscapes` | src/Bounds.cpp:217-249 | outer names 300 and 301, ranges [0, 10] inside: the cast to 8 bits leaves the bounds found |
| `WideClass.WideIsSafe` | src/Bounds.cpp:174-866 | every expression over 32- and 64-bit integers with + - * min max, division and modulus by positive constants, widening casts and selects is analysed safely, and in a bounded scope its interval is bounded |
| `Boxes.MergeBoxes` | src/Bounds.cpp:1345-1415 | the loop over the dimensions of the first box computes the merged box |
| `Boxes.MergeCovers` | src/Bounds.cpp:1345-1415 | merging loses no point of either box |
| `Boxes.MergeIsExact` | src/Bounds.cpp:1345-1415 | the merged box is in use exactly when one of the two is, and its ends are the extreme ends of exactly the boxes in use |
| `RegionSteps.ForCatches` | src/Bounds.cpp:2200-2227 | a box right for every iteration inside the loop interval is right for the loop |
| `RegionSteps.LetCatches` | src/Bounds.cpp:1802-1873 | a box right for the body in the extended scope is right for the let, which may reuse any name |
| `RegionSteps.NamedLetCatches` | src/Bounds.cpp:1856-1912 | large bounds passed under fresh names and wrapped around the box afterwards mean the same |
| `RegionSteps.TrimLetCatches` | src/Bounds.cpp:1956-2018 | a current let that depends on a narrowed variable is narrowed under fresh names, met with its old bounds, and the box re-wrapped |
| `RegionSteps.IfCatches` | src/Bounds.cpp:2039-2152 | each branch may be analysed under what its solved condition implies for the scoped variables |
| `RegionSteps.ParamIfCatches` | src/Bounds.cpp:2153-2198 | a condition over parameters makes each branch's box conditional, and the one that runs is in use |
| `RegionTight.TrimmedIff` | src/Bounds.cpp:2122-2139 | trimming an interval by a solved comparison with one value keeps exactly the values that meet the comparison |
| `RegionTight.WalkTight` | src/Bounds.cpp:1607-2227 | on a nest of loops over outer bounds and of solved conditions each end of the box is the end it had before or a coordinate of a point that some run touches |
| `BoxesTouched.Visitor.Visit` | src/Bounds.cpp:1607-1640 | after the visit of a safe statement the box covers every point it touches and all it covered before, nothing has failed, and scope and binders are restored; without lets the box is the specified walk |
| `BoxesTouched.Visitor.NarrowLets` | src/Bounds.cpp:1956-2017 | pushing and popping the lets that depend on a narrowed variable, as found through the instances of reused names, keeps the box right |
| `BoxesTouched.FindBox` | src/Bounds.cpp:2260-2275 | on every safe statement the analysis succeeds, every point any run touches lies in the returned box, and the condition of the box holds then; on rectangular nests each end of the box is a coordinate of a touched point |
| `PlainRegions.PlainStatementIsSafe` | src/Bounds.cpp:1607-2275 | every statement over 32-bit integers with bounded scopes whose binders do not reuse a name read around them is safe |
| `RegionLimits.NamedLetRightIff` | src/Bounds.cpp:1865-1873 | the box of a let whose bounds are passed by name is right if and only if both bounds are finite |
| `RegionLimits.LargeMinimumEscapes` | src/Bounds.cpp:1865-1912 | the minimum of a sum of ten or more parameters and an unbounded variable: its box misses a point |
| `RegionLimits.NarrowedLetRightIff` | src/Bounds.cpp:1973-2017 | the box of a current let narrowed along is right if and only if its old and new bounds are all finite |
| `RegionLimits.InfiniteDependentEscapes` | src/Bounds.cpp:1956-2017 | a let without a lower bound under a narrowing if: its box misses a point |
| `RegionLimits.StaleDependents` | src/Bounds.cpp:1840-1858 | a let whose value reads a name bound again since is still narrowed along |
| `RegionLimits.StaleLetRightIff` | src/Bounds.cpp:1956-2017 | for every pair of constants and every narrowed range, the box of such a let is right if and only if the name bound again kept its value |
| `SmallAllocations.MakeTotalExtent` | src/BoundSmallAllocations.cpp:66-69 | the loop over the extents builds their 64-bit product |
| `SmallAllocations.LoopSuffices` | src/BoundSmallAllocations.cpp:54-64 | the loop variable lies in the union of the constant bounds of its first and last value, so the rewritten loop allocates enough |
| `SmallAllocations.AllocSuffices` | src/BoundSmallAllocations.cpp:66-105 | a resized allocation is at least as large as the original, a dead one had non-positive size |
| `AllocationPass.BoundedSuffices` | src/BoundSmallAllocations.cpp:10-107 | a safe program that is accepted makes the same allocations in the same order, each large enough, in every environment |
| `AllocationPass.RejectedIff` | src/BoundSmallAllocations.cpp:71-100 | a program is rejected if and only if some allocation has no bound where one is needed, or one that is negative or too large where the size becomes a constant |
| `AllocationPass.ThreadLocalIsFixed` | src/BoundSmallAllocations.cpp:66-105 | in an accepted program register and thread-local allocations have literal sizes |
| `AllocationPass.BoundedChooses` | src/BoundSmallAllocations.cpp:82-105 | exactly the sizes that are thread-local, in registers, at most 16K elements on the stack or 128 bytes otherwise become their bounds; those bounded by zero become dead unless a custom allocator is used, all others stay |
| `AllocationSizes.LoopBoundsTight` | src/BoundSmallAllocations.cpp:54-64 | over loops and lets of arithmetic on constants and enclosing variables the ends of the interval of a loop are values of its first or its last iteration |
| `AllocationSizes.TameIsSized` | src/BoundSmallAllocations.cpp:66-105 | every allocation of such a program gets a constant bound, and it is the size for some values of the variables |
| `AllocationPass.PlainIsSafe` | src/BoundSmallAllocations.cpp:10-107 | every program over the wide class of expressions is safe |
| `AllocationPass.Pass.Mutate` | src/BoundSmallAllocations.cpp:10-107 | the pass computes the specified rewrite or error and restores its scope and flag |
| `AllocationPass.BoundSmallAllocations` | src/BoundSmallAllocations.cpp:109-112 | the four together for a whole program |
| `Grouping.BestTileIsAnalyzed` | src/AutoSchedule.cpp:1580-1627 | the analysis returned is that of the tile sizes returned, and tiling is never worse than not tiling |
| `Grouping.BestTileIsBest` | src/AutoSchedule.cpp:1580-1627 | no usable tiling of the list is cheaper than the one returned, which is a usable tiling of the list that is cheaper than none, or none |
| `Grouping.MergedIsAsEvaluated` | src/AutoSchedule.cpp:2056-2145 | merging a choice yields exactly the group that its evaluation analysed |
| `Grouping.StepKeepsStructure` | src/AutoSchedule.cpp:1629-1752 | children of live stages are live, and the last stage of a live function has as children exactly the live stages of other functions whose group calls it in the pipeline; stages of a function live or die together, outputs stay live, every stage is a member of a live group, inlined names are dead |
| `Grouping.StepKeepsEdge` | src/AutoSchedule.cpp:1722-1741 | contracting a function leaves exactly the edges that the calls of the remaining groups ask for |
| `Grouping.CandidateIff` | src/AutoSchedule.cpp:1643-1690 | a function is a candidate if and only if it is live, no output and used, by exactly one function for fast memory, and pure for inlining |
| `Grouping.StepKeepsPurity` | src/AutoSchedule.cpp:1629-1752 | only pure functions are ever inlined |
| `Grouping.StepKeepsLedger` | src/AutoSchedule.cpp:2056-2088 | the ledger has the keys of the groups and holds the true analysis of every group |
| `Grouping.StepKeepsCache` | src/AutoSchedule.cpp:1706-1721 | every cache entry whose producer and consumer are live equals a fresh evaluation on the current groups |
| `Grouping.StepKeepsInv` | src/AutoSchedule.cpp:1629-1752 | all of these together survive every contraction at either level |
| `Grouping.StepCost` | src/AutoSchedule.cpp:2171-2222 | a contraction lowers the total pipeline cost by exactly the estimated benefit |
| `Grouping.StepShrinks` | src/AutoSchedule.cpp:1722-1740 | a contraction removes groups and adds none |
| `Partitioning.Partitioner.constructor` | src/AutoSchedule.cpp:1302-1358 | the initial groups and the use graph satisfy the structural invariant |
| `Partitioning.Partitioner.InitializeGroups` | src/AutoSchedule.cpp:1360-1367 | every group gets its best tiling and the ledger opens with its analysis |
| `Partitioning.Partitioner.EvaluateChoice` | src/AutoSchedule.cpp:2090-2145 | the configuration is the evaluation of the choice on the current groups |
| `Partitioning.Partitioner.EstimateBenefit` | src/AutoSchedule.cpp:2171-2222 | the estimated benefit is the cost of the groups replaced minus that of the groups replacing them, or undefined |
| `Partitioning.Partitioner.GetPipelineCost` | src/AutoSchedule.cpp:1249-1263 | the sum of the ledger, undefined if an entry is |
| `Partitioning.Partitioner.ChooseCandidateGrouping` | src/AutoSchedule.cpp:1413-1463 | the cached search returns the grouping of the first candidate of greatest positive benefit, as the uncached one would, or none when there is none |
| `Partitioning.Partitioner.MergeGroups` | src/AutoSchedule.cpp:2056-2088 | the consumer's group and ledger entry become the merged ones and nothing else changes |
| `Partitioning.Partitioner.InvalidateCache` | src/AutoSchedule.cpp:1706-1721 | exactly the entries that involve a changing group are dropped |
| `Partitioning.Partitioner.GroupOnce` | src/AutoSchedule.cpp:1629-1752 | a round keeps the invariant, and either no candidate gains or the total cost falls by the positive gain and groups are removed |
| `Partitioning.Partitioner.RunGrouping` | src/AutoSchedule.cpp:1629-1752 | the loop ends within the initial number of groups, never raises the cost, and stops where no candidate gains |
| `Partitioning.Partitioner.Partition` | src/AutoSchedule.cpp:3487-3501 | the two levels in turn, with the cache cleared between them |
| `Dependence.SweepCloses` | src/AutoSchedule.cpp:387-556 | one reverse sweep empties the queue and drops nothing; the result is closed under "required by", each stage traversed with bounds that already include every demand on it |
| `DependenceExact.DemandsReachArguments` | src/AutoSchedule.cpp:292-344 | each stage of a function that is followed is traversed with bounds that include those of the demand, the range of every argument being the one at its position |
| `DependenceExact.SweepIsLeast` | src/AutoSchedule.cpp:387-556 | the regions reported and the bounds traversed are the least that hold all demands |
| `Dependence.ProcessStep` | src/AutoSchedule.cpp:405-523 | traversing a stage keeps the sweep invariant: nothing queued behind it, nothing visited ahead of it, all demands taken up |
| `Dependence.QueueStagesStep` | src/AutoSchedule.cpp:292-344 | queueing a function joins the demand into every one of its stages without dropping it |
| `DependenceAnalysis.SweepIsRequired` | src/AutoSchedule.cpp:349-383 | every stage traversed and every region reported is demanded by a traversed stage |
| `DependenceAnalysis.Analysis.RegionsRequired` | src/AutoSchedule.cpp:387-589 | the loops compute the sweep in one round; the answer is the remembered one for the question, or else the computed one, which is remembered |
| `DependenceAnalysis.AnswersFirst` | src/AutoSchedule.cpp:396-409 | in every run of queries each answer is the one computed under the estimates of the first query that asked the same |
| `DependenceAnalysis.AlwaysRightIff` | src/AutoSchedule.cpp:396-409 | a run of queries is answered rightly for every pipeline that has the stages asked about if and only if every question asked again is asked under the same estimates |
| `DependenceAnalysis.FixedEstimatesAreRight` | src/AutoSchedule.cpp:396-409 | under fixed estimates the memo table returns what recomputation would, in every run and for every pipeline |
| `DependenceAnalysis.RunRightIff` | src/AutoSchedule.cpp:396-409 | for one pipeline, a run is answered rightly if and only if no question has another answer when it is asked again |
| `DependenceAnalysis.EstimatesAgree` | src/AutoSchedule.cpp:405-523 | two estimates give the same answer if every stage traversed needs the same under both; they matter only through what stages need |
| `DependenceAnalysis.AskTwice` | src/AutoSchedule.cpp:3451-3462 | a second query under other estimates, as may follow the shadowed costs, returns the first answer |
| `DependenceAnalysis.StaleMemo` | src/AutoSchedule.cpp:396-409 | for any question and any two different estimates, some pipeline gets a wrong second answer |
| `Splits.Splitter.ApplySplit` | src/ApplySplit.cpp:12-128 | the divisibility map is updated in place and the definitions collected as specified |
| `Splits.ChainKeepsAligned` | src/ApplySplit.cpp:24-156 | along any chain of splits, fuses and renames with new names each entry divides the extent of its dimension |
| `SplitKnowledge.SplitKnowsAll` | src/ApplySplit.cpp:32-49 | after a split the map knows that a factor divides the outer extent if and only if it does for every old extent that the map allowed; of the inner extent it knows the extent |
| `SplitKnowledge.FuseKnowsAll` | src/ApplySplit.cpp:92-120 | after a fuse of two known extents it knows what follows for all extents it allowed |
| `SplitKnowledge.FuseForgets` | src/ApplySplit.cpp:92-120 | with only one of the two known, the fused extent is still a multiple of it, and that is lost |
| `Splits.SplitMeans` | src/ApplySplit.cpp:24-90 | the collected definitions give the split variable base plus inner, under the guard |
| `Splits.FuseMeans` | src/ApplySplit.cpp:92-120 | the definitions of a fuse take the fused variable apart into row and column |
| `Splits.RejectedIff` | src/ApplySplit.cpp:38-49 | a factor that is not positive is rejected exactly when it is not known to divide the old extent |
| `Splits.NegativeFactorPasses` | src/ApplySplit.cpp:38-49 | a negative divisor of a known alignment is accepted |
| `SplitRuns.NegativeFactorRunsNothing` | src/ApplySplit.cpp:38-49 | an accepted factor that is not positive is negative, and its loop nest runs no iteration at all |
| `SplitRuns.ExactRun` | src/ApplySplit.cpp:38-49 | a split by a known divisor or by one runs the original iterations once and in order |
| `SplitRuns.GuardedRun` | src/ApplySplit.cpp:50-71 | GuardWithIf runs the original iterations once and in order, for any extent and body |
| `SplitRuns.RoundedRun` | src/ApplySplit.cpp:82-90 | RoundUp runs the extent rounded up, overshooting by less than the factor |
| `SplitRuns.ShiftedVisits` | src/ApplySplit.cpp:72-81 | ShiftInwards visits each point once or twice and nothing else, for extents of at least the factor |
| `SplitRuns.ShiftedInRangeIff` | src/ApplySplit.cpp:72-81 | ShiftInwards stays in range if and only if the range is empty or at least as long as the factor |
| `SplitRuns.FusedRun` | src/ApplySplit.cpp:92-120 | a fused loop runs the iterations of the two loops once and in order |
| `SplitRuns.FusedAtMeans` | src/ApplySplit.cpp:92-120 | the body of the fused loop runs at the values the collected definitions give |
| `SplitRuns.FusedNegative` | src/ApplySplit.cpp:149-156 | two negative extents fuse to a loop that runs |
| `SplitRuns.CutsRun` | src/ApplySplit.cpp:130-149 | however often a loop is cut by exact or guarded splits, and the loops of a cut fused and cut again, its iterations run once and in order |
| `SplitRuns.FusedCutsRun` | src/ApplySplit.cpp:92-156 | two loops fused and then cut in any such way run as the nest they were |
| `SplitPlans.PlannedRun` | src/ApplySplit.cpp:12-156 | any chain of guarded splits and fuses of one loop, each split done as the divisibility map built up so far decides, runs the iterations once and in order |
| `SplitPlans.PlannedFuseRun` | src/ApplySplit.cpp:12-156 | the same for two loops that are fused first |
| `WindowsMangle.PreviousDeclarations.CheckAndEnterName` | src/CPlusPlusMangle.cpp:45-79 | a name is its index in the table if it is there, else itself, entered while there is room |
| `WindowsMangle.PreviousDeclarations.MangleType` | src/CPlusPlusMangle.cpp:192-227 | a type's names are entered before it is known whether the type is a back reference |
| `WindowsMangle.MangleFunction` | src/CPlusPlusMangle.cpp:274-307 | the names and types of the signature are looked up and entered in order |
| `WindowsMangle.FullInjective` | src/CPlusPlusMangle.cpp:192-227 | two types have the same uncompressed form if and only if they are the same |
| `WindowsMangle.ScanReads` | src/CPlusPlusMangle.cpp:50-66 | the characters of a list of names and references determine it and its end |
| `WindowsMangle.RoundTrip` | src/CPlusPlusMangle.cpp:274-307 | a decoder replaying the two ten-entry tables recovers every name and the uncompressed form of every type |
| `WindowsTables.SignatureIsWritten` | src/CPlusPlusMangle.cpp:45-79 | each name and each type is a back reference if and only if it is among the first ten different ones before it, and names that position |
| `WindowsText.ReadReads` | src/CPlusPlusMangle.cpp:274-307 | the characters of a mangled name determine where each qualifier, code, name and back reference begins and ends |
| `WindowsText.TextRoundTrip` | src/CPlusPlusMangle.cpp:274-307 | from the mangled string alone every name and the uncompressed form of every type are recovered |
| `WindowsText.MangledNameIff` | src/CPlusPlusMangle.cpp:274-307 | two signatures have the same mangled string if and only if they are the same |
| `WindowsText.MangledName` | src/CPlusPlusMangle.cpp:274-307 | the string is put together as specified and decodes to the signature |
| `WindowsTypes.QualsState.HandleModifier` | src/CPlusPlusMangle.cpp:140-163 | each modifier extends the qualifiers of the pointers seen so far |
| `WindowsTypes.MangleQuals` | src/CPlusPlusMangle.cpp:182-190 | the qualifiers list the reference and then the pointers from the outermost in, each with what it points to, and can be told from what follows |
| `WindowsTypes.SameSpellingIff` | src/CPlusPlusMangle.cpp:113-190 | two modifier lists have the same qualifiers if and only if they have the same letters at every level |
| `WindowsTypes.NameOfSpelled` | src/CPlusPlusMangle.cpp:192-272 | every type that has a spelling can be read back |
| `WindowsTypes.MangleSignature` | src/CPlusPlusMangle.cpp:274-307 | an error exactly when some type has no spelling, otherwise a string that decodes to the names and types |
| `ItaniumMangle.MakeBase36` | src/CPlusPlusMangle.cpp:376-387 | the digit loop makes the base-36 numeral |
| `ItaniumMangle.SubTextSplit` | src/CPlusPlusMangle.cpp:370-390 | sequence ids decode uniquely, whatever follows them |
| `ItaniumMangle.KeyInjective` | src/CPlusPlusMangle.cpp:392-416 | two components have the same key if and only if they are structurally equal |
| `ItaniumMangle.PrevPrefixes.CheckAndEnter` | src/CPlusPlusMangle.cpp:368-390 | a component gets an earlier one's substitution exactly when it is structurally equal, and its own part is an earlier component |
| `ItaniumMangle.MangleType` | src/CPlusPlusMangle.cpp:418-505 | all components of a type are entered in turn and its substitution stands for its structure |
| `ItaniumMangle.SameSubstitutionIff` | src/CPlusPlusMangle.cpp:368-416 | in one run two types have the same substitution if and only if they are structurally equal |
| `AlignLoads.RankFalls` | src/AlignLoads.cpp:82-136 | every load made has a lower rank, although one step doubles the lanes |
| `AlignLoads.Visit` | src/AlignLoads.cpp:45-139 | the recursive visit with its loop over slices computes the rewrite |
| `AlignLoads.RewriteReads` | src/AlignLoads.cpp:36-139 | for every memory the rewritten load yields the lanes of the original |
| `AlignLoads.RewriteRightIff` | src/AlignLoads.cpp:73-136 | the rewrite of a vector load is right if and only if the computed offset is not negative |
| `AlignLoads.ConstantBaseBelowZero` | src/AlignLoads.cpp:127-136 | a load at the constant -1 asks for a lane before the first |
| `AlignLoads.RewriteLeaves` | src/AlignLoads.cpp:82-139 | every vector load left is dense, of native width and, if its alignment is known, aligned |
| `AlignLoads.DenseIsAligned` | src/AlignLoads.cpp:82-104 | a strided load that starts less than a stride after an aligned lane is read densely from that lane on |
| `Conv.Tap` | ai_scripts/xhalide_generated.cc:188-203 | one coefficient uses only loaded lanes and leaves the registers as the next one expects |
| `Conv.Accumulate` | ai_scripts/xhalide_generated.cc:186-455 | the eight accumulators hold the sums of eight neighbouring outputs, and how far the vector loads reach |
| `Conv.NaiveIsDot` | ai_scripts/naive.cc:16-28 | the three naive loops visit the taps in the kernel's order |
| `ConvOutput.Output.Store8` | ai_scripts/xhalide_generated.cc:456-458 | a vector store writes eight words never written before |
| `ConvOutput.Output.Convolve` | ai_scripts/xhalide_generated.cc:53-463 | every output is stored exactly once, with the rounded sum, and the loads reach exactly as far as Farthest: they stay inside buffers if and only if these are at least that large |
| `ConvOutput.LoadsOverreach` | ai_scripts/xhalide_generated.cc:448-455 | buffers hold every word that enters a sum if and only if they are as large as Used; the loads reach six words of input and four of the filters farther |
| `ConvOutput.ConvolveNaive` | ai_scripts/naive.cc:9-36 | the naive loops leave the shifted sum at every output |
| `ConvOutput.IndexSurjective` | ai_scripts/naive.cc:30-34 | every word of the output belongs to a coordinate |
| `ConvOutput.ConvolveBoth` | ai_scripts/naive.cc:9-36 | run on the same data, the two convolutions leave arrays that differ by at most one at every word, and not at all if the shift rounds down |
| `AssociativeOps.ChunkedReduction` | src/AssociativeOpsTable.cpp:135-204 | for an associative operator with a left identity, reducing any split into non-empty chunks and combining in order is the sequential reduction |
| `AssociativeOps.SingleReducible` | src/AssociativeOpsTable.cpp:135-155 | wrapping add and multiply, min, max, and, or have their row, which computes them, and qualify |
| `AssociativeOps.DoubleReducible` | src/AssociativeOpsTable.cpp:166-194 | the running sum, argmin, argmax and both forms of complex multiplication have their rows, which compute them, and qualify over wrapping integers |
| `AssociativeOps.TableRowsReduceInChunks` | src/AssociativeOpsTable.cpp:275-301 | so does every row modelled |
| `AssociativeOps.Tables.GetOpsTable` | src/AssociativeOpsTable.cpp:275-301 | the lazily filled tables always return the rows of the key |

## Left out

- Async: nested async functions, CloneAcquire, folding semaphores, failure propagation, parallel loops, InitializeSemaphores and TightenProducerConsumerNodes; storage semaphores of folded realizations.
- AsyncLockstep.LockstepForkSeesSequentialValues: asks that produce and consume nodes hang off one block; every other accepted body is settled by AsyncValues.ForkIsRightIff.
- CSE: the pass over every expression of a statement; operators with side effects; structural comparison caches, which only save time.
- Bounds.BoundsSound: the guards of `Bounds.Safe` are sufficient; each is necessary for its rule as `BoundsLimits`, `BoundsSigns` and `BoundsCapture` say, but a wrong interval of a part need not make the whole wrong.
- BoundsAttained.BoundsTightFor: lets, remainders, equalities and narrow types, whose ends need not be reached; `BoundsTight.ModTightIff` and `BoundsTight.EqualTightIff` say when those of one operation are.
- RegionTight.WalkTight: loops whose bounds depend on enclosing loops, conditions over parameters, and lets, for which only covering is stated.
- BoundsCast.VarSound: parameters with declared ranges.
- Bounds: shifts, bitwise intrinsics, floats, calls, loads, shuffles, vectors, 32-bit unsigned types; pointer equality of bounds is modelled as structural equality.
- BoundsLogic.ConjSound: an infinite end of a boolean interval, which the source would combine as an expression of the wrong type, stays infinite.
- BoxesTouched.FindBox: one function at a time, touches as statements rather than calls inside expressions, loops without `.loop_min` and `.loop_max` bindings; the simplifier is required to keep values under total division, because boxes of code that does not run are merged too.
- RegionLimits.InfiniteDependentEscapes: stands at the binders and scope where the statement in its comment is narrowed, not at the statement itself; so does RegionLimits.StaleLetRightIff.
- RegionSteps.TrimLetCatches: that a let be current is sufficient; it is necessary where binding the name again changes the value read, as `RegionLimits.StaleLetRightIff` says for sums, and not otherwise.
- AllocationPass: lets are visited recursively instead of in a chain of frames, which saves stack only.
- Grouping: tile size lists, reuse analysis, schedule generation, and the numbers of the cost model.
- Dependence: extern stages and image inputs appear only as the demands they make.
- SplitPlans.PlannedRun: tails other than GuardWithIf, which may run more or repeat iterations.
- Splits: factors are integers rather than expressions; purify.
- WindowsTypes: distinct modifier lists with the same letters (restrict beside const, modifiers after the last) have one spelling, as in the source and `WindowsTypes.SameSpellingIff`, so decoding gives back the spelling and not the list.
- ItaniumMangle.MangleType: the full text of a name (N…E and the texts of parts not yet seen), and a namespace called std inside another one.
- AlignLoads: predicated loads, external images and loads whose index is not a ramp are returned unchanged by the source and are not modelled.
- AsyncWhole.ForkedRuns: the exact conditions are stated for the tasks with the marks of node borders, which take no part in synchronisation.
- Conv: accumulator width, saturation and overflow; sizes with minima other than zero.
- AssociativeOps.TableRowsReduceInChunks: the cast and select rows, which are not associative as written, floating-point rows, and the commutativity flags.
- AssociativeOps.Tables.GetOpsTable: the same rows.
- CodeGen, buffers, arguments, boundary conditions, closures, bounds inference of whole pipelines and the device scripts.
