# Verified model of the C++ context engine's analysis core

This project models the parts of the engine whose claims no test can settle, and proves what they
promise for all inputs, all paths, all runs:

1. the interprocedural summary solver (call graph, Tarjan, component iteration, early release);
2. the intraprocedural data-flow solver of the native analyzer (reaching definitions, points-to sets,
   sweeps, replay);
3. the bounded analysis pipeline (coordinator, workers, ordered consumer, budgets, telemetry, idle gate);
4. the wire protocol pairs (split symbol text, compact structural keys);
5. the bounded nearest-first closure of translation units.

Code that changes state step by step is modelled by classes and loops, each proved against a
specification function or predicate; the lemmas then say what that specification means.

## Files

| files | what |
|---|---|
| `Graphs`, `Options` | reachability, strongly connected sets, sorting; the optional value |
| `Tarjan` | the component search, as a class that keeps index, stack and low maps |
| `Summaries`, `Transfer`, `TransferMeaning` | call edges, propagation of one fact, one transfer of one body |
| `Chains`, `Solver`, `SolverTheorems`, `ReturnOrigins`, `DroppedEffect` | provenance of effects and return origins along call chains, component solving, soundness and exactness of `complete` |
| `Convergence`, `Fixpoint`, `ComponentRun`, `FactRank` | growth of identities in a recursive component, and their fixpoint; how many rounds are run; an order of identities |
| `LastWriter` | traversal in digest order: what a cap keeps, and which writer decides a certainty |
| `Flows`, `SolverRun`, `Published`, `OrderFree`, `CertainFlows` | recorded flows; the whole run with and without early release; what it publishes, in whatever order of components; when a flow is certain |
| `DataFlow`, `DataFlowPaths`, `DataFlowSolver` | join, transfer and sweeps; walks; reaching definitions at every sweep and at convergence |
| `PathValues` | what an expression can denote and a location can hold on a run, and what a points-to value allows |
| `PointsToSoundness`, `PossibleTargets` | points-to sets against every run along every path; the replay, call targets, evidence and aliases |
| `SweepUnfolding`, `GraphShapes`, `GraphWitnesses` | the sweeps in closed form; which control-flow graphs converge and which cannot mislead, exactly |
| `UnconvergedLoop`, `RestlessLoop`, `BumpedPointer` | two small functions on which the cap of sweeps is hit, and one with a must-alias that a run contradicts |
| `Registry` | byte and descriptor budgets, fact spools, conservation |
| `Pipeline`, `PipelineSafety`, `PipelineProgress`, `PipelineResources`, `Coordinator` | the scheduler as a step relation; invariants; progress; ownership; the coordinator's code |
| `SpooledPipeline` | the scheduler's steps together with the registries and budgets they open, fill and close |
| `IdleGate`, `PipelineTrace` | the gate against its trace definition; the telemetry of every run |
| `Utf8`, `SymbolText`, `SymbolStream`, `SymbolGrammar`, `SymbolWire` | RFC 3629 boundaries, splitting, reassembly, the grammar of accepted streams, spooling and zipping back |
| `WireKeys`, `WireRoundTrip` | compact keys, aliases, restoration |
| `Closure` | the worklist search |

## Results about the code itself

* The contract "an omitted fact always reduces completeness"
  (src/cpp_context_engine/analysis/interprocedural.py:132) does not hold for an effect that has no
  parameter and is neither global nor field, such as a dereference: it is dropped without a reason.
  `DroppedEffect.OmittedYetComplete` is such a program. `SolverTheorems.CalleeEffectArrivesIff` gives the
  exact condition: in a complete summary a callee's effect arrives if and only if it is parameter-rooted,
  global or field.
* A call target or must-alias published as certain is right on every path when the sweeps converged
  (`PointsToSoundness.CertainCallOnEveryPath`, `MustAliasOnEveryPath`). The replay does not look at convergence, and
  `UnconvergedLoop.CapMissesPath` is a function (a loop, then 63 blocks in a row) on which the cap of 64
  sweeps is hit and the published certain target is not the one a path calls. Definition labels do not
  have this weakness: `DataFlowSolver.CertainMeansEveryPath` needs no convergence.
* Even then "right" leaves one thing open. An increment, a call's result and the object of a method have no expression,
  and their accesses are recorded as complete all the same (native/clang-analyzer/src/main.cpp:1613-1626, 1641-1648,
  1745-1749, 1780). What they leave is `Untold` in the model, and the theorems allow it beside the published target.
  `BumpedPointer.BumpedAlias` is a pointer incremented on one of two ways: at convergence its use is published as a
  must-alias, and on a run it holds what the increment left. Where no such access is recorded as complete (`Candid`),
  nothing is untold (`PointsToSoundness.CandidCalls`).
* Which control-flow graphs are safe can be read off the graph. Call an edge a turn when it runs against the order in
  which blocks are visited. `GraphWitnesses.MisledIff`: some function over a graph gets a wrong certain target from n
  sweeps if and only if the graph is blind, that is, some path enters a block by a turn while another predecessor of
  that block comes earlier in the order, and a walk from there makes n - 1 more turns.
  `GraphWitnesses.SettledIff`: n sweeps settle every function over a graph if and only if no walk makes n turns. So a
  loop-free graph whose ranks stay below 63 is always reported as converged (`GraphShapes.RankedConverges` with
  `DataFlowSolver.Analyze`), and no number of sweeps is enough for the graph of a loop
  (`GraphWitnesses.LoopsAreBlind`). Nor is there one for every single function:
  `RestlessLoop.NeverSettles` is a loop of five blocks whose completeness bits never stop changing.
* At convergence a location that no block of a loop defines is never complete in the loop
  (`DataFlowSolver.LoopNeverComplete`), so a definition that is the only one on every path is still
  labelled possible there. `CompleteExact` says exactly which locations are complete.
* The last resort of the closure search, reporting one omission when entries are left over
  (src/cpp_context_engine/ingestion/deep.py:612-613), is never needed; the method proves that instead.

## Modelling choices

* `_id` and SHA-256 are injective: identities of facts are constructors of their argument tuples, local and
  propagated identities disjoint; digests of symbol text carry their preimage; the digest of compact keys is
  a parameter assumed collision-free only on the definitions of one fact set. The order of digests, which
  decides truncation and emission order, is an arbitrary injective `rank`;
  `FactRank.RankIsInjective` shows that there is one.
* Well-formedness of summaries is what the fact builder enforces
  (src/cpp_context_engine/ingestion/native.py:2250, 2297-2302, 2361-2365): parameter indexes in range, one
  location per mode.
* The data-flow graph is an arbitrary one, its blocks in an arbitrary order (without repetition where a lemma says
  `Distinct`); results about paths are about walks from a block without predecessors. `Typed` says that the
  locations called untracked by an expression are the untracked ones: both come from one test of the declared type
  (native/clang-analyzer/src/main.cpp:1393-1401, 1420, 1957). Agreement is with runs: along a walk each
  location holds one thing, at a conditional one arm is taken, a reference is bound once, and a function without a
  representation in the project may be any other (`PathValues.Denotes`, `Rebinds`, `Puts`). These definitions share
  nothing with the analysis.
* The pipeline's results are symbolic: analysing configuration i gives `Analyze(i)`, converting it
  `Convert(i, ...)`. A step is one action under the scheduler's lock or one change of a worker's future, in any
  interleaving; request failures, cancellation and an abandoning consumer can come at any moment.
* Clock readings are reals; UTF-8 is that of RFC 3629, section 4.

## Model

| member | source | states |
|---|---|---|
| Tarjan.StronglyConnected | src/cpp_context_engine/analysis/interprocedural.py:63-105 | the emitted components contain exactly the nodes reachable from the given ones, are pairwise disjoint, each is a maximal strongly connected set in ascending order, and every edge leads into the same or an earlier component |
| Tarjan.ComponentWalk.Visit | src/cpp_context_engine/analysis/interprocedural.py:75-98 | a visit keeps the search invariant and leaves its node finished, or on the stack with a low link that some stacked node below it justifies |
| Tarjan.ComponentWalk.ScanTarget | src/cpp_context_engine/analysis/interprocedural.py:82-88 | handling one successor, new, stacked or emitted, keeps every fact about the scan and adds the successor to the ones done |
| Tarjan.ComponentWalk.CloseVisit | src/cpp_context_engine/analysis/interprocedural.py:89-98 | closing a node emits its component when it is a root and otherwise leaves it reachable below |
| Tarjan.ComponentWalk.PopComponent | src/cpp_context_engine/analysis/interprocedural.py:89-98 | exactly the stack above and including the root is popped, unmarked and emitted as one component |
| Tarjan.PopIsScc | src/cpp_context_engine/analysis/interprocedural.py:89-98 | when low equals index, what lies on the stack from the root up is a maximal strongly connected set |
| Tarjan.RecursiveIffOnCycle | src/cpp_context_engine/analysis/interprocedural.py:259-262 | a summary is flagged recursive if and only if it lies on a call cycle |
| Tarjan.CrossEdgesPointBack | src/cpp_context_engine/analysis/interprocedural.py:462-464 | a callee's component is never emitted after its caller's, and strictly before it when they differ |
| Summaries.EdgesAreEdges | src/cpp_context_engine/analysis/interprocedural.py:219-258 | the enumerated call edges are exactly those whose site belongs to this very body, whose target belongs to the site and whose callee is one of the bodies that call may enter, marked ambiguous if and only if it may enter two |
| Summaries.BodiesExact | src/cpp_context_engine/analysis/interprocedural.py:233-246 | the bodies a call may enter are those of the symbol in the caller's own unit and configuration, or all of them if there is none there; the call is ambiguous if and only if there are two |
| Summaries.EdgesStayInUnit | src/cpp_context_engine/analysis/interprocedural.py:233-258 | if a target has a body in the caller's own unit and configuration, every edge to it stays there |
| Summaries.CallGraphExact | src/cpp_context_engine/analysis/interprocedural.py:219-258 | the graph searched for components has an edge between two bodies if and only if some call edge leads from one to the other |
| Transfer.Transfer | src/cpp_context_engine/analysis/interprocedural.py:290-364 | the nested loops compute the fold of propagated effects and origins over all call edges, with the reasons and the cap |
| TransferMeaning.FoldValue | src/cpp_context_engine/analysis/interprocedural.py:320-339 | an effect in the result was there before or is what some edge sends from its callee, under its own identity |
| TransferMeaning.FoldKeeps | src/cpp_context_engine/analysis/interprocedural.py:320-339 | nothing that was there, and nothing that an edge sends, is missing from the result |
| TransferMeaning.OriginFoldSourced | src/cpp_context_engine/analysis/interprocedural.py:340-353 | return origins come only from local ones or through edges whose call result is returned, and through those all of them come |
| TransferMeaning.CompleteTransferIff | src/cpp_context_engine/analysis/interprocedural.py:290-364 | a transfer leaves no reason if and only if the body, its sites, target sets, bindings and callees are all complete and the cap is silent |
| TransferMeaning.ReasonsHaveCauses | src/cpp_context_engine/analysis/interprocedural.py:290-364 | each reason is reported if and only if there is cause for it: an open target set or a target without body, an external body, two bodies, a missing or an incomplete binding, an incomplete callee, too large a component, too many effects, or the analyzer said so |
| TransferMeaning.TransferDependsOnCallees | src/cpp_context_engine/analysis/interprocedural.py:290-364 | a transfer reads nothing but the current facts of its callees |
| Chains.ChainImageMeaning | src/cpp_context_engine/analysis/interprocedural.py:583-640 | an effect is carried along a call chain if and only if its storage can be named at each edge; at the head it names the storage that the outermost substituted argument is bound to, or its own global or field storage, with no parameter; kind and access stay, the path is the first eight components of the arguments' paths followed by its own, and it is certain if and only if every target is certain, no body ambiguous and the local effect certain |
| Chains.TransferSourced | src/cpp_context_engine/analysis/interprocedural.py:290-364 | one transfer keeps the property that every effect is the image of a local effect along real call edges |
| LastWriter.TruncateKeepsLeast | src/cpp_context_engine/analysis/interprocedural.py:360-363 | a cap that fires keeps exactly as many effects as it allows, those whose identities have the smallest digests |
| LastWriter.ArrivalDecidesCertainty | src/cpp_context_engine/analysis/interprocedural.py:320-339 | a propagated effect is held before any cap if and only if some edge brings it, and is certain if and only if its last bringer is: the last such edge, and of that callee's effects the one of greatest digest, over a certain target with one body |
| LastWriter.ReturnDecidesCertainty | src/cpp_context_engine/analysis/interprocedural.py:340-357 | the same for a return origin, over the calls whose results are returned |
| Solver.ShortcutIsExact | src/cpp_context_engine/analysis/interprocedural.py:468-524 | for every limit, one included, the shortcut for a non-recursive body gives the facts, reasons and iteration count of the general loop |
| Solver.ComponentSettles | src/cpp_context_engine/analysis/interprocedural.py:468-524 | after a component is solved each member is a fixpoint of transfer or carries a reason for not being one, and nothing outside the component changed |
| Solver.RunSettles | src/cpp_context_engine/analysis/interprocedural.py:464-566 | that stays true of every earlier component for the rest of the run |
| ComponentRun.SolvedExactly | src/cpp_context_engine/analysis/interprocedural.py:492-524 | the members of a component get the facts of the first round that changes nothing, or of the last one allowed, which is the first for a component over the size limit; only if that round still changed something and the component is not too large, the mark of the iteration limit is added |
| SolverTheorems.NoInventedEffects | src/cpp_context_engine/analysis/interprocedural.py:464-545 | after any number of components every effect of every summary is the image of a real local effect along real call edges |
| SolverTheorems.JacobiSourced | src/cpp_context_engine/analysis/interprocedural.py:499-521 | the same at every iteration inside a component |
| SolverTheorems.EffectProvenance | src/cpp_context_engine/analysis/interprocedural.py:219-244 | the chain and the local effect behind an effect held at any point of a run can be named, and its storage, parameter, location, path, identity, kind, access and certainty are those said of the chain |
| SolverTheorems.CompleteCalls | src/cpp_context_engine/analysis/interprocedural.py:290-364 | a complete summary has complete target sets, one body for every target, complete bindings and complete callees, and no effect was cut |
| SolverTheorems.CompletenessIsSound | src/cpp_context_engine/analysis/interprocedural.py:526-545 | completeness holds of everything reachable over call edges, over converged, capped, oversized and truncated components |
| SolverTheorems.CalleeEffectArrivesIff | src/cpp_context_engine/analysis/interprocedural.py:583-606 | in a complete summary a callee's effect is filed under its identity at the caller if and only if it is parameter-rooted, global or field |
| SolverTheorems.CompleteEffectsAreChainImages | src/cpp_context_engine/analysis/interprocedural.py:464-545 | the effect identities of a complete summary are exactly those of the local effects at the ends of call chains along which their storage can be named |
| ReturnOrigins.NoInventedOrigins | src/cpp_context_engine/analysis/interprocedural.py:464-545 | after any number of components every return origin of every summary is the image of a real local origin along calls each of which returns the result of the next |
| ReturnOrigins.OriginImageMeaning | src/cpp_context_engine/analysis/interprocedural.py:643-700 | an origin handed back along such calls names the storage its parameter's argument is bound to, unknown storage where none is bound, and otherwise what it named before, with the path cut once; it is certain if and only if every target is certain, no body ambiguous and the local origin certain, and is then a location or unknown, never a call result |
| ReturnOrigins.OriginProvenance | src/cpp_context_engine/analysis/interprocedural.py:464-545 | the chain and the local origin behind an origin held at any point of a run can be named, and its storage, path, certainty and kind are those said of the chain |
| ReturnOrigins.CompleteOriginsAreChainImages | src/cpp_context_engine/analysis/interprocedural.py:340-353 | the return origins of a complete summary are exactly the local origins at the ends of such chains, each under its identity there |
| DroppedEffect.OmittedYetComplete | src/cpp_context_engine/analysis/interprocedural.py:597-606 | a two-function program whose caller is complete although a dereference effect of its callee was omitted: the advertised contract as it stands is false |
| Convergence.TransferMonotone | src/cpp_context_engine/analysis/interprocedural.py:290-364 | with more identities among the callees and the cap silent, a transfer yields no fewer identities and reasons |
| Convergence.IteratesGrow | src/cpp_context_engine/analysis/interprocedural.py:499-519 | from one iteration to the next each member's effect, origin and reason sets only grow while the cap is silent |
| Fixpoint.IdentitiesReachFixpoint | src/cpp_context_engine/analysis/interprocedural.py:492-524 | because paths are cut at eight, the identities live in a finite universe and from some iteration within its size on never change |
| Fixpoint.StaysStill | src/cpp_context_engine/analysis/interprocedural.py:499-521 | one iteration that adds no identity means none ever will |
| Fixpoint.RoomyCapIsSilent | src/cpp_context_engine/analysis/interprocedural.py:360-363 | an effect cap with room for every identity the program can form never fires, at any iteration of any component |
| Fixpoint.RunReachesFixpoint | src/cpp_context_engine/analysis/interprocedural.py:492-524 | with such a cap the identities of every component of every run reach a fixpoint within the size of their universe |
| Fixpoint.JacobiIsIterate | src/cpp_context_engine/analysis/interprocedural.py:499-521 | the capped loop stops at one of these iterates, at most at the cap |
| Fixpoint.RunStartsComponent | src/cpp_context_engine/analysis/interprocedural.py:464-467 | every component is entered in the state those results assume |
| FactRank.RankIsInjective | src/cpp_context_engine/analysis/interprocedural.py:360-363 | facts can be ordered injectively by their identities, as sorting their digests does |
| Flows.RecordWritebacks | src/cpp_context_engine/analysis/interprocedural.py:389-426 | keeping only the last eligible effect per parameter and location gives the flows that inserting one for every effect gives |
| Flows.RecordReturns | src/cpp_context_engine/analysis/interprocedural.py:427-448 | the same for return origins of a result binding |
| Flows.RecordFlows | src/cpp_context_engine/analysis/interprocedural.py:368-448 | one summary adds exactly the argument, write-back and return flows of its call edges, later ones winning |
| Flows.FlowsDependOnCallees | src/cpp_context_engine/analysis/interprocedural.py:368-448 | recorded flows read only the facts of callees |
| SolverRun.CountCallers | src/cpp_context_engine/analysis/interprocedural.py:450-459 | the counters count, for each callee, its call edges from other components |
| SolverRun.ReleaseCaller | src/cpp_context_engine/analysis/interprocedural.py:553-561 | a callee's entry goes exactly when its last pending cross-component edge is done |
| SolverRun.ReleaseComponent | src/cpp_context_engine/analysis/interprocedural.py:552-566 | after a component the entries left are those that some later component still calls |
| SolverRun.ReleasingStep | src/cpp_context_engine/analysis/interprocedural.py:552-566 | what is still held agrees with the run that releases nothing, and everything a later component reads is held |
| SolverRun.SolveLocal | src/cpp_context_engine/analysis/interprocedural.py:468-524 | solving a component changes the same things whatever else is or is not held |
| SolverRun.IterateComponent | src/cpp_context_engine/analysis/interprocedural.py:492-524 | the loop over members computes the specified iteration |
| SolverRun.Solve | src/cpp_context_engine/analysis/interprocedural.py:468-524 | either branch computes the specified outcome of a component |
| SolverRun.SolveInOrder | src/cpp_context_engine/analysis/interprocedural.py:462-580 | for one order of components, the emitted summaries with their facts, in order, and the flows are the same whether or not facts are retained; with release nothing is held at the end |
| SolverRun.SolveVariant | src/cpp_context_engine/analysis/interprocedural.py:173-580 | the search for components followed by the run in its order |
| Published.EmittedOnceAndTrue | src/cpp_context_engine/analysis/interprocedural.py:526-551 | every summary is emitted exactly once, with its final facts, complete if and only if it has no reason, recursive if and only if it lies on a call cycle |
| Published.FlowsExact | src/cpp_context_engine/analysis/interprocedural.py:368-448 | a flow is published if and only if some call edge gives rise to it under the final facts of its callee: an argument is bound to the parameter; or the callee writes through a parameter taken by reference, rvalue reference or pointer whose argument may be written back; or an origin of the callee reaches the storage that the call's result defines; with the locations, index and access named |
| OrderFree.FinalUnique | src/cpp_context_engine/analysis/interprocedural.py:462-545 | two valid orders of the components give every summary the same facts, reasons and certainties |
| OrderFree.EmissionsUnique | src/cpp_context_engine/analysis/interprocedural.py:526-551 | two valid orders emit the same summaries, with the same flags and iteration counts |
| OrderFree.FlowsMeaning | src/cpp_context_engine/analysis/interprocedural.py:368-448 | the published flows with their certainties are, for each summary, those of its own call edges under the final facts of its callees, the last to write a flow winning |
| OrderFree.FlowsUnique | src/cpp_context_engine/analysis/interprocedural.py:368-448 | two valid orders publish the same flows with the same certainties |
| CertainFlows.CertainFlowIff | src/cpp_context_engine/analysis/interprocedural.py:368-448 | a flow is published as certain if and only if the last edge of its caller to record it has a certain target with one body, a complete binding where an argument is involved, and, for a write-back or a result, a certain last writer among the callee's effects or origins |
| CertainFlows.CertainFlowJustified | src/cpp_context_engine/analysis/interprocedural.py:368-448 | a flow published as certain has a call edge with a certain target, a single body, a complete binding where there is one, and a certain fact of the callee behind it |
| DataFlow.TransferBlock | native/clang-analyzer/src/main.cpp:2010-2035 | the loop over a block's accesses computes the specified transfer |
| DataFlowSolver.Sweep | native/clang-analyzer/src/main.cpp:2093-2112 | one sweep recomputes every block from the newest outputs, reports no change only if none changed, and always reports none at a fixpoint |
| DataFlowSolver.Analyze | native/clang-analyzer/src/main.cpp:2089-2115 | at most 64 sweeps and no more than are needed, with the maps of a run of 64; convergence is reported if and only if the 63rd sweep ended in a fixpoint of join and transfer, and the maps are then one |
| DataFlowSolver.SweptGrounded | native/clang-analyzer/src/main.cpp:2010-2113 | at every sweep each reported definition really is the last one on some walk, and each location marked complete is defined on every backward walk |
| DataFlowSolver.ReachingDefinitionsExact | native/clang-analyzer/src/main.cpp:2037-2067 | at convergence a definition is in a block's entry set if and only if it is the last one on some walk to the block |
| DataFlowSolver.CompleteExact | native/clang-analyzer/src/main.cpp:2060-2067 | at convergence a location is complete if and only if every backward walk meets a definition within a bounded number of blocks |
| DataFlowSolver.LoopNeverComplete | native/clang-analyzer/src/main.cpp:2060-2067 | at convergence a location that no block of a cycle defines is complete at none of its blocks |
| DataFlowSolver.PathDefinitionReported | native/clang-analyzer/src/main.cpp:2165-2205 | at convergence the last definition along any path to an access is in its reported set |
| DataFlowSolver.CertainMeansEveryPath | native/clang-analyzer/src/main.cpp:2184-2205 | a complete singleton set means that every path is last defined by exactly that access, converged or not |
| PathValues.EvaluateExact | native/clang-analyzer/src/main.cpp:1945-2002 | the value of an expression contains nothing but what it can denote when each location holds some thing that its value allows, one arm chosen at each conditional; all of that while it is at most 64 targets; and it is complete if and only if it is and the unknown is not among it |
| PathValues.CapExact | native/clang-analyzer/src/main.cpp:1903-1913 | 64 targets or fewer stay as they are; of more the 64 smallest locations are kept, or all of them and the smallest functions that still fit, and the value is incomplete |
| PointsToSoundness.EvaluateCovers | native/clang-analyzer/src/main.cpp:1945-2002 | if every complete value in a state contains what its location holds on a run, so does the value of an expression contain what the expression denotes there |
| PointsToSoundness.JoinExact | native/clang-analyzer/src/main.cpp:2037-2087 | a joined value allows a thing if and only if some predecessor's value does, while there are at most 64; it is complete if and only if every predecessor has been computed with a complete value for it |
| PointsToSoundness.InputCoversPath | native/clang-analyzer/src/main.cpp:2010-2113 | at convergence, for every run along every path into a block, a value marked complete contains what its location holds, and a location that holds nothing is incomplete |
| PointsToSoundness.StateCoversPath | native/clang-analyzer/src/main.cpp:2165-2278 | the same before every access inside the block |
| PointsToSoundness.SweptWithin | native/clang-analyzer/src/main.cpp:1903-1913 | at every sweep every points-to set has at most 64 targets |
| PointsToSoundness.NavigationKeepsPointsTo | native/clang-analyzer/src/main.cpp:2010-2087 | leaving definitions out, as the navigation profile does, changes no points-to value at any sweep |
| PointsToSoundness.Replay | native/clang-analyzer/src/main.cpp:2165-2262 | the replay evaluates each call just before its place among the accesses, labels each access in the state before it, and lists the aliases of every pointer followed and value stored |
| PointsToSoundness.EvidenceMeaning | native/clang-analyzer/src/main.cpp:2184-2205 | certain evidence names the last definition on every path, and at convergence every path's last definition is among the evidence |
| PointsToSoundness.EvidenceExact | native/clang-analyzer/src/main.cpp:2184-2205 | at convergence there is evidence for a definition if and only if it is the last one before the access on some walk, certain if and only if every way there meets a definition and no other one reaches |
| PointsToSoundness.CertainCallOnEveryPath | native/clang-analyzer/src/main.cpp:2261-2278 | at convergence, on every run along every path the callee of a certain indirect call denotes that function, unless storage or something untold |
| PointsToSoundness.CertainTargetExact | native/clang-analyzer/src/main.cpp:2261-2278 | a target is certain if and only if it is a candidate, and no other function, null or unknown is |
| PointsToSoundness.CandidCalls | native/clang-analyzer/src/main.cpp:1613-1650 | where every access without an expression is recorded as incomplete no callee denotes something untold |
| PossibleTargets.PossibleTargetReal | native/clang-analyzer/src/main.cpp:2261-2278 | after any number of sweeps every function published as a target of a call, possible ones included, is what the callee denotes on some run along some walk to the call |
| PossibleTargets.InReal | native/clang-analyzer/src/main.cpp:2010-2113 | whatever a points-to value allows at a block's entry, its location holds there on some run along some walk |
| PointsToSoundness.CoveredAliases | native/clang-analyzer/src/main.cpp:2206-2256 | where the state entering a block covers a path, the aliases of a complete value name all storage it designates on each run, and a must-alias the only one |
| PointsToSoundness.AliasesExact | native/clang-analyzer/src/main.cpp:2206-2256 | a value yields an alias for each storage it allows, certain if and only if it allows nothing else |
| PointsToSoundness.MustAliasOnEveryPath | native/clang-analyzer/src/main.cpp:2206-2256 | at convergence a must-alias names the only storage that the pointer followed or the value stored designates, on every run along every path, the untold aside |
| SweepUnfolding.SweptIs | native/clang-analyzer/src/main.cpp:2091-2108 | what a block holds after k sweeps is the join and transfer of what its predecessors held after k sweeps if they come earlier in the order and after k - 1 if not |
| GraphShapes.EnoughSweeps | native/clang-analyzer/src/main.cpp:2089-2113 | when every walk makes fewer than n turns, n sweeps end in a fixpoint whatever the blocks contain |
| GraphShapes.RankedConverges | native/clang-analyzer/src/main.cpp:2089-2113 | a rank that no edge lowers and every turn raises, staying below n, guarantees convergence within n sweeps |
| GraphShapes.RankedIsRight | native/clang-analyzer/src/main.cpp:2206-2278 | with such a rank every certain call target and every must-alias is right on every path |
| GraphShapes.SightedCovers | native/clang-analyzer/src/main.cpp:2010-2113 | on a graph that is not blind, n sweeps cover every path, converged or not |
| GraphWitnesses.SettledIff | native/clang-analyzer/src/main.cpp:2089-2113 | n sweeps settle every function over a graph if and only if no walk of the graph makes n turns |
| GraphWitnesses.MisledIff | native/clang-analyzer/src/main.cpp:2261-2278 | some function over a graph gets a certain target that a path contradicts if and only if the graph is blind |
| GraphWitnesses.SightedMustAlias | native/clang-analyzer/src/main.cpp:2206-2256 | on a graph that is not blind every must-alias is right on every path, converged or not |
| GraphWitnesses.LoopsAreBlind | native/clang-analyzer/src/main.cpp:2089-2113 | a graph with a loop whose head a path enters by a turn, and whose back edge is none, is blind and unsettled for every number of sweeps |
| RestlessLoop.NeverSettles | native/clang-analyzer/src/main.cpp:2089-2113 | a function of five blocks that no number of sweeps brings to a fixpoint |
| UnconvergedLoop.SweepsMissPath | native/clang-analyzer/src/main.cpp:2093-2113 | whatever the number of sweeps allowed, a long enough tail after a loop ends them with a stale complete value |
| UnconvergedLoop.CapMissesPath | native/clang-analyzer/src/main.cpp:2261-2278 | with the actual cap, no sweep converges and the certain target published differs from the one a path calls |
| BumpedPointer.BumpedAlias | native/clang-analyzer/src/main.cpp:1745-1749 | a function whose published must-alias is contradicted by a run at convergence, because an increment is recorded as complete |
| Utf8.CutIffBoundary | native/clang-analyzer/src/main.cpp:189-191 | in well-formed UTF-8 both halves of a cut are well formed if and only if the cut is not before a continuation byte |
| Utf8.ValidIffCharacters | src/cpp_context_engine/ingestion/native.py:206-213 | well-formed text is exactly what a sequence of characters, surrogates excepted, encodes to in shortest form |
| SymbolText.CutAdvances | native/clang-analyzer/src/main.cpp:187-191 | stepping back from a full fragment drops at most three bytes and never reaches its start |
| SymbolText.StepBack | native/clang-analyzer/src/main.cpp:188-191 | the inner loop finds the longest piece of whole characters that fits |
| SymbolText.SplitText | native/clang-analyzer/src/main.cpp:185-197 | the loop terminates and splits the text into longest pieces |
| SymbolText.SplitMeaning | native/clang-analyzer/src/main.cpp:185-197 | pieces are nonempty, well formed, at most 64 KiB, all but the last within three bytes of it, and concatenate to the text |
| SymbolText.SplitIsUnique | native/clang-analyzer/src/main.cpp:185-197 | there is only one such splitting |
| SymbolText.Separate | native/clang-analyzer/src/main.cpp:162-175 | exactly the oversized texts leave the record and are described by size and digest, in wire order |
| SymbolText.EmitSymbolText | native/clang-analyzer/src/main.cpp:161-198 | a symbol goes out whole, or as a header followed by the numbered fragments of each oversized field |
| SymbolText.EmissionMeaning | native/clang-analyzer/src/main.cpp:161-182 | the first record of a symbol holds the texts of at most 65536 bytes and describes every longer one by its size and digest, and is the only record if there is none |
| SymbolStream.SymbolTextChunks.Accept | src/cpp_context_engine/ingestion/native.py:191-264 | one record is accepted exactly when the state machine accepts it, with the same next state and logical fact |
| SymbolStream.SymbolTextChunks.AcceptChunk | src/cpp_context_engine/ingestion/native.py:192-237 | the same for fragments: order, sizes, digest and completion |
| SymbolStream.SymbolTextChunks.Finish | src/cpp_context_engine/ingestion/native.py:266-268 | finishing succeeds if and only if no symbol is pending |
| SymbolGrammar.AcceptedIffFramed | src/cpp_context_engine/ingestion/native.py:191-268 | a stream is accepted if and only if after each symbol that announces texts, none of which it carries, all their fragments follow at once: in wire order, numbered from zero, not empty, of at most 65536 bytes, as many bytes as announced and with the announced digest |
| SymbolWire.LogicalIsAnnounced | src/cpp_context_engine/ingestion/native.py:191-264 | in every accepted stream, whatever its fragments, the logical facts are those its fact records announce |
| SymbolWire.FragmentationIsIrrelevant | src/cpp_context_engine/ingestion/native.py:191-264 | two accepted streams with the same fact records mean the same however they are cut |
| SymbolWire.AcceptedEitherWay | src/cpp_context_engine/ingestion/native.py:739-748 | a reader that only checks accepts exactly the streams that an assembling reader accepts |
| SymbolWire.ZipIsAssembly | src/cpp_context_engine/ingestion/native.py:1783-1797 | pulling fragments from one spool for the symbols of the other gives the symbols of direct assembly, for every accepted stream |
| SymbolWire.Rezip | src/cpp_context_engine/ingestion/native.py:1783-1797 | the builder's loop computes that zip, missing and unused fragments refused |
| SymbolWire.WireRoundTrip | native/clang-analyzer/src/main.cpp:161-198 | every stream the analyzer emits is accepted and decodes to the emitted facts, directly and through the spools |
| WireKeys.WireKeyMeaning | native/clang-analyzer/src/main.cpp:211-217 | projecting twice is projecting once, no key gets longer, and exactly the long keys change, recognisably |
| WireKeys.OutgoingFact.ProjectWireKeys | native/clang-analyzer/src/main.cpp:219-253 | the loops over the fact edited in place compute the projected fact |
| WireRoundTrip.WireForm | native/clang-analyzer/src/main.cpp:219-253 | what goes on the wire: a fact's key under the letter of its kind, each of the sixteen references under the letter of the kind it names, each parameter location as a location, and of a shortened location the key itself besides |
| WireRoundTrip.LongReferencesNameTheirFacts | native/clang-analyzer/src/main.cpp:238-247 | in a well-formed set a reference of more than 66 bytes is on the wire the letter and hash under which the very fact it names, of the kind its field names, is on the wire too |
| WireKeys.AliasTable.PrepareWireKeys | src/cpp_context_engine/ingestion/native.py:1702-1738 | the six passes learn the aliases of all definitions, parents first, or refuse |
| WireKeys.AliasTable.RestoreWireFact | src/cpp_context_engine/ingestion/native.py:1740-1771 | references are restored before the key that is spelled from them |
| WireRoundTrip.CompactKeysRoundTrip | src/cpp_context_engine/ingestion/native.py:1702-1771 | for every fact set in which each long reference has the definition of the kind its field names, the aliases can be learned and every projected fact restores to the original, key, references and locations, over all eight kinds |
| WireRoundTrip.DependentSpelling | src/cpp_context_engine/ingestion/native.py:1753-1768 | evidence and effects spell their original keys from restored references |
| WireRoundTrip.AcceptedAliasesAreHashes | src/cpp_context_engine/ingestion/native.py:1727-1736 | from any facts whatever, an accepted alias is the hash of the long key it stands for |
| WireRoundTrip.LearnIff | src/cpp_context_engine/ingestion/native.py:1707-1736 | a definition is accepted if and only if it has a key that is not shortened, or a new one that is the letter and hash of a key of more than 66 bytes spelled by its structure, with nothing required missing or empty |
| WireRoundTrip.UnknownRefused | src/cpp_context_engine/ingestion/native.py:1692-1700 | once a fact set is accepted no two definitions share a shortened key, and a reference is refused if and only if it is shortened and no definition of its kind has that key |
| WireRoundTrip.RestoredProjectsBack | src/cpp_context_engine/ingestion/native.py:1692-1700 | restoring a received reference and projecting it again gives what was received |
| WireRoundTrip.RestoredFactProjectsBack | src/cpp_context_engine/ingestion/native.py:1740-1771 | whatever facts arrive, projecting a restored fact gives back its key and every reference that was received shortened or short, and nothing else of it has changed |
| Registry.ResourceBudget.Acquire | src/cpp_context_engine/ingestion/native.py:378-382 | an amount is granted exactly when it fits under the limit, and otherwise nothing changes |
| Registry.ResourceBudget.Release | src/cpp_context_engine/ingestion/native.py:384-388 | the amount goes back and an underflow is reported |
| Registry.FactRegistry.OpenFile | src/cpp_context_engine/ingestion/native.py:429-444 | which error a missing file leads to, and that a failed file costs no descriptor |
| Registry.FactRegistry.Append | src/cpp_context_engine/ingestion/native.py:445-460 | which limit refuses a frame, and that a failed write costs no bytes |
| Registry.FactRegistry.Add | src/cpp_context_engine/ingestion/native.py:423-460 | a fact is accepted if and only if the registry is open, the kind named, its file there or allowed by 64 kinds and the descriptor budget and supplied, the fact encodable, within the record limit and, with a header of four bytes, within the registry and the byte budget, and written; which error answers each refusal; on every path the budgets move by what the registry holds, and an accepted fact is one more frame of its own kind, a refused one leaves every frame as it was |
| Registry.FactRegistry.Close | src/cpp_context_engine/ingestion/native.py:490-499 | closing gives everything back, once, without underflow |
| Registry.SpoolPool.Spool | src/cpp_context_engine/ingestion/native.py:423-460 | with any number of registries the named one answers and stores as above and no other changes; each budget's use stays the sum of what they hold and within its limit |
| Registry.SpoolPool.CloseAll | src/cpp_context_engine/ingestion/native.py:1554-1563 | closing all registries, closed before or not, leaves both budgets at zero |
| Registry.SpoolPool.NothingHeld | src/cpp_context_engine/ingestion/native.py:1554-1563 | with every registry closed nothing is held of either budget |
| PipelineSafety.StepKeeps | src/cpp_context_engine/ingestion/native.py:1385-1538 | every step of workers, coordinator and consumer keeps the invariant of the scheduler's maps and counters |
| PipelineSafety.PublishedPrefix | src/cpp_context_engine/ingestion/native.py:1357-1501 | in every reachable state the published batches are the in-order, duplicate-free prefix of converting each configuration's analysis; registries held are those admitted and not released, within the spool limit; active analyses do not exceed the workers; conversions are one contiguous window within its bound |
| PipelineProgress.SomethingCanMove | src/cpp_context_engine/ingestion/native.py:1403-1538 | while input is unconsumed and the run has not failed, a productive step is enabled whatever finished in whatever order, unless the very next configuration has failed |
| PipelineProgress.WorkDecreases | src/cpp_context_engine/ingestion/native.py:1403-1538 | every productive step strictly lowers the work left |
| PipelineProgress.RunsAreShort | src/cpp_context_engine/ingestion/native.py:1403-1538 | no run makes more than eleven productive steps per configuration |
| PipelineProgress.StuckMeansDone | src/cpp_context_engine/ingestion/native.py:1385-1538 | a run that has not failed and cannot go on has published all batches in order |
| PipelineProgress.NormalReturn | src/cpp_context_engine/ingestion/native.py:1489-1496 | when the coordinator returns of its own accord every conversion has been submitted and has succeeded or raised |
| PipelineResources.AccountedKept | src/cpp_context_engine/ingestion/native.py:1285-1348 | every step keeps the exact account of which registries are open and who owns them |
| PipelineResources.NothingLeaks | src/cpp_context_engine/ingestion/native.py:1542-1563 | after success, failure, cancellation or abandonment closing down leaves no registry open |
| PipelineResources.ConvertersReadOpen | src/cpp_context_engine/ingestion/native.py:1328-1348 | a running conversion's registry is open |
| PipelineResources.AlwaysWindsDown | src/cpp_context_engine/ingestion/native.py:1542-1553 | once the consumer has left, shutdown can always proceed |
| SpooledPipeline.SpooledRun.Advance | src/cpp_context_engine/ingestion/native.py:1285-1563 | with every step of the pipeline the registries of the pool that are open are those of the configurations that own one, and after closing down no byte and no descriptor is in use |
| SpooledPipeline.SpooledRun.Spool | src/cpp_context_engine/ingestion/native.py:1285-1305 | a running analysis spools into a registry that is open, which answers and stores as above |
| Coordinator.Scheduler.CollectFinished | src/cpp_context_engine/ingestion/native.py:1403-1424 | all finished analyses become pending registries and give their slots back |
| Coordinator.Scheduler.SubmitConversions | src/cpp_context_engine/ingestion/native.py:1446-1457 | conversions are submitted in input order until the window is full or the next registry is missing |
| Coordinator.Scheduler.SubmitAnalyses | src/cpp_context_engine/ingestion/native.py:1459-1488 | analyses are submitted until input, workers or spool capacity run out; a free slot is always there |
| Coordinator.Scheduler.ReportFailure | src/cpp_context_engine/ingestion/native.py:1434-1444 | the failure kept is the one earliest in input order among those seen; of the conversions those not begun are cancelled and the others left alone |
| Coordinator.Scheduler.Pass | src/cpp_context_engine/ingestion/native.py:1389-1496 | one pass is a run of pipeline steps; it reports the earliest failed configuration if there is one, leaves nothing unsubmitted that could be, and ends exactly when all is submitted, collected and done |
| Coordinator.Scheduler.Take | src/cpp_context_engine/ingestion/native.py:1511-1523 | the consumer gets the conversion of the analysis of its own index |
| Coordinator.Scheduler.Release | src/cpp_context_engine/ingestion/native.py:1526-1538 | releasing a batch frees exactly its place in the window and its share of the spool |
| Coordinator.Scheduler.Leave | src/cpp_context_engine/ingestion/native.py:1542-1550 | leaving stops the coordinator and cancels exactly the work not begun, nothing else |
| IdleGate.StartIsInterval | src/cpp_context_engine/ingestion/telemetry.py:254-261 | the start the gate keeps is that of the maximal current interval of idleness |
| IdleGate.IntervalIsUnique | src/cpp_context_engine/ingestion/telemetry.py:254-261 | there is only one such interval |
| IdleGate.LongestIsUnique | src/cpp_context_engine/ingestion/telemetry.py:263-274 | the longest measured wait is determined by the trace |
| IdleGate.MatchesAfter | src/cpp_context_engine/ingestion/telemetry.py:186-223 | one event changes a slot's record as the trace definition of activity, idleness and longest wait demands |
| IdleGate.AnalyzerSlotIdleGate.MeasureIdle | src/cpp_context_engine/ingestion/telemetry.py:263-279 | every open interval is measured, and the first slot over the limit is reported if and only if there is one |
| IdleGate.AnalyzerSlotIdleGate.ApplyCurrentIdleState | src/cpp_context_engine/ingestion/telemetry.py:254-261 | intervals are opened, kept or closed under the current counts |
| IdleGate.AnalyzerSlotIdleGate.Observe | src/cpp_context_engine/ingestion/telemetry.py:186-223 | an event is accepted if and only if it fits the trace and no slot has waited too long, and the gate's fields then equal their trace definitions; the idle error is raised exactly when a wait exceeds the limit, and each objection to an event's shape exactly when it is the first that applies |
| IdleGate.AnalyzerSlotIdleGate.Check | src/cpp_context_engine/ingestion/telemetry.py:225-228 | the same for a look at the clock between events |
| PipelineTrace.StepKeepsLog | src/cpp_context_engine/ingestion/native.py:1308-1326 | after every step the telemetry log still knows exactly which slots are busy and with which configuration |
| PipelineTrace.TelemetryFits | src/cpp_context_engine/ingestion/native.py:1099-1129 | every trace the scheduler can produce is contiguous, holds at most the spool limit, and alternates start and finish of one configuration on each slot, so the gate can refuse it only for idleness |
| PipelineTrace.ReportsSay | src/cpp_context_engine/ingestion/native.py:1308-1348 | each step reports the start or finish of its analysis on its slot or of its conversion, and how it ended: cancelled if the run is, otherwise by its success |
| PipelineTrace.TelemetryIsCurrent | src/cpp_context_engine/ingestion/native.py:1041-1050 | at every moment of every run the last event carries the scheduler's own counts of unscheduled work and held registries, and the log knows exactly which conversions are running |
| Closure.PopNearest | src/cpp_context_engine/ingestion/deep.py:581-588 | the entry taken is a least one by distance, variant, unit and symbol, and the rest stay |
| Closure.EarlierHandled | src/cpp_context_engine/ingestion/deep.py:579-604 | every entry that comes before all pending ones by distance, variant, unit and symbol has been expanded |
| Closure.TakeIsFirst | src/cpp_context_engine/ingestion/deep.py:605-614 | cutting the sorted list at the limit keeps what comes first by distance, variant and unit |
| Closure.Closure | src/cpp_context_engine/ingestion/deep.py:551-614 | the search terminates with at most the allowed number of units, each met with that configuration and at its least distance; nothing is omitted if and only if every reachable unit is selected; they come in order, and every reachable unit left out comes after all of them, by distance, variant and unit; with too many roots they are the first roots by variant, configuration and unit |

## Left out

- The wrapper that filters inputs per build variant and merges the solved variants
  (src/cpp_context_engine/analysis/interprocedural.py:108-170): each variant is solved as modelled here.
- Solution hashes, human-readable reasons and the cancellation callback of the solver; reasons are an enumeration.
- Value convergence in recursive components: certainty is not part of an effect's identity and the last
  writer wins (`LastWriter.ArrivalDecidesCertainty`), so only identities are proved to reach a fixpoint.
- Python's recursion limit in the component search.
- The cap on locations of the data-flow analysis (native/clang-analyzer/src/main.cpp:1469-1494): the functions that
  show a graph blind use one location for each block of a walk.
- Deduplication of evidence by its key (native/clang-analyzer/src/main.cpp:2121-2124, 2144-2147): evidence and
  aliases are sets.
- Clang traversal: the data-flow model starts from collected accesses and expressions; points-to is compared with
  path-wise evaluation, not with C++ memory.
- Threads, locks and condition variables: their effect is the choice of the next step.
- A run without an observer: the model always keeps logical slots; without one they are simply not there.
- The idle gate's report: outcomes and causes in words; what it measures is modelled.
- The clock and the bounded event queue of the telemetry dispatcher: readings are arbitrary but never go back, a
  full queue is a request failure; observer callbacks are not modelled.
- The registry's read side (marshalled frames, truncated files): only what is written and what it costs.
- `_restore_wire_fact` on symbol records before they are zipped, which leaves their texts alone.
- JSON, gzip and marshal encodings, subprocesses, storage and SQL, the per-field validation of facts and the
  one-fact-to-one-record converters.
- The store's callee query: an arbitrary finite table of callee rows per function body, one step farther each,
  and roots that are one row per unit at one distance.
- The closure's cancellation checks.
