# A model of the k23 WebAssembly runtime, in Dafny

The project models the parts of the runtime that are hardest to get right and proves, for all
inputs and all runs, what they are for. It has three parts.

**The engine's type registry.** Recursion groups of Wasm types are hash-consed to engine-wide
indices and reference-counted. The reference notion is iso-recursive type equality (section
"Equivalence" of the WebAssembly GC proposal, MVP.md): `IsoRecursive` closes a type by rolling up its
group and unfolding the references to earlier ones. `TypeRegistry.TypeRegistryInner` is the registry as a class that
changes its maps in place; `RegistryOps` says what each operation computes, and `RegistryRuns` proves, for
every run of registering, getting, cloning and dropping, that two live module types have the same index exactly
if they are the same type, that the counts are conserved, that the drop cascade removes exactly what no handle
reaches, and that a registry without handles is empty. `ModuleTypesBuilder` and `TypeConversion` model the builder that feeds
the registry and prove what the registry asserts; `SectionContents` that the translated types, read back, are the validated ones. `Resurrection` splits a drop into its atomic steps.

**Structured control flow to a control-flow graph.** `Translation` is the one-pass translator as a function
of the translation state, where every failed assertion, `unwrap` or broken rule of the function builder is `Panic`;
`Translator` is the same as classes and loops, proved equal to it. `Validation` is the validation algorithm of the appendix
of the WebAssembly Core Specification 2.0 and `WasmMachine` an independent machine for sections 3.3.8
and 4.4.8 of it. `TranslationRuns` proves that a valid body never panics and that the value stack, the
reachability flag and the pending blocks are as they should be after every prefix; `Finalization` that every block written to ends complete
and sealed. `Simulation.PreservesMeaning` proves that the
translated function and the body deliver the same results, through branches, loop back edges, `if`/`else`
joins, patched branches and split `br_table` edges, and that neither ever gets stuck.

**Link and runtime tables.** `Linking` and `TrapTables` model the tables that linking builds and the way from a
faulting address to its trap; `VmContextLayout` and `VmContextInit` the layout and initialisation of a
`VMContext`, byte by byte; `Activations` nested calls that end normally or by a trap; `ImportLinker` the
linker's map of names.

Four findings about the code are stated as lemmas, each with a concrete case and the exact condition under which the expected
property does hold:

* Stored runtime types do not agree with their hash-consing key in general, because an index inside the group is computed as
  slab length plus module index plus group start (`StoredTypes.StoredDisagree`, `StoredTypes.StoredAgreeIff`).
* With two outstanding observations of a zero count, the second observer takes the lock for an entry that the first has already
  removed (`Resurrection.ResurrectionOccurs`, `Resurrection.StepKeepsIff`).
* In the `else` branch of an `if` with parameters the value stack can fall below the recorded `original_stack_size`
  (`TranslationRuns.BelowOriginalSize`, `TranslationRuns.OriginalSizeKept`). The value is not read there, so translation is not affected.
* A valid type section whose group has a concrete heap type that refers to the same or a later member of the group reaches a
  `todo!()` (`ModuleTypesBuilder.SelfReferenceFails`, `ModuleTypesBuilder.SectionExact`).

## Model

| member | source | states |
|---|---|---|
| `WasmTypes.TraceMapGroup` | src/translate/types.rs:38-754 | rewriting the references of a group in place visits exactly the references that tracing lists, in the same order |
| `WasmTypes.MapGroupInjective` | src/translate/types.rs:38-754 | if the rewriting tells references apart, groups with equal rewritten forms were equal |
| `WasmTypes.MapMapGroup` | src/translate/types.rs:38-754 | rewriting twice is rewriting with the composed function |
| `IsoRecursive.DefsOfGroup` | src/type_registry.rs:65-95 | the reference notion: a closed type is a position in its rolled-up group, with references into the group as positions and references to earlier types as their closed forms |
| `RegistryStore.PositiveIsReached` | src/type_registry.rs:346-365 | a positive count means that a handle reaches the entry through references between groups |
| `RegistryStore.LiveIsReached` | src/type_registry.rs:440-511 | when no drop is in progress, every registered entry is reached from a handle |
| `RegistryStore.EdgeIsMult` | src/type_registry.rs:346-365 | an entry refers to another exactly if its key contributes to the other's count |
| `RegistryStore.SharedOfCounts` | src/type_registry.rs:355-365 | every engine-wide index is counted as often as it occurs in the traced references |
| `RegistryStore.TraceGroupCounts` | src/translate/types.rs:367-377 | tracing a group meets each reference as often as its members hold it |
| `RegistryStore.MultIsInto` | src/type_registry.rs:355-365 | the references counted one by one are the places in the types of the key, over their structure, that mention an index of the other group |
| `RegistryOps.KeyBodyInjective` | src/type_registry.rs:333-344 | two well-formed keys denote the same closed group exactly if they are equal |
| `RegistryOps.GrownStructured` | src/type_registry.rs:346-403 | inserting a new group keeps the registry's maps consistent and references acyclic |
| `RegistryOps.InsertedConserved` | src/type_registry.rs:346-365 | inserting keeps every count equal to its handles plus the places in the keys of registered groups that mention one of its types, repetitions included |
| `RegistryOps.ReleasedConserved` | src/type_registry.rs:466-505 | removing an unreferenced entry and uncounting its references, one for each place in its key, keeps the counts conserved |
| `RegistryOps.ShrunkStep` | src/type_registry.rs:440-511 | one round of the drop cascade removes an entry that no handle reaches |
| `RegistryOps.ShrunkDone` | src/type_registry.rs:440-511 | when the drop stack is empty, exactly the entries that some handle reaches are left |
| `RegistryOps.CollectKeeps` | src/type_registry.rs:440-511 | the store after a cascade is consistent and its counts are conserved |
| `RegistryOps.DroppedValid` | src/type_registry.rs:179-189 | dropping a handle, with the cascade it triggers, keeps the registry's invariant |
| `RegistryOps.DroppedFrame` | src/type_registry.rs:179-189 | what other handles reach keeps its indices, types and meaning |
| `TypeRegistry.GroupKeyOk` | src/type_registry.rs:65-95 | canonicalising a module's group gives a key whose references are live indices or positions in the group |
| `TypeRegistry.KeyMeansGroup` | src/type_registry.rs:65-95 | the key of a module's group denotes the rolled-up group |
| `TypeRegistry.RegisteredGroupDenotes` | src/type_registry.rs:323-403 | the indices a group gets stand for its closed types, whether it was found or inserted |
| `TypeRegistry.TypeRegistryInner.AllocType` | src/type_registry.rs:406-425 | a type is stored under an index that was not in use |
| `TypeRegistry.TypeRegistryInner.IncrRefCount` | src/type_registry.rs:576-583 | adds one to the count of one entry |
| `TypeRegistry.TypeRegistryInner.DecrRefCount` | src/type_registry.rs:585-592 | takes one from the count and tells whether it became zero |
| `TypeRegistry.TypeRegistryInner.InsertRecGroup` | src/type_registry.rs:346-403 | the new state is the specified one, with one handle more; the invariant holds |
| `TypeRegistry.TypeRegistryInner.RegisterRecGroup` | src/type_registry.rs:323-403 | a group is found by its key or inserted; one handle more in both cases |
| `TypeRegistry.TypeRegistryInner.RegisterModuleTypes` | src/type_registry.rs:290-320 | all groups of a module are registered and its types denote their closed forms |
| `TypeRegistry.TypeRegistryInner.ReleaseReferences` | src/type_registry.rs:466-488 | every count goes down by the number of places in the removed entry's key that mention the counted group, and entries whose count becomes zero are pushed on the drop stack, each once |
| `TypeRegistry.TypeRegistryInner.CountReferences` | src/type_registry.rs:353-365 | every count goes up by the number of places in the new key that mention the counted group |
| `TypeRegistry.TypeRegistryInner.RemoveIndices` | src/type_registry.rs:490-505 | the indices of an entry are in the reverse map and the slab, and are removed from both |
| `TypeRegistry.TypeRegistryInner.UnregisterEntry` | src/type_registry.rs:440-511 | the worklist terminates and computes mark and sweep from the handles; an entry registered again is kept |
| `TypeRegistry.TypeRegistryInner.GetType` | src/type_registry.rs:248-264 | a registered index gives a new handle and the stored type, an unknown one nothing |
| `TypeRegistry.TypeRegistryInner.CloneHandle` | src/type_registry.rs:167-177 | one handle more on the same entry |
| `TypeRegistry.TypeRegistryInner.DropHandle` | src/type_registry.rs:179-189 | one handle less, and what was reached through it alone is gone |
| `TypeRegistry.TypeRegistryInner.UnregisterTypeCollection` | src/type_registry.rs:427-433 | the handles of all groups of a module are dropped |
| `RegistryRuns.StepKeeps` | src/type_registry.rs:234-264 | every operation keeps the invariant of the whole system |
| `RegistryRuns.RunKeeps` | src/type_registry.rs:167-264 | in every state of every run, counts are conserved and every module's types denote their closed forms |
| `RegistryRuns.RegisteredGroupsKeep` | src/type_registry.rs:290-320 | registering a module keeps earlier registrations and adds one handle per group |
| `RegistryRuns.SharedIndexIsTypeIdentity` | src/type_registry.rs:289-403 | types of live registrations have equal indices exactly if they are iso-recursively equal |
| `RegistryRuns.RegisteredIsReachable` | src/type_registry.rs:440-511 | in every run, an entry is registered exactly if some outstanding handle reaches it |
| `RegistryRuns.EmptyWithoutHandles` | src/type_registry.rs:516-543 | once all handles are dropped, the map, the slab and the reverse map are empty, as `Drop` asserts |
| `StoredTypes.StoredAgreeIff` | src/type_registry.rs:367-384 | exactly when the stored types are the key with positions replaced by the group's indices |
| `StoredTypes.StoredAgreeHoleFree` | src/type_registry.rs:367-384 | they agree for a group at module index 0 whose indices follow the slab's length |
| `StoredTypes.StoredDisagree` | src/type_registry.rs:367-384 | a valid second group, a type and its subtype, for which they do not agree |
| `StoredTypes.StoredIsKey` | src/type_registry.rs:367-384 | the types stored for a group are its key with positions of the group moved by slab length plus twice the group start, and nothing else changed |
| `StoredTypes.RunSlab` | src/type_registry.rs:367-384 | in every state of every run the slab holds, at the index of each member of each registered group, that member of the key, own references moved |
| `Resurrection.StepKeepsIff` | src/type_registry.rs:179-189 | with drops split in two steps, a step is safe exactly if the state before it admits it: no dropped-to-zero entry has an observer on its way, and no observed entry depends on the removed one alone |
| `Resurrection.RunKeeps` | src/type_registry.rs:179-189 | safety over all runs whose steps meet that condition |
| `Resurrection.RemovedExactly` | src/type_registry.rs:440-511 | an unregistration under the lock keeps exactly what a handle or another waiting entry reaches |
| `Resurrection.UnregisterIsSafe` | src/type_registry.rs:440-464 | an entry registered again before the lock is taken is not removed |
| `Resurrection.SecondObserverFindsRemoved` | src/type_registry.rs:440-464 | a second observer takes the lock for an entry that is already gone |
| `Resurrection.ResurrectionOccurs` | src/type_registry.rs:440-464 | a run from the empty registry to that state: register, drop, register again, drop again, unregister |
| `Resurrection.CascadeRemovesObserved` | src/type_registry.rs:466-505 | the other way to it: the cascade removes an entry whose observer is on its way |
| `TypeConversion.ConvertCompositeExact` | src/translate/type_convert.rs:79-142 | conversion succeeds exactly if it is not a continuation and all concrete heap types are defined; references in order (contents: `TypeConversion.SubRoundTrip`) |
| `TypeConversion.ConvertSubExact` | src/translate/type_convert.rs:69-77 | the same for a type with its supertype, which only has to be known |
| `TypeConversion.SubRoundTrip` | src/translate/type_convert.rs:21-142 | reading the converted type back, with each index as the validated type it was given to, gives the validated type; each concrete heap type has the kind and sharedness of the type it refers to |
| `ModuleTypesBuilder.SeenLookup` | src/translate/type_convert.rs:144-206 | a reference of a valid type is found: in the own group at its reserved index, else below the group's start |
| `ModuleTypesBuilder.PushTypesExact` | src/translate/module_types.rs:127-135 | the members of a group convert exactly if their heap types go to earlier types; they refer below the group's end |
| `ModuleTypesBuilder.InternExact` | src/translate/module_types.rs:101-215 | a group is interned without a failed assertion exactly if it was before or is definable; the builder stays in order |
| `ModuleTypesBuilder.SectionExact` | src/translate/module_translator.rs:204-242 | a type section translates exactly if every declared group is definable |
| `ModuleTypesBuilder.SectionWellFormed` | src/translate/module_translator.rs:204-242 | ranges tile the types, references stay below their group's end, and the module's types are in step with its index space |
| `ModuleTypesBuilder.SameIndexIffSameType` | src/translate/module_types.rs:101-115 | two declared types get the same index exactly if validation identifies them |
| `SectionContents.PushTypesReads` | src/translate/module_types.rs:127-135 | member `k` of a group is defined at the index reserved for it and reads back as that member |
| `SectionContents.SectionReadsBack` | src/translate/module_translator.rs:204-242 | for every section that translates, the type at a declared type's index reads back as that type, with heap types of the right kind |
| `ModuleTypesBuilder.SelfReferenceFails` | src/translate/type_convert.rs:182-202 | a self-referential struct reaches the `todo!()` |
| `ModuleTypesBuilder.TypesBuilder.StartRecGroup` | src/translate/module_types.rs:140-171 | consecutive indices are reserved for the members, which must be new |
| `ModuleTypesBuilder.TypesBuilder.EndRecGroup` | src/translate/module_types.rs:173-200 | the group's range is recorded under the next number |
| `ModuleTypesBuilder.TypesBuilder.DefineNewRecGroup` | src/translate/module_types.rs:117-138 | computes the specified new builder |
| `ModuleTypesBuilder.TypesBuilder.InternRecGroup` | src/translate/module_types.rs:101-115 | a group met before is found again, else it is defined |
| `ModuleTypesBuilder.TranslateTypeSection` | src/translate/module_translator.rs:204-242 | for every valid, definable section the loop finds each group's first type and ends with well-formed types |
| `Validation.ValidateKeeps` | src/cranelift/func_translator.rs:206-212 | validation keeps frames nested and the operand stack above the innermost one |
| `LiveSteps.StackHeight` | src/cranelift/state.rs:137-204 | in reachable code the height above the innermost frame is the validator's |
| `LiveSteps.StraightKeeps` | src/cranelift/code_translator.rs:82-112 | straight-line operators keep the translation invariant |
| `LiveSteps.BlockKeeps` | src/cranelift/code_translator.rs:113-117 | so does `block` |
| `LiveSteps.BrKeeps` | src/cranelift/code_translator.rs:322-347 | so does `br`: its target takes its arguments and is not sealed |
| `LiveSteps.BrIfKeeps` | src/cranelift/code_translator.rs:2899-2940 | so does `br_if` |
| `LiveSteps.ReturnKeeps` | src/cranelift/code_translator.rs:467-480 | so does `return` |
| `LiveSteps.TrapKeeps` | src/cranelift/code_translator.rs:82-85 | so does `unreachable` |
| `OpenSteps.LoopKeeps` | src/cranelift/code_translator.rs:118-134 | so does `loop` |
| `OpenSteps.IfNoElseKeeps` | src/cranelift/code_translator.rs:135-163 | so does an `if` that may lack an `else` |
| `OpenSteps.IfWithElseKeeps` | src/cranelift/code_translator.rs:164-196 | so does an `if` that must have one |
| `TableSteps.BrTableKeeps` | src/cranelift/code_translator.rs:349-466 | so does `br_table`, with and without arguments |
| `TableSteps.SplitBuilds` | src/cranelift/code_translator.rs:406-466 | one split block per distinct depth, each only a jump to that depth's target with the arguments |
| `CloseSteps.PatchBuilds` | src/cranelift/code_translator.rs:2662-2687 | patching redirects exactly the false branch of the head, to a new sealed block |
| `CloseSteps.ElseNoElseLive` | src/cranelift/code_translator.rs:197-273 | `else` at the end of a reachable branch keeps the invariant, patching the head |
| `CloseSteps.ElseNoElseDead` | src/cranelift/code_translator.rs:2645-2699 | the same at the end of an unreachable branch |
| `CloseSteps.ElseWithElse` | src/cranelift/code_translator.rs:247-256 | the same when the `else` block was made with the `if` |
| `CloseSteps.EndLive` | src/cranelift/code_translator.rs:274-301 | `end` in reachable code keeps the invariant and the stack gets the right height |
| `CloseSteps.EndDead` | src/cranelift/code_translator.rs:2700-2746 | `end` in unreachable code: what follows is reachable exactly if something branches there |
| `CloseSteps.EndDeadLoop` | src/cranelift/code_translator.rs:2709-2714 | nothing branches past a loop; its header is sealed once |
| `CloseSteps.FlagsExact` | src/cranelift/code_translator.rs:2709-2737 | the frame's flags tell exactly whether its destination has predecessors |
| `DeadSteps.IgnoredKeeps` | src/cranelift/code_translator.rs:2747-2750 | other operators in unreachable code change nothing and keep the invariant |
| `DeadSteps.EnterDead` | src/cranelift/code_translator.rs:2628-2644 | constructs in unreachable code push placeholder frames |
| `DeadSteps.ElsePlaceholder` | src/cranelift/code_translator.rs:2645-2658 | the `else` of such an `if` stays unreachable and builds nothing |
| `DeadSteps.EndPlaceholder` | src/cranelift/code_translator.rs:2700-2737 | the end of such a construct stays unreachable and builds nothing |
| `TranslationRuns.StepKeeps` | src/cranelift/code_translator.rs:66-480 | a valid operator is translated without a failed assertion and keeps the invariant |
| `TranslationRuns.PrefixKeeps` | src/cranelift/func_translator.rs:196-232 | so is every prefix of a valid body |
| `TranslationRuns.BodyTranslates` | src/cranelift/func_translator.rs:196-232 | every valid body is translated to the end, including the final return: no block is filled or sealed twice, no edge goes to a sealed block |
| `TranslationRuns.StackAgrees` | src/cranelift/state.rs:137-204 | after every prefix the stack is above every open frame's floor and agrees with validation |
| `TranslationRuns.OriginalSizeKept` | src/cranelift/state.rs:416-444 | in every state and for every frame, when the stack is at or above the recorded `original_stack_size`; for the innermost one in reachable code, exactly when |
| `TranslationRuns.BelowOriginalSize` | src/cranelift/state.rs:416-444 | a valid prefix after which it is below |
| `TranslationRuns.EndReachability` | src/cranelift/code_translator.rs:2700-2746 | after `end`, code is reachable exactly if the block that follows has an incoming edge, and then that block is current |
| `TranslationRuns.ElseReachability` | src/cranelift/code_translator.rs:2645-2699 | after `else`, code is reachable exactly if the `if` was, and then the current block has an incoming edge |
| `TranslationRuns.PlaceholdersUnused` | src/cranelift/code_translator.rs:2628-2644 | placeholder frames form a suffix of the control stack; no branch goes to a reserved block |
| `Finalization.BodyFinalizes` | src/cranelift/func_translator.rs:29-71 | every valid body can be finalised: each block that was written to is complete and sealed |
| `BuilderGrowth.OpGrown` | src/cranelift/code_translator.rs:66-480 | an operator only adds to the function, save for the branch that an `else` patches |
| `BuilderGrowth.TranslatedBranches` | src/cranelift/code_translator.rs:3216-3240 | in the finished function every branch passes as many arguments as its target has parameters |
| `FrameStability.StepStable` | src/cranelift/state.rs:416-444 | while a frame is open, its data and the stack below its operands do not change |
| `ValueFreshness.StepFresh` | src/cranelift/code_translator.rs:113-196 | parameters of pending blocks are younger than the values below their frames |
| `Traces.FindEnd` | src/cranelift/code_translator.rs:274-301 | the `end` that the machine finds by scanning is where the frame closes |
| `Traces.FindElse` | src/cranelift/code_translator.rs:197-273 | likewise for the `else` or `end` of an `if` |
| `Traces.Frozen` | src/cranelift/code_translator.rs:197-273 | a finished block that is not the head of a pending `if` is final |
| `Landing.LandsForward` | src/cranelift/code_translator.rs:274-301 | the state in which code after a construct is translated is the one a branch out of it needs |
| `Landing.LandsBack` | src/cranelift/code_translator.rs:118-134 | likewise for the start of a loop |
| `SimulationRelation.Arrive` | src/cranelift/code_translator.rs:282-300 | entering a branch target sets its parameters and leaves the kept operands as they are |
| `BranchSimulation.BranchTaken` | src/cranelift/code_translator.rs:322-347 | a branch of the machine is the jump of the function |
| `StraightSimulation.StraightSim` | src/cranelift/code_translator.rs:606-637 | straight-line operators compute the same operands |
| `ControlSimulation.LoopSim` | src/cranelift/code_translator.rs:118-134 | entering a loop |
| `ControlSimulation.ReturnSim` | src/cranelift/code_translator.rs:467-480 | returning the same values |
| `JumpSimulation.EndSim` | src/cranelift/code_translator.rs:274-301 | leaving a construct at its end |
| `JumpSimulation.ElseSim` | src/cranelift/code_translator.rs:197-273 | leaving an `if` at the end of its first branch |
| `JumpSimulation.BrIfSim` | src/cranelift/code_translator.rs:2899-2911 | a conditional branch, taken or not |
| `TableSimulation.TableIsBranch` | src/cranelift/code_translator.rs:349-466 | for every target list, default and selector, the table reaches the selected depth's target with a direct branch's arguments |
| `IfSimulation.IfSim` | src/cranelift/code_translator.rs:135-196 | an `if` with both outcomes, with a ready, a patched or no `else` |
| `Simulation.OneStep` | src/cranelift/code_translator.rs:66-480 | every step of the machine is matched by steps of the function |
| `Simulation.Lockstep` | src/cranelift/func_translator.rs:196-232 | and so is every run, with the function's steps growing without bound |
| `Simulation.PreservesMeaning` | src/cranelift/func_translator.rs:196-232 | a valid body and its translation deliver exactly the same results, and neither gets stuck; in particular no undefined value is ever read |
| `Translator.FuncTranslationState.PushIf` | src/cranelift/state.rs:172-204 | the parameters are on the stack twice, and the frame records where |
| `Translator.FuncTranslationState.PushBlock` | src/cranelift/state.rs:137-151 | the frame records the height below its parameters |
| `Translator.FuncTranslationState.PushLoop` | src/cranelift/state.rs:154-169 | likewise, with the header |
| `Translator.FuncTranslationState.SetBranchedToExit` | src/cranelift/state.rs:402-414 | the frame's flag is set unless it is a loop; its branch target is returned |
| `Translator.TranslateStraight` | src/cranelift/code_translator.rs:698-713 | computes the translation function |
| `Translator.TranslateLoop` | src/cranelift/code_translator.rs:118-134 | computes the translation function |
| `Translator.TranslateIf` | src/cranelift/code_translator.rs:135-196 | computes the translation function |
| `Translator.TranslateElse` | src/cranelift/code_translator.rs:197-273 | computes the translation function |
| `Translator.TranslateEnd` | src/cranelift/code_translator.rs:274-301 | computes the translation function |
| `Translator.TranslateBr` | src/cranelift/code_translator.rs:322-347 | computes the translation function |
| `Translator.TranslateBrIf` | src/cranelift/code_translator.rs:2899-2940 | computes the translation function |
| `Translator.MinimumDepth` | src/cranelift/code_translator.rs:350-357 | the least depth of a table: one of its depths, and at most each of them |
| `Translator.TranslateTableDirect` | src/cranelift/code_translator.rs:377-410 | computes the translation function |
| `Translator.TranslateTableSplit` | src/cranelift/code_translator.rs:411-463 | computes the translation function, with one block per distinct depth |
| `Translator.TranslateBrTable` | src/cranelift/code_translator.rs:349-466 | computes the translation function |
| `Translator.TranslateReturn` | src/cranelift/code_translator.rs:467-480 | computes the translation function |
| `Translator.TranslateDeadElse` | src/cranelift/code_translator.rs:2645-2699 | computes the translation function |
| `Translator.TranslateDeadEnd` | src/cranelift/code_translator.rs:2700-2746 | computes the translation function |
| `Translator.TranslateOperator` | src/cranelift/code_translator.rs:66-80 | computes the translation function, for every operator |
| `Translator.TranslateFunctionBody` | src/cranelift/func_translator.rs:196-232 | for every valid body, ends with the translated function |
| `TrapTables.LocsApart` | src/compile/mod.rs:274-310 | functions do not overlap in the text |
| `TrapTables.LocsStart` | src/compile/mod.rs:274-310 | a function starts after the code of those before it and all padding up to it |
| `TrapTables.TableBelowEnd` | src/compile/mod.rs:343-375 | the trap table is strictly increasing and inside the text |
| `TrapTables.TableExact` | src/compile/mod.rs:343-375 | the table holds exactly the traps that functions record |
| `TrapTables.TrapsBuilder.PushTraps` | src/compile/mod.rs:351-370 | appends a function's traps; the order assertion holds |
| `TrapTables.LayOut` | src/compile/mod.rs:274-310 | where functions go, and the whole trap table |
| `TrapTables.LookupTrapCode` | src/runtime/code_memory.rs:75-84 | binary search finds a trap exactly if one is recorded at the offset |
| `TrapTables.CodeRegistry.RegisterCode` | src/placeholder/code_registry.rs:36-46 | a text that overlaps no other is registered; the assertion holds |
| `TrapTables.CodeRegistry.LookupCode` | src/placeholder/code_registry.rs:22-28 | the region that contains an address, if there is one |
| `TrapTables.CodeRegistry.TrapAt` | src/placeholder/code_registry.rs:22-28 | an address has a trap exactly if some function of some registered text records it there |
| `Linking.KeyInjective` | src/compile/compile_key.rs:15-56 | keys tell jobs apart and carry their kind |
| `Linking.JobsExact` | src/compile/mod.rs:122-175 | one job per defined function and one trampoline per escaping one |
| `Linking.FromModule` | src/compile/mod.rs:122-175 | the loop collects those jobs |
| `Linking.RequiredBuiltins` | src/compile/mod.rs:199-240 | the builtins that outputs refer to, each once |
| `Linking.IndexOutputs` | src/compile/mod.rs:187-195 | the index finds every output under its kind and key, and nothing else |
| `Linking.Compile` | src/compile/mod.rs:178-196 | an output for every job, made by the compiler; an error means that a job of the module or a required builtin failed |
| `Linking.ResolveReloc` | src/compile/mod.rs:280-293 | a relocation to function `imported + d` is resolved to the output of the job for defined function `d`, one to a builtin to the output of that builtin's trampoline |
| `Linking.TargetIsCallee` | src/compile/mod.rs:280-293 | the code that a relocation is resolved to is what the compiler made of the defined function or builtin it names |
| `Linking.FunctionTable` | src/compile/mod.rs:312-337 | entry `d` locates the output of defined function `d`, with a trampoline exactly if it escapes |
| `Linking.LinkAndFinish` | src/compile/mod.rs:260-340 | all tables at once: where each output lies, that none overlap, and what every relocation is resolved to, by defined function or builtin |
| `ImportLinker.Linker.Get` | src/linker.rs:39-45 | what the name is bound to |
| `ImportLinker.Linker.InternStr` | src/linker.rs:171-181 | numbers are unique and never change; bindings are not affected |
| `ImportLinker.Linker.Insert` | src/linker.rs:148-162 | binds a free name; a taken one is reported and nothing changes |
| `ImportLinker.Linker.AliasModule` | src/linker.rs:52-72 | succeeds exactly if no name is bound in both modules; then copies exactly the bindings; never overwrites one |
| `ImportLinker.Linker.DefineInstance` | src/linker.rs:78-95 | succeeds exactly if no export is bound already; never overwrites a binding |
| `ImportLinker.Linker.ResolveImports` | src/linker.rs:117-142 | the loop computes the specified outcome |
| `ImportLinker.ResolveExact` | src/linker.rs:117-142 | imports resolve exactly if each is bound to its kind; one slot per import in the list of its kind, in order |
| `ImportLinker.ResolveFails` | src/linker.rs:119-137 | the first import that does not fit decides: it is the one reported missing if it is not bound, else the kinds are mismatched |
| `Activations.Thread.Push` | src/placeholder/trap_handling/mod.rs:209-215 | the state becomes the head and remembers the old head |
| `Activations.Thread.Pop` | src/placeholder/trap_handling/mod.rs:218-222 | the old head is restored; the assertion holds |
| `Activations.Thread.RaiseTrap` | src/placeholder/trap_handling/mod.rs:9-13 | a trap is recorded in the head of the chain only |
| `Activations.CallThreadState.Drop` | src/placeholder/trap_handling/mod.rs:236-255 | the three saved fields are written back |
| `Activations.Thread.CallIntoWasm` | src/func.rs:81-151 | a call's outcome is its own body's; while any call runs, nested ones included, the limit in force is its stack pointer less the maximal stack and its state is the head, above its caller's; afterwards the chain, the limits and the saved fields of all contexts are as before |
| `VmContextLayout.ForModule` | src/runtime/vmoffsets.rs:149-194 | groups of slots follow each other without gaps |
| `VmContextLayout.SlotsApart` | src/runtime/vmoffsets.rs:244-388 | every slot is inside the context and different slots do not overlap |
| `VmContextLayout.SlotOffsets` | src/runtime/vmoffsets.rs:244-388 | each accessor is its group's begin plus index times record size |
| `VmContextLayout.StaticOffsets` | src/runtime/vmoffsets.rs:64-112 | the static fields are one pointer apart in order, and the func-refs follow |
| `VmContextInit.FunctionTable.FlagFuncAsEscaped` | src/translate/module_translator.rs:190-198 | func-ref numbers are a bijection onto `0..num_escaped`; numbers given stay |
| `VmContextInit.SetupFromLink` | src/runtime/instance.rs:456-466 | linking and numbering give all that initialisation demands, in particular every trampoline it expects; the table locates each escaping function's own code and trampoline |
| `VmContextInit.Instantiate` | src/runtime/instance.rs:360-501 | from compiled outputs to an initialised context; the func-ref of each escaping defined function reads back with the addresses of the code and trampoline compiled for it, its own instance and its type |
| `VmContextInit.OwnedVMContext.WriteSlot` | src/runtime/instance.rs:495-501 | writing a slot's bytes leaves every other slot readable as before |
| `VmContextInit.InitializeFuncRefs` | src/runtime/instance.rs:445-501 | the slot of every escaping function's number has the import's two addresses and context, or the addresses of own code with the own context, and the function's type |
| `VmContextInit.InitializeVmctx` | src/runtime/instance.rs:360-443 | every func-ref, import, table, memory and global slot reads back, field by field, as the import or definition of that index |

## Left out

- Validation is modelled by operand counts, not operand types, so the theorems hold for every sequence that the typed algorithm accepts, and for more.
- Operators other than constants, addition, drop, select, locals, blocks, branches, return and unreachable: hundreds of arms with one instruction each.
- Values are 32-bit words of one type; the `bitcast` of vectors around branches and returns is left out.
- Locals are mutable variables of the function; declaring parameters and locals, and Cranelift's conversion to SSA form, are not modelled.
- Cranelift and `wasmparser` are represented by the contracts that the code relies on. Block numbers, values and instructions are unbounded.
- Calls, traps of loads and stores, memories, tables and globals in translated code.
- `Arc` pointers of the registry are positions in an arena of entries; the slab is an allocator that returns some unused index.
- Counts, type indices and lengths are unbounded, save for the 32-bit total of the `VMContext` layout, which is a precondition there.
- Locks are taken as atomic steps; memory orderings of the atomic counts are not modelled.
- Errors while reading the binary format, and constant-expression evaluation, whose results are given.
- Linking.LinkAndFinish: padding and veneers that the text builder inserts are arbitrary gaps before each function; that a builtin trampoline refers to no further builtin, and that no relocation names an imported function, is demanded of the compiler, since the code would fail on it.
- TrapTables.CodeRegistry.RegisterCode: texts are given not to overlap, and traps to lie inside their function in increasing order.
- Activations.Thread.CallIntoWasm: `setjmp` and `longjmp` are one event; what runs in between is any tree of nested calls and register writes.
- VmContextInit.InitializeVmctx: `copy_nonoverlapping` of imports is a write per slot; the fields `stack_limit` and `last_wasm_*` are not initialised there.
- ImportLinker.Linker.DefineInstance: exports have different names, as validation demands.
- 16-byte alignment of global slots: the layout inserts no padding.
- Bounds-check elision, memory maps, signal handlers, backtraces, custom sections and `Display` implementations.
