# Penampakan in Dafny

A model of the parts of Penampakan that other parts rely on without looking: the provider
schema compiler, the sharing of perception results between callers, the context compiler, the
bounded question run with its budget, assets and trace, the two bounded caches, the rotating
trace log, result normalization and backend routing. `dafny verify dfyconfig.toml` checks all
of it.

## What is modelled

**Schemas.** `ActionSchemas` gives schemas their meaning: `Accepts` is the action validator
with its verdict only. `SchemaCompiler` is the lowering to a provider's strict subset beside
the restoration the compiler keeps; `SchemaPruning` is the removal of forced nulls and the
branch selection it needs. `SchemaExclusion`, `SchemaMeaning` and `SchemaCompletion` show that
an admitted union means the same before and after lowering, that pruning is sound, and that
every source value has a compiled form that prunes back. `SchemaConservation` says, of the
values alone, that pruning takes away nulls only and completion adds nulls only;
`SchemaStrictness` what a compiled tree may contain and what it must keep. `SchemaGuidance`
states what pruning needs of a union for that: that it follows the branch that accepts;
`SchemaSoundness` says exactly when a discriminated union is sound, and `SchemaNarrowing`
exactly when compiling an object node keeps all it accepts. `SchemaTermination` derives the
termination of the validator and of pruning, which have no guard of their own, from the
compiler's depth limit. `SchemaRoundTrip` and `SchemaSelection` say exactly when the round-trip
check passes and when pruning finds the branch the provider used; `SelectionExamples` holds the
schemas that mark this out. `SchemaRoot` puts the pieces into the envelope. `SchemaLinking` and
`ActionSchemaBuilder` are the merging of many tools' schemas into one; `LinkedValues` is what
the linker does inside constants, and `LinkingExamples` what it can spoil there.
`ActionCompilation` shows that the result compiles whenever the tools' own schemas do.
`ActionForms` says in JSON terms what an answer and a call are, and `ActionDelivery` goes the
whole way from the tools' schemas to the provider and back.

**Perception.** `PerceptionProtocol` is a step system over callers, flights and a cache;
routing, cancellation, eviction, cache failures and closing are steps of the environment that
may come at any point. `PerceptionInvariant` shows what every step keeps, `PerceptionSharing`
what all runs promise and `PerceptionProgress` what a waiter can still reach. Keys are hashes
of everything a caller can see of an asset, a request and a backend, taken as injective.
`BackendRouters` is the routing inside one population.

**Context.** `ContextLines` serializes and truncates one observation, `ContextCompilation`
selects greedily, `ContextMaterialization` removes worst-first around an omission record that
grows meanwhile, and `ContextCompiler` states what the finished context promises.
`ContextExact` says the same of the text and the request alone: what is shown, what was left
out for want of room, what ranks first, and which assets count.

**Runs.** `RunBudgets`, `AssetStores` and `AskRuns` are the budget, the content-addressed store
and the question loop. The policy and the tools are arbitrary functions of the call and of the
step: adversaries. `TraceLogs` and `TraceBuilders` are the event log and its counters.

**Storage and results.** `LruCaches`; `SqliteTables` and `SqliteCaches`, with the table as a
map and every operation one transaction; `JsonlFiles` and `JsonlSinks`, with the directory as a
map from generation to bytes; `TextCleaning`, `VisionResults` and `Normalization`, with
`NormalizationExact` for what a normalized result says of the reported one.

Objects that the repository updates in place are classes here, with the same fields and
methods; what a method does is stated about the old and the new state, and what follows from
that over runs is stated in the lemmas beside it. `Sequences` and `JsonValues` are shared.

## Where a property needs a condition

- Pruning is sound, and undoes completion, where at every union it follows the branch that
  accepts (`SchemaGuidance.SentGuided`, `SchemaGuidance.SourceGuided`). Either of two
  conditions is enough: constants and declared types tell the branches apart
  (`SchemaPruning.Decided`), or no branch tolerates another's constants
  (`SchemaSelection.SelectionExact`, which is exact for selection).
  `SelectionExamples.GuidedIsMoreThanDecided` meets the second only. Sending needs neither. For
  a discriminated union `SchemaSoundness.SoundnessExact` gives the exact condition.
- The exclusion check admits `oneOf` branches that only a forbidden property separates; pruning
  compares constants alone and then selects no branch
  (`SelectionExamples.ExclusivityIsNotEnough`). The generated action schema is not of that
  kind, since `type` and `tool` are shared constants.
- A union branch that is itself a union is never selected by pruning
  (`SchemaSelection.NestedUnionIsNeverSelected`), so what is null inside it stays
  (`SelectionExamples.NestedUnionFails`).
- A node with `properties` but no `type`, or with nothing said of further members, is given
  `type: object` and closed, so compiling narrows it (`SchemaNarrowing.UntypedIsNarrowed`,
  `SchemaNarrowing.OpenIsNarrowed`); `SchemaNarrowing.NarrowingExact` is the exact condition,
  and `SchemaPruning.Plain` asks for both to be stated.
- The linker renames `$ref` members inside constants and choices too. A constant that holds one
  naming a local definition then asks for another value, and `oneOf` branches known by such
  constants can become equal (`LinkingExamples.LinkedConstantIsRefused`,
  `LinkingExamples.LinkedBranchesCoincide`). `SchemaLinking.LinkFree` is the condition that
  linking keeps meaning under, exact for a constant (`LinkingExamples.ConstantLinkingExact`);
  compiling asks it of discriminators only (`ActionCompilation.DiscriminatorsLinkFree`).
  Schemas with scalar constants meet both (`ActionDelivery.PlainIsLinkFree`).
- The round-trip check trips on a property named like a dropped keyword or `properties`, and on
  a constant object that holds such a member or that looks like an unfinished object schema; it
  looks at nothing below a property named `title` (`SchemaRoundTrip.RoundTripExact`,
  `SchemaRoundTrip.DroppedNameInConstantFails`).
- A definition whose name has other characters than letters, digits and underscores links to a
  name the compiler refuses (`ActionCompilation.LinkedNameIsValid`).
- Linked definition names can collide for distinct tools, and the later definition then
  replaces the earlier one silently (`SchemaLinking.MergeExact`).
- A second normalization is refused when the warnings of the first push the size of the
  response past a limit, and only then (`Normalization.NormalizingAgainChangesNothing`,
  `Normalization.SecondPassCanExceedLimits`).
- The store, the budget and the trace agree on derived assets when a tool renders as many
  images as its arguments reserve; the difference otherwise is carried explicitly. A failure to
  record a commit ends the run before the trace hears of it, and then the store and the budget
  agree without the trace (`AskRuns.AskRun.ExecuteAction`).
- In the budget, the extra test for a repair call outside the final decision never refuses what
  the test before it allows.

## Model

| member | source | states |
|---|---|---|
| SchemaExclusion.ExclusiveRejectsBoth | src/penampakan/llms/schema.py:396-406 | Two closed branches that the exclusion test separates never both accept a value. |
| SchemaExclusion.LowerKeepsConsts | src/penampakan/llms/schema.py:324-356 | Compiling and restoring an object keep its discriminators and its property names, optional properties included. |
| SchemaExclusion.AdmittedBranchesAreDisjoint | src/penampakan/llms/schema.py:409-422 | When a union passes the mutual-exclusion check, no value is accepted by two of its compiled branches, nor by two restored ones, whatever was dropped. |
| SchemaExclusion.AdmittedSourceBranchesAreDisjoint | src/penampakan/llms/schema.py:409-422 | The same for the source branches, once their objects are closed. |
| SchemaExclusion.LoweredOneOfAgreesWithAnyOf | src/penampakan/llms/schema.py:307-322 | Lowering `oneOf` to `anyOf` keeps the meaning of an admitted union. |
| SchemaPruning.PruneKeepsShape | src/penampakan/llms/schema.py:650-706 | Pruning leaves scalars alone, objects objects and arrays as long as they were. |
| SchemaPruning.ResolveCommutes | src/penampakan/llms/schema.py:606-620 | Following references in the compiled definitions gives the compiled form of what they give in the source. |
| SchemaPruning.FittingBranchIsSelected | src/penampakan/llms/schema.py:623-647 | A container that fits one branch of a decided union makes that branch the only candidate. |
| SchemaGuidance.LoweredBranchIsSelected | src/penampakan/llms/schema.py:623-647 | Where constants and declared types tell the branches apart, the branch whose compiled form accepts a container is the one selected against the source. |
| SchemaGuidance.SourceBranchIsSelected | src/penampakan/llms/schema.py:623-647 | There, too, the branch that accepts a source container is the one selected. |
| SchemaMeaning.NullableRejectsOnlyNull | src/penampakan/llms/schema.py:365-372 | A non-null value accepted by the nullable form is accepted by the property itself. |
| SchemaGuidance.ApartIsFollowed | src/penampakan/llms/schema.py:688-706 | There pruning against the union is pruning against any branch that accepts, for what a provider sends and for what the source accepts. |
| SchemaGuidance.DecidedIsGuided | src/penampakan/llms/schema.py:650-706 | A schema all of whose unions are told apart like that is guided: at every union, through references and nesting, pruning follows the accepting branch. |
| SchemaMeaning.RestoredUnionAccepts | src/penampakan/llms/schema.py:307-322 | A value accepted by one restored branch is accepted by the restored union, `oneOf` included. |
| SchemaMeaning.PrunedIsAccepted | src/penampakan/llms/schema.py:650-706 | Soundness of pruning: where pruning a union follows the branch that accepts, what the compiled schema accepts is, once pruned, accepted by the source without its dropped keywords, through references, unions, objects and arrays. |
| SchemaCompletion.NullableAcceptsMore | src/penampakan/llms/schema.py:365-372 | The nullable form of a compiled property accepts all that the property accepts. |
| SchemaCompletion.NullableAcceptsNull | src/penampakan/llms/schema.py:365-372 | The nullable form accepts null. |
| SchemaCompletion.CompletedIsAccepted | src/penampakan/llms/schema.py:324-356 | Completeness, for every schema the compiler admits whose objects state their type and closure: a value the source accepts, with nulls filled in for absent optional properties, is accepted by the compiled schema. |
| SchemaNarrowing.NarrowingExact | src/penampakan/llms/schema.py:324-356 | Compiling an object node keeps all it accepts, completed, if and only if the node accepts closed objects only. |
| SchemaNarrowing.UntypedIsNarrowed | src/penampakan/llms/schema.py:324-356 | With properties and no type, constant or choices, null is accepted by the source and refused by the compiled form. |
| SchemaNarrowing.OpenIsNarrowed | src/penampakan/llms/schema.py:324-356 | Where a node says nothing of further members, any accepted object with one more is accepted by the source and refused by the compiled form. |
| SchemaCompletion.PruneUndoesCompletion | src/penampakan/llms/schema.py:650-706 | Pruning the completed value gives what pruning the original gives, where pruning follows both; that this is the original itself when it holds no null is `SchemaConservation.NullFreeRoundTrips`. |
| SchemaCompletion.AnthropicNeedsNoCompletion | src/penampakan/llms/schema.py:121-163 | For the target with optional fields the completed value is the value itself. |
| SchemaConservation.PruneRemovesOnlyNulls | src/penampakan/llms/schema.py:650-706 | For every value and every schema: what pruning takes away, at any depth, is a null member of an object; it adds nothing and changes nothing else. |
| SchemaConservation.NullFreeIsNotPruned | src/penampakan/llms/schema.py:650-706 | A value that holds no null member is returned unchanged, by every schema. |
| SchemaConservation.NodeLosesOptionalNulls | src/penampakan/llms/schema.py:675-692 | Against an object node a member is lost if and only if it is null and not required. |
| SchemaConservation.CompletionAddsOnlyNulls | src/penampakan/llms/schema.py:324-356 | Completing a value for a strict target adds null members only. |
| SchemaConservation.NullFreeRoundTrips | src/penampakan/llms/schema.py:650-706 | A value without null members that the source accepts, completed for a strict target and pruned, is the value itself, where pruning follows both. |
| SchemaStrictness.LoweredIsStrict | src/penampakan/llms/schema.py:307-356 | Whatever the source says, its compiled form stays inside the provider's subset at every depth: no `oneOf`, no keyword the target's table drops, objects typed and closed, requiring only what they list and, for OpenAI, all they list. |
| SchemaStrictness.LoweringKeepsTable | src/penampakan/llms/schema.py:324-356 | And nothing the table has room for is lost: the facets are the source's without its dropped keywords, in order; constants, choices, property names and requirements stay. |
| SchemaTermination.MeasuredIsAcyclic | src/penampakan/llms/schema.py:444-487 | A compiled schema that passes the depth limit comes from a source in which every reference path resolves and meets no definition twice. |
| SchemaTermination.AcyclicIsBounded | src/penampakan/llms/schema.py:444-487 | An acyclic schema has a bound on the steps any traversal takes. |
| SchemaTermination.ValidationTerminates | src/penampakan/llms/schema.py:733-796 | On an acyclic schema the validator, which has no guard of its own, returns for every instance, and its verdict is the one defined here. |
| SchemaTermination.PruningTerminates | src/penampakan/llms/schema.py:606-706 | On an acyclic schema pruning and resolution return for every value, with the value defined here. |
| SchemaRoundTrip.RoundTripExact | src/penampakan/llms/schema.py:490-555 | The restored tree equals the stripped source, so the check passes, exactly on schemas with `required` and `additionalProperties` on objects only, no competing type on a node with properties, no property named like a dropped keyword or `properties`, and constants that stripping leaves alone; nothing below a `title` property is looked at. |
| SchemaRoundTrip.ValuesRoundTrip | src/penampakan/llms/schema.py:490-507 | Stripping leaves constants and choices alone, titles aside, exactly when they hold no member under a dropped name and whatever looks like an object schema in them is already complete and closed. |
| SchemaRoundTrip.DroppedNameInConstantFails | src/penampakan/llms/schema.py:490-507 | A constant object with a member named `default` compiles and then fails the check, whatever the member is. |
| SchemaRoundTrip.DropsByName | src/penampakan/llms/schema.py:66-104 | A facet is dropped by the compiler exactly when stripping drops its keyword. |
| SchemaRoundTrip.StrippedFacetsAreKept | src/penampakan/llms/schema.py:490-507 | So the facets the restored node keeps are those stripping leaves, in order. |
| SchemaSelection.ConfusionExact | src/penampakan/llms/schema.py:623-647 | A value accepted by one branch can also make another a candidate exactly when the first tolerates all constants of the second. |
| SchemaSelection.SelectionExact | src/penampakan/llms/schema.py:623-647 | For a discriminated union, pruning selects the accepting branch on every accepted value if and only if no branch tolerates the constants of another. |
| SchemaSelection.UnconfusedIsFollowed | src/penampakan/llms/schema.py:623-647 | Such a union is followed by pruning, for what a provider sends and for what the source accepts, because completing a value neither adds nor removes a candidate. |
| SchemaSelection.UnconfusedUnionIsSound | src/penampakan/llms/schema.py:650-706 | So pruning is sound on it as soon as it is on its branches. |
| SchemaSoundness.SoundnessExact | src/penampakan/llms/schema.py:623-706 | Pruning is sound on a discriminated union with sound branches if and only if every branch that accepts something and tolerates another's constants sends, beside those constants, only members that its restored form accepts. |
| SchemaSelection.NestedUnionIsNeverSelected | src/penampakan/llms/schema.py:623-647 | A branch that resolves to a union is never selected. |
| SelectionExamples.ExclusivityIsNotEnough | src/penampakan/llms/schema.py:396-406 | Two branches separated only by a forbidden property: the whole action schema compiles strictly, a provider may send a value under its envelope, and the pruned value fails the restored schema. For every three distinct names that stripping does not take for keywords. |
| SelectionExamples.GuidedIsMoreThanDecided | src/penampakan/llms/schema.py:623-647 | An action schema that compiles strictly and that constants and types do not tell apart, which pruning follows both ways all the same. |
| SelectionExamples.NestedUnionFails | src/penampakan/llms/schema.py:623-647 | A union inside a union: the whole action schema compiles strictly, a provider may send a value under its envelope, and the pruned value fails the restored schema, for any property names that stripping does not take for keywords. |
| SelectionExamples.FailureSpoilsAction | src/penampakan/llms/schema.py:510-544 | Whatever union fails by itself at a value fails inside an action that compiles strictly, at a value a provider may send. |
| SchemaRoot.CompiledIsAcyclic | src/penampakan/llms/schema.py:472-487 | Compiling strictly is itself the proof that the source has no cyclic reference. |
| SchemaRoot.EnvelopeCarries | src/penampakan/llms/schema.py:433-441 | The envelope accepts an action exactly when the compiled root does. |
| SchemaRoot.ProviderActionIsAccepted | src/penampakan/llms/schema.py:510-544 | What a provider may send under the strict envelope is, once unwrapped and pruned, accepted by the source without its dropped keywords, where pruning follows what is sent. |
| SchemaRoot.EveryActionCanBeSent | src/penampakan/llms/schema.py:510-544 | Every action the source accepts can be sent under the envelope of any schema that compiles. |
| SchemaRoot.EveryActionArrives | src/penampakan/llms/schema.py:650-706 | And it arrives as the source action without some of its null members, and as itself when it has none, where pruning follows what is sent and what is meant. |
| SchemaRoot.DroppingWidens | src/penampakan/llms/schema.py:490-507 | Dropping keywords only widens what is accepted, `oneOf` included. |
| SchemaLinking.PointerTokensInjective | src/penampakan/reasoning/prompts.py:125-126 | Escaping of definition names into reference tokens is injective. |
| LinkedValues.RewritingExact | src/penampakan/reasoning/prompts.py:129-141 | Renaming references inside a value changes it, also as Python compares, exactly when it holds such a member. |
| SchemaLinking.LinkingKeepsMeaning | src/penampakan/reasoning/prompts.py:129-160 | While no constant or choice of a tool holds a string member `$ref` that names a local definition, a value is accepted by the tool's schema with its own definitions exactly when it is accepted by the embedded schema with the merged, renamed ones. |
| LinkingExamples.ConstantLinkingExact | src/penampakan/reasoning/prompts.py:129-141 | Linking keeps the meaning of a constant exactly when the constant holds no such member. |
| LinkingExamples.LinkedConstantIsRefused | src/penampakan/reasoning/prompts.py:129-160 | A constant that is a link to a local definition is accepted by the tool's own schema and refused by its linked one, for every tool and definition. |
| LinkingExamples.LinkedBranchesCoincide | src/penampakan/reasoning/prompts.py:129-160 | Two `oneOf` branches known by a link and by what linking makes of it compile on their own and are refused once linked. |
| SchemaLinking.MergeExact | src/penampakan/reasoning/prompts.py:144-160 | The merged table keeps every tool's definitions if and only if no two tools put different definitions under one linked name. |
| SchemaLinking.DistinctToolsCanCollide | src/penampakan/reasoning/prompts.py:153-154 | Distinct tool names do not prevent that: `a` with `b__c` and `a__b` with `c` link alike, and every text that `a` accepts is refused by its linked schema. |
| SchemaLinking.CollidingToolIsMisjudged | src/penampakan/reasoning/prompts.py:144-160 | Whenever two definitions link alike, the first tool's arguments are judged by the second tool's definition. |
| SchemaLinking.SafeNamesDoNotCollide | src/penampakan/reasoning/prompts.py:153-154 | For tool names without a double or a trailing underscore, a linked name determines the tool and the definition. |
| SchemaLinking.SafeToolsAreCompatible | src/penampakan/reasoning/prompts.py:144-160 | So distinct tools with such names merge without loss. |
| ActionSchemaBuilder.CollectTools | src/penampakan/reasoning/prompts.py:192-201 | The tool loop refuses exactly when a name is declared twice; otherwise it yields one branch a tool, in order, and the merged definitions. |
| ActionSchemaBuilder.BuildActionSchema | src/penampakan/reasoning/prompts.py:186-210 | The branches and definitions of the generated schema, in answer-only mode too. |
| ActionSchemaBuilder.GeneratedBranchesAreTagged | src/penampakan/reasoning/prompts.py:163-201 | Distinct tools give branches that a shared constant tells apart, pair by pair. |
| ActionSchemaBuilder.GeneratedSchemaIsAdmitted | src/penampakan/reasoning/prompts.py:186-210 | The compiler's exclusion check passes on the generated union, and pruning decides it at the root. |
| ActionCompilation.LowerCommutes | src/penampakan/llms/schema.py:324-356 | Renaming references commutes with compiling. |
| ActionCompilation.EmbeddedCompiles | src/penampakan/reasoning/prompts.py:129-160 | Linking keeps a schema compilable, its unions exclusive included, when the constants that tell its `oneOf` branches apart hold no link. |
| ActionCompilation.EmbeddedIsRegular | src/penampakan/reasoning/prompts.py:129-160 | Linking keeps a schema regular for the round-trip check, renamed constants included. |
| ActionCompilation.EmbeddedDepth | src/penampakan/reasoning/prompts.py:129-160 | Linking keeps the nesting depth. |
| ActionCompilation.MergedNamesAreSafe | src/penampakan/reasoning/prompts.py:153-154 | No linked name is taken for a keyword by the round-trip check. |
| ActionCompilation.LinkedNameIsValid | src/penampakan/llms/schema.py:519-520 | For a tool name in lower case, the compiler takes a linked name exactly when the local one has only letters, digits and underscores. |
| ActionCompilation.MergedCompile | src/penampakan/reasoning/prompts.py:144-160 | Every merged definition has an admitted name, compiles and round-trips, when the tools' own schemas do and their discriminators hold no link. |
| ActionCompilation.GeneratedCompiles | src/penampakan/reasoning/prompts.py:186-210 | Distinct tools whose own schemas compile, names included, whose discriminators hold no link and whose definitions do not collide, generate a schema that compiles strictly, for both targets and in answer-only mode. |
| ActionDelivery.LinkingKeepsPruning | src/penampakan/llms/schema.py:650-706 | While no constant holds a link, pruning against the linked schema with the merged definitions is pruning against the tool's own. |
| ActionDelivery.PlainIsLinkFree | src/penampakan/reasoning/prompts.py:129-141 | A schema whose constants and choices are scalars holds no link. |
| ActionDelivery.EmbeddedIsSentGuided | src/penampakan/reasoning/prompts.py:129-160 | Then linking keeps pruning following what a provider sends. |
| ActionDelivery.EmbeddedIsSourceGuided | src/penampakan/reasoning/prompts.py:129-160 | And what the source accepts. |
| ActionDelivery.GeneratedIsGuided | src/penampakan/reasoning/prompts.py:186-210 | Distinct tools with definitions that do not collide generate a schema whose pruning follows what is sent, or what is meant, if it does so for every tool; the root needs nothing more. |
| ActionDelivery.RestoreCommutes | src/penampakan/reasoning/prompts.py:129-141 | Renaming references commutes with dropping keywords. |
| ActionDelivery.RestoredArgumentsAreTheTools | src/penampakan/reasoning/prompts.py:144-160 | The restored linked arguments schema accepts exactly what the tool's own restored schema accepts. |
| ActionForms.AnswerExact | src/penampakan/reasoning/prompts.py:72-122 | The answer branch, as written or restored for a target, accepts exactly the answers: an object with `type`, one of the two statuses, a text and nothing but evidence and uncertainties beside them, with the lengths and patterns that reading has. |
| ActionForms.CallExact | src/penampakan/reasoning/prompts.py:163-183 | A tool's branch accepts exactly the calls of that tool: four members, its name, a purpose, and arguments its linked schema accepts. |
| ActionForms.AnswerIsNullFree | src/penampakan/reasoning/prompts.py:72-122 | No answer holds a null member. |
| ActionDelivery.ToolBranchCalls | src/penampakan/reasoning/prompts.py:144-183 | A tool's branch under the merged definitions accepts exactly the calls of that tool with arguments its own schema accepts. |
| ActionDelivery.ToolBranchServes | src/penampakan/reasoning/prompts.py:144-183 | The same for the restored branch and the tool's restored schema. |
| ActionDelivery.GeneratedExact | src/penampakan/reasoning/prompts.py:186-210 | The generated schema accepts exactly the answers and, unless only an answer will do, the calls of declared tools with arguments their own schemas accept. |
| ActionDelivery.DeliveredActionServesItsTool | src/penampakan/llms/schema.py:566-603 | End to end: what a provider may send under the compiled envelope of the generated schema is, once pruned, a complete answer, or a complete call of a declared tool whose arguments that tool's own schema accepts, dropped keywords apart. Only the tools' own schemas are asked anything. |
| ActionDelivery.EveryToolCallCanBeSent | src/penampakan/llms/schema.py:510-544 | The other way: every call of a declared tool with arguments its own schema accepts can be sent under the envelope. |
| ActionDelivery.EveryToolCallArrives | src/penampakan/llms/schema.py:650-706 | And it arrives as the same call, its arguments pruned as the tool's own schema with its own definitions would prune them; as itself when they hold no null member. Only the called tool's schema has to be followed by pruning. |
| ActionDelivery.EveryAnswerArrives | src/penampakan/llms/schema.py:650-706 | Every answer can be sent under the envelope and arrives as itself, whatever the tools' own schemas are like for pruning. |
| PerceptionInvariant.StepKeepsInv | src/penampakan/session.py:1474-1650 | Every step of every caller, flight, cache and close keeps the protocol invariant. |
| PerceptionSharing.RunKeepsInv | src/penampakan/session.py:1474-1650 | It holds in every state of every run. |
| PerceptionSharing.AttributionIsSafe | src/penampakan/session.py:1590-1650 | In every state of every interleaving, the backend an outcome credits has the perception key of the backend that produced the bytes, and is that backend unless the outcome says cache hit; cached bytes sit under the key of their producer, and a durable cache holds none of a model without a revision. |
| PerceptionSharing.FreshnessIsEarned | src/penampakan/session.py:1590-1632 | Said of the steps of a run alone: an outcome is a cache hit if and only if no step routed the caller's own work, for a flight it began or on being asked again; if one did, that backend is credited and produced the bytes, and otherwise the caller's first candidate is credited. |
| PerceptionSharing.AskedAgainForCause | src/penampakan/session.py:1609-1615 | A backend is asked a second time for a caller only after it was handed bytes of another identity than its own. |
| PerceptionSharing.BytesHaveAnOrigin | src/penampakan/session.py:1590-1632 | Whatever bytes a state of a run holds were in the cache at the start or were answered by a backend in an earlier step, for the asset and request of the caller that asked. |
| PerceptionSharing.OutcomeHasAnOrigin | src/penampakan/session.py:1609-1632 | So the bytes of every outcome were. |
| PerceptionSharing.KeptCanBeHit | src/penampakan/session.py:1604-1607 | What is stored, and may be, is a cache hit for the next caller of its key. |
| PerceptionSharing.JoiningShares | src/penampakan/perception/cache.py:331-356 | In every run a caller that joins while a population of its key is live waits for that one, and none is started beside it. |
| PerceptionSharing.OrphansAreCancelled | src/penampakan/perception/cache.py:358-395 | A population that is not settled is being cancelled as soon as nobody holds it or the coordinator is closed. |
| PerceptionProgress.SharedIsDelivered | src/penampakan/session.py:1609-1632 | A waiter that nobody cancels, on a flight that is done, gets the bytes the flight produced if they have its identity or it routed them, as a cache hit only in the first case. |
| PerceptionProgress.AnotherIsReplaced | src/penampakan/session.py:1609-1632 | A waiter handed bytes of another identity gets those of whichever of its own candidates answers, as fresh ones of that backend. |
| PerceptionProgress.ClosedStartsNothing | src/penampakan/perception/cache.py:331-371 | Once closed, the coordinator stays closed and starts no population. |
| PerceptionSharing.FlightsAreSingle | src/penampakan/perception/cache.py:331-395 | A registered flight counts exactly the callers that joined and have not released, and no key has two live populations. |
| PerceptionSharing.CancelledByLastReleaseOrClose | src/penampakan/perception/cache.py:384-395 | The coordinator cancels a population only on its last release or on close. |
| PerceptionSharing.SettledStays | src/penampakan/perception/cache.py:331-356 | The result of a settled flight never changes. |
| PerceptionSharing.WaitersAgree | src/penampakan/perception/cache.py:331-356 | All callers that waited on one flight received the same result, whenever they woke. |
| PerceptionSharing.RecheckIsReached | src/penampakan/session.py:1610-1615 | The re-check is needed: a run exists in which a waiter holds bytes of another key with nothing routed of its own. |
| ContextLines.PrefixIsLineSafe | src/penampakan/reasoning/context.py:424-431 | A text within the maximum is kept whole; a longer one up to the last line end within the maximum, or up to the maximum when there is none. |
| ContextLines.PrefixExact | src/penampakan/reasoning/context.py:424-431 | Nothing else meets that: the prefix is determined by the text and the maximum. |
| ContextLines.EscapingReadsBack | src/penampakan/reasoning/context.py:409-415 | An escaped text reads back as the text. |
| ContextLines.DecimalReadsBack | src/penampakan/reasoning/context.py:409-415 | The written count of truncated characters reads back as the number. |
| ContextLines.PrefixGrows | src/penampakan/reasoning/context.py:424-431 | A larger maximum never gives a shorter prefix. |
| ContextLines.TruncatedLineGrows | src/penampakan/reasoning/context.py:409-415 | The length of the truncated record never falls as its cut grows: escapes and the width of `truncated_chars` included. |
| ContextLines.SearchCut | src/penampakan/reasoning/context.py:406-421 | The binary search returns the last cut that fits, or nothing when none does. |
| ContextLines.LongestFitKeepsLongestPrefix | src/penampakan/reasoning/context.py:401-421 | Said of the text itself: the record returned keeps a line-safe prefix, and no longer line-safe prefix has a record that fits. |
| ContextLines.NoFitMeansNoPrefixFits | src/penampakan/reasoning/context.py:401-421 | Returning nothing means that no line-safe prefix has a record that fits. |
| ContextLines.TruncateObservationLine | src/penampakan/reasoning/context.py:401-421 | Only caption and text observations are truncated; the result is the longest fit. |
| ContextCompilation.SortKeepsItems | src/penampakan/reasoning/context.py:191-191 | The sort permutes. |
| ContextCompilation.SortOrders | src/penampakan/reasoning/context.py:68-70 | The sort orders by pin group, score downwards and age. |
| ContextCompilation.UsedIsJoinedLength | src/penampakan/reasoning/context.py:169-190 | The running count is the length of the joined lines. |
| ContextCompilation.Offer | src/penampakan/reasoning/context.py:180-188 | What one item is offered: its whole line, else its longest truncation, else nothing. |
| ContextCompilation.TakeAll | src/penampakan/reasoning/context.py:176-190 | The greedy loop: every choice is made with exactly the room left by the earlier ones. |
| ContextCompilation.SelectLines | src/penampakan/reasoning/context.py:154-192 | The sorted greedy selection fits the room left beside the reserve; it fails exactly when the fixed parts or the mandatory line do not fit. |
| ContextMaterialization.CountsAddUp | src/penampakan/reasoning/context.py:434-447 | The counts by kind add up to the number of omitted observations. |
| ContextMaterialization.OmittedIsOrdered | src/penampakan/reasoning/context.py:203-212 | The omission record lists observations by age. |
| ContextMaterialization.DescribedPartitions | src/penampakan/reasoning/context.py:202-230 | Visible and omitted identifiers partition the observations at every stage. |
| ContextMaterialization.StageKeepsBest | src/penampakan/reasoning/context.py:231-234 | After any number of removals what is left is the best-ranked part of what was removable, with the mandatory item. |
| ContextMaterialization.WorstRemovable | src/penampakan/reasoning/context.py:231-234 | The item removed is the worst-ranked removable one; none is found only when none is removable. |
| ContextMaterialization.RemoveUntilFits | src/penampakan/reasoning/context.py:194-234 | Materialization returns the first stage that fits and fails only when every stage overflows. |
| ContextCompiler.AncestorClosure | src/penampakan/reasoning/context.py:493-511 | The eligible assets are the seeds and all their recorded ancestors, and nothing else, on cyclic parent records too. |
| ContextCompiler.RankEligible | src/penampakan/reasoning/context.py:119-144 | The ranking holds exactly the eligible observations, each with its rank, in order. |
| ContextCompiler.Compile | src/penampakan/reasoning/context.py:94-152 | The context is the first fitting stage of the greedy selection over the ranking, mandatory item first, within the limit; failure means that the fixed parts or every stage of that selection overflow. |
| ContextCompiler.RootMetadataStaysVisible | src/penampakan/reasoning/context.py:469-480 | Whenever root metadata exists, one such observation is visible. |
| ContextCompiler.ContextPartitions | src/penampakan/reasoning/context.py:219-230 | Visible and omitted identifiers partition the observations, and the counts agree. |
| ContextCompiler.RemovedAreWorst | src/penampakan/reasoning/context.py:231-234 | The removals are the worst-ranked non-mandatory items, one a stage. |
| ContextCompiler.NothingRemovedWithinReserve | src/penampakan/reasoning/context.py:160-161 | Nothing is removed while the omission record stays within its reserve. |
| ContextExact.RenderShows | src/penampakan/reasoning/context.py:450-456 | The text begins with the question under its header, ends with the omission record, and has every line on a line of its own. |
| ContextExact.VisibleIsShown | src/penampakan/reasoning/context.py:202-230 | Every visible identifier is that of an eligible observation which the text shows on a line of its own: whole, or as the record of a line-safe prefix of its text; the record of what is omitted ends the text. |
| ContextExact.OmissionRecordShows | src/penampakan/reasoning/context.py:434-447 | The record tells how much is omitted, names every omitted observation and gives the number of every kind that occurs among them. |
| ContextExact.CountsExact | src/penampakan/reasoning/context.py:434-447 | A kind is counted exactly when it occurs, with its number. |
| ContextExact.GreedyExact | src/penampakan/reasoning/context.py:176-190 | Measured on the rendered text: an item gets its whole line if the text with everything taken before it and that line, and 512 characters for omissions, is within the limit; otherwise the longest record that would be, and nothing when none would. |
| ContextExact.RankingExact | src/penampakan/reasoning/context.py:268-316 | Warnings, pinned observations and those of the previous action rank first, then root metadata, the previous answer's and those in conflict; among equals the more relevant goes first, then the older. |
| ContextExact.MandatoryIsBest | src/penampakan/reasoning/context.py:469-480 | What is never left out is the best ranked root metadata, whenever there is any. |
| ContextExact.ParentsExact | src/penampakan/reasoning/context.py:492-496 | An asset's parent is the one its last transform observation names. |
| ContextExact.EligibleExact | src/penampakan/reasoning/context.py:483-511 | With relevant assets given, eligible are exactly the observations of the least set of assets that holds the root, the relevant ones, their lineage and those of kept observations, and with every asset its parent. |
| RunBudgets.RunBudget.constructor | src/penampakan/reasoning/budget.py:50-67 | All counters start at zero, within limits. |
| RunBudgets.RunBudget.ReserveStep | src/penampakan/reasoning/budget.py:136-144 | A step is refused exactly at its limit, the last one kept for the answer; nothing else changes. |
| RunBudgets.RunBudget.ReserveLlmCall | src/penampakan/reasoning/budget.py:146-164 | A call is refused exactly at its limit, the last one kept for the final call; the separate repair test never decides. |
| RunBudgets.RunBudget.ReservePolicyDecision | src/penampakan/reasoning/budget.py:166-180 | Both or neither are reserved. |
| RunBudgets.RunBudget.ReserveToolCall | src/penampakan/reasoning/budget.py:182-190 | Tool calls stay within their limit. |
| RunBudgets.RunBudget.ReserveBackendCall | src/penampakan/reasoning/budget.py:192-200 | Backend calls stay within their limit. |
| RunBudgets.RunBudget.RefundUnstartedBackendCall | src/penampakan/reasoning/budget.py:202-209 | A refund never exceeds what was reserved. |
| RunBudgets.RunBudget.ReserveDerivedAssets | src/penampakan/reasoning/budget.py:211-223 | A whole fan-out is reserved or none of it, one level below its parent. |
| RunBudgets.RunBudget.RefundReusedAssets | src/penampakan/reasoning/budget.py:225-232 | A refund never exceeds what was reserved. |
| RunBudgets.RunBudget.SoftStopReason | src/penampakan/reasoning/budget.py:127-134 | No reason is given exactly when another decision can start. |
| AssetStores.FullNameIsUnique | src/penampakan/image/assets.py:431-437 | A full-length identifier names one digest only. |
| AssetStores.AllocateId | src/penampakan/image/assets.py:430-437 | Allocation never fails, and gives the shortest prefix not taken by another digest. |
| AssetStores.CommitsKeepConsistent | src/penampakan/image/assets.py:388-427 | One commit keeps the bijection of identifiers and digests, the order of parents before children, and the depths. |
| AssetStores.CommitsAllKeepsConsistent | src/penampakan/image/assets.py:372-428 | A whole batch keeps them too, and grows the store by its new commits. |
| AssetStores.CommitsAllAddsNewDigests | src/penampakan/image/assets.py:345-352 | A batch adds exactly its distinct new digests, so the capacity check made before it is exact. |
| AssetStores.CommitsAllExact | src/penampakan/image/assets.py:372-428 | Nothing that was there is touched, and each digest of a batch gets one asset: the known one or the one committed earlier in the batch, reused as it is, or a new one, one level below the parent. |
| AssetStores.AssetStore.DerivedCountExact | src/penampakan/image/assets.py:305-314 | The count the capacity is checked against is the number of assets that have a parent. |
| AssetStores.PlanOne | src/penampakan/image/assets.py:388-427 | Known pixels are reused; others get an identifier of their own. |
| AssetStores.PlanBatch | src/penampakan/image/assets.py:372-428 | The plan accounts for the batch in order and beside the store. |
| AssetStores.AssetStore.constructor | src/penampakan/image/assets.py:132-165 | A new store holds the root alone and is consistent. |
| AssetStores.AssetStore.EnsureCapacity | src/penampakan/image/assets.py:305-314 | The worst-case check passes exactly when depth and capacity allow. |
| AssetStores.AssetStore.CommitPrepared | src/penampakan/image/assets.py:372-428 | The planned batch is installed at once. |
| AssetStores.AssetStore.CommitBatch | src/penampakan/image/assets.py:316-360 | All or nothing: the first failing check decides and leaves the store as it was. |
| AssetStores.AssetStore.Commit | src/penampakan/session.py:966-978 | The same as its caller counts it. |
| AssetStores.AssetStore.Close | src/penampakan/image/assets.py:362-370 | Closing empties the store once. |
| AssetStores.AssetStore.LineageForAsset | src/penampakan/session.py:1228-1235 | The walk to the root ends; the lineage starts at the root, ends at the asset, steps from parent to child and is one longer than the depth. |
| AskRuns.FinalDecisionIsAffordable | src/penampakan/reasoning/budget.py:118-125 | Wherever the loop stops, the final call is affordable, and one repair of it too when no repair was used before. |
| AskRuns.AnsweredExact | src/penampakan/session.py:728-797 | An outcome that rests on its last reply is an answer if and only if that reply was an answer with supported evidence. |
| AskRuns.DecisionRestsOnLast | src/penampakan/session.py:618-726 | A decision is the last reply asked for, and a failure to decide is of the kind of that reply. |
| AskRuns.FinalRestsOnLast | src/penampakan/session.py:471-492 | So is what the final decision comes to, repairs of the answer included. |
| AskRuns.DecisionAsks | src/penampakan/session.py:618-726 | Only the last reply of a decision can ask for a tool. |
| AskRuns.CappedGrows | src/penampakan/session.py:425-441 | Executing a call that is asked for once more, while it may be, keeps the number of executions at the number of requests up to the limit. |
| AskRuns.InitialPlanEnds | src/penampakan/session.py:494-581 | A plan that ends the run came to a capability that could not be perceived or recorded; one that does not, with tool calls to spare, perceived and recorded all. |
| AskRuns.AskRun.ReserveAndAsk | src/penampakan/session.py:633-636 | A call is made exactly when one is left. |
| AskRuns.AskRun.PolicyAction | src/penampakan/session.py:618-726 | One decision with one repair of an unparsable reply, and the calls it takes. |
| AskRuns.AskRun.CompleteAnswer | src/penampakan/session.py:728-797 | An answer whose evidence fails is repaired with one call, if one is left, then rejected; the outcome rests on the last reply asked for. |
| AskRuns.InitialPlanIsBounded | src/penampakan/session.py:494-581 | The initial plan stays within the tool and the backend limit; when nothing fails it reserves one tool call for each capability perceived, or all there are. |
| AskRuns.AskRun.EnsureInitialObservations | src/penampakan/session.py:494-581 | The loop over the initial capabilities reserves exactly that: a refused tool call truncates the plan, a failed perception ends the run. |
| AskRuns.AskRun.Perceive | src/penampakan/session.py:1535-1550 | One reservation per backend attempt, up to the first refused, which fails the perception. |
| AskRuns.AskRun.EmitCreated | src/penampakan/session.py:992-1002 | One created-asset event in the trace for every commit that is not a reuse, so its counter grows by exactly those. |
| AskRuns.AskRun.ReserveFanOut | src/penampakan/session.py:903-909 | The fan-out is reserved against the parent's depth, or the action stops. |
| AskRuns.AskRun.CommitRendered | src/penampakan/session.py:964-1002 | A failed commit gives the reservation back and changes nothing; a successful one refunds what was reused; one that cannot be recorded ends the run with the budget and the store still in agreement. |
| AskRuns.AskRun.ExecuteAction | src/penampakan/session.py:856-1012 | One action keeps store growth, reserved assets and traced assets equal, whatever the tool and its backends do, short of rendering another number than its arguments ask for or failing between the commit and its event; its tool and backend reservations are exact; a stopped or failed tool changes neither the store nor the reservation. |
| AskRuns.AskRun.TakeTool | src/penampakan/session.py:425-463 | A repeated call past its limit is blocked and costs nothing; any other is counted and then executed: its tool call is paid for and what it renders is in the store. It stops the loop only for a limit it ran into. |
| AskRuns.AskRun.Follow | src/penampakan/session.py:410-463 | A reply that asks for a tool is acted on, one that answers ends the run. |
| AskRuns.AskRun.DecideStep | src/penampakan/session.py:397-409 | A decision takes one step, and more calls than one only for repairs. |
| AskRuns.AskRun.InteractiveStep | src/penampakan/session.py:397-463 | One turn of the loop: one step, and calls that exceed it by repairs only. |
| AskRuns.AskRun.Interact | src/penampakan/session.py:381-470 | The loop leaves for the final decision only when the last step or the last call is the one left, or when the last tool ran into a limit. |
| AskRuns.AskRun.FinalStep | src/penampakan/session.py:471-492 | The answer-only decision always has its step, which is reserved once there is a decision. |
| AskRuns.AskRun.FinalDecision | src/penampakan/session.py:471-492 | The final decision is never refused, and its outcome is the one its replies decide. |
| AskRuns.AskRun.AskBody | src/penampakan/session.py:381-492 | From a fresh budget through the initial plan to the outcome, whatever policy, backends and tools do: the loop ends with measure `max_steps - 1 - steps`; counters stay within limits; the outcome is an answer if and only if the last reply is an answer with supported evidence, on the final call exactly when the run came to its final decision, which it does only for want of steps or calls or a limit of its last tool; every call is executed as often as the replies ask for it, up to `max_identical_actions` times; the final decision is never refused; and when tools render what they reserve the store, the budget and the trace agree on derived assets at the end. |
| TraceLogs.CountingKeepsAgreement | src/penampakan/tracing.py:513-531 | Every counter stays the number of its events. |
| TraceLogs.NotingKeepsCoherent | src/penampakan/tracing.py:596-623 | A point or lifecycle event keeps the log coherent. |
| TraceLogs.StartingKeepsCoherent | src/penampakan/tracing.py:625-659 | So does starting an invocation under a new identifier. |
| TraceLogs.FinishingKeepsCoherent | src/penampakan/tracing.py:675-692 | So does finishing a running one. |
| TraceLogs.StartedIsActiveOrFinished | src/penampakan/tracing.py:661-673 | A started invocation runs or has its finish on record. |
| TraceLogs.EveryStartIsFinishedOnce | src/penampakan/tracing.py:694-708 | Once nothing runs, every start has exactly one finish, later, of the same operation, identifier and parent. |
| TraceBuilders.TraceBuilder.NewEvent | src/penampakan/tracing.py:482-511 | Events are numbered by position and counted. |
| TraceBuilders.TraceBuilder.Start | src/penampakan/tracing.py:589-594 | Starting again changes nothing and returns the first event. |
| TraceBuilders.TraceBuilder.Emit | src/penampakan/tracing.py:596-623 | Refused after the end; a lifecycle request is refused after the run has been started. |
| TraceBuilders.TraceBuilder.StartInvocation | src/penampakan/tracing.py:625-659 | Refused after the end; otherwise a new identifier runs and its start is the last event. |
| TraceBuilders.TraceBuilder.FinishInvocation | src/penampakan/tracing.py:661-692 | Finishing again returns the first finish; the inconsistent state is unreachable. |
| TraceBuilders.TraceBuilder.FinishAllActive | src/penampakan/tracing.py:694-708 | What still runs is finished in reverse order of starting. |
| TraceBuilders.TraceBuilder.Finalize | src/penampakan/tracing.py:758-784 | Finalizing again returns the first trace; the first time the log ends with the finishes and one terminal event. |
| TraceBuilders.TraceBuilder.FinalTraceIsWellFormed | src/penampakan/tracing.py:779-783 | In a finalized trace numbers are positions, the start is first and only first, the terminal event last and only last, counters count, and every start has exactly one later finish. |
| LruCaches.ReplacedIsAccounted | src/penampakan/perception/cache.py:209-213 | Replacing an entry keeps keys distinct and the byte sum exact. |
| LruCaches.NewestSurvives | src/penampakan/perception/cache.py:205-214 | An entry that fits alone survives its own insertion as the most recent. |
| LruCaches.LongestFittingSuffixIsUnique | src/penampakan/perception/cache.py:301-309 | The eviction rule leaves no choice. |
| LruCaches.EvictionInNumbers | src/penampakan/perception/cache.py:301-309 | What is kept meets both bounds, and with the next older entry it would not. |
| LruCaches.MemoryLruCache.Get | src/penampakan/perception/cache.py:184-195 | A hit returns the value last accepted under the key and promotes it; a miss changes nothing. |
| LruCaches.MemoryLruCache.Evict | src/penampakan/perception/cache.py:301-309 | Never pops an empty map; leaves the longest suffix in order of use that meets both bounds, and counts what it removed. |
| LruCaches.MemoryLruCache.Set | src/penampakan/perception/cache.py:197-215 | The entries become the longest fitting suffix of the old order without the key, followed by the key; an oversize value changes nothing. |
| LruCaches.MemoryLruCache.Prune | src/penampakan/perception/cache.py:244-259 | A healthy cache reports no removals. |
| LruCaches.MemoryLruCache.Clear | src/penampakan/perception/cache.py:235-242 | Clearing empties an open cache. |
| LruCaches.MemoryLruCache.Close | src/penampakan/perception/cache.py:217-225 | Closing empties the cache once. |
| SqliteTables.OldestIsUnique | src/penampakan/perception/sqlite_cache.py:614-619 | The order of access, creation and key leaves no choice. |
| SqliteTables.EvictionIsDetermined | src/penampakan/perception/sqlite_cache.py:601-630 | The rows an eviction removes are determined by the table, the guarded key and the limits. |
| SqliteTables.WatermarksExact | src/penampakan/perception/sqlite_cache.py:225-226 | The low watermarks are nine tenths of the limits, rounded down but for one. |
| SqliteTables.EvictionInNumbers | src/penampakan/perception/sqlite_cache.py:601-630 | Nothing goes from a table within its hard limits; otherwise rows go one by one while either watermark is exceeded, until neither is or nothing may go. |
| SqliteTables.EvictedAreStalest | src/penampakan/perception/sqlite_cache.py:614-619 | A row that goes was used before every row that stays and may go, creation and key deciding ties. |
| SqliteTables.EvictionMeetsLimits | src/penampakan/perception/sqlite_cache.py:601-630 | After an eviction both hard limits hold and the guarded row is still there. |
| SqliteCaches.SelectOldest | src/penampakan/perception/sqlite_cache.py:614-619 | The query returns the start of the order, up to its limit. |
| SqliteCaches.ProgressOneMore | src/penampakan/perception/sqlite_cache.py:622-629 | Deleting the first candidate continues the order; the rest of the batch stays oldest. |
| SqliteCaches.SqliteCache.DeleteBatch | src/penampakan/perception/sqlite_cache.py:622-629 | A batch is abandoned as soon as both low watermarks are reached, with exact counts. |
| SqliteCaches.SqliteCache.Evict | src/penampakan/perception/sqlite_cache.py:601-630 | Removed are exactly the shortest start of the order that reaches both low watermarks, or all evictable rows, whatever the batch size; counts conserve. |
| SqliteCaches.SqliteCache.Get | src/penampakan/perception/sqlite_cache.py:520-543 | A live row is a hit and refreshes its access at most once an interval; an expired one is a miss and collects all that has expired. |
| SqliteCaches.SqliteCache.WrittenExact | src/penampakan/perception/sqlite_cache.py:545-557 | A written row is live for its time to live and not beyond; the other rows that are live then stay as they are, and expired ones go. |
| SqliteCaches.SqliteCache.Set | src/penampakan/perception/sqlite_cache.py:545-557 | A committed set leaves the new row present and both hard limits respected. |
| SqliteCaches.SqliteCache.Prune | src/penampakan/perception/sqlite_cache.py:575-592 | Rows and bytes reported as removed and as left make up what there was. |
| SqliteCaches.ExpiredAndLive | src/penampakan/perception/sqlite_cache.py:102-103 | Expired and live rows make up the table, in number and in bytes. |
| JsonlFiles.RotationIsRenaming | src/penampakan/trace_sinks/jsonl.py:341-350 | Deleting the oldest generation and renaming downwards moves every generation up by one. |
| JsonlFiles.RotationKeepsLayout | src/penampakan/trace_sinks/jsonl.py:341-350 | A rotation forgets the oldest generation only: the rest stays a suffix. |
| JsonlFiles.AppendKeepsLayout | src/penampakan/trace_sinks/jsonl.py:266-270 | A line that fits, or comes to an empty file, keeps every file bounded. |
| JsonlFiles.ReadyExact | src/penampakan/trace_sinks/jsonl.py:260-266 | The files are rotated exactly when the line would overflow a current file that holds something; nothing else is done to them. |
| JsonlFiles.JoinedIsChronological | src/penampakan/trace_sinks/jsonl.py:341-350 | Reading the files from the oldest to the current gives their lines in order. |
| JsonlSinks.JsonlSink.constructor | src/penampakan/trace_sinks/jsonl.py:99-140 | An empty destination. |
| JsonlSinks.JsonlSink.Emit | src/penampakan/trace_sinks/jsonl.py:142-167 | A full queue drops the new line, a closed sink only counts it, any other line is accepted. |
| JsonlSinks.JsonlSink.RotateFiles | src/penampakan/trace_sinks/jsonl.py:341-350 | The descending loop is the rotation. |
| JsonlSinks.JsonlSink.Prepare | src/penampakan/trace_sinks/jsonl.py:260-266 | The file is rotated exactly when the line would not fit a file that is not empty. |
| JsonlSinks.JsonlSink.WriterStep | src/penampakan/trace_sinks/jsonl.py:250-285 | One line is taken from the queue in order and written whole after any rotation, or counted as failed. |
| JsonlSinks.JsonlSink.Close | src/penampakan/trace_sinks/jsonl.py:178-194 | Close drains every accepted line: accepted is written plus failed. |
| JsonlSinks.JsonlSink.ReaderSeesRecentLines | src/penampakan/trace_sinks/jsonl.py:250-293 | While no write has failed, the joined files are a suffix of the accepted lines up to those still queued: none split, lost in the middle or repeated. |
| JsonlSinks.JsonlSink.FilesAreBounded | src/penampakan/trace_sinks/jsonl.py:264-266 | Every file is within the bound or holds one accepted line. |
| TextCleaning.CleanedIsClean | src/penampakan/perception/normalize.py:70-79 | Cleaned text has no carriage return, no other control character and no space at its ends. |
| TextCleaning.CleaningIsIdempotent | src/penampakan/perception/normalize.py:70-79 | Clean text is exactly what cleaning leaves alone, and nothing is counted as removed from it. |
| TextCleaning.PrintableIsKept | src/penampakan/perception/normalize.py:70-79 | Printable text is left alone, spaces, tabs and line ends inside it included. |
| TextCleaning.UnifyingIsReplacing | src/penampakan/perception/normalize.py:70-71 | Line ends are unified as by the two replacements one after the other. |
| TextCleaning.ControlsAreCounted | src/penampakan/perception/normalize.py:72-78 | Characters kept and characters counted make up the text. |
| TextCleaning.CleaningStripsSpace | src/penampakan/perception/normalize.py:79-79 | What stripping takes is space at the two ends, and lengths add up. |
| TextCleaning.CleanText | src/penampakan/perception/normalize.py:70-79 | The loop computes the cleaned text and the number of characters removed. |
| Normalization.ClampedBox | src/penampakan/image/geometry.py:109-140 | A clamped box is a valid box, and a valid box is left alone. |
| Normalization.SortIsStable | src/penampakan/perception/normalize.py:396-396 | The sort orders the same drafts and keeps those with equal keys as they were. |
| Normalization.UniqueIsDistinct | src/penampakan/perception/normalize.py:351-370 | Deduplication leaves distinct drafts, in order. |
| Normalization.Deduplicate | src/penampakan/perception/normalize.py:351-370 | The loop keeps the first of equal drafts and counts the others. |
| Normalization.NormalizedIsSettled | src/penampakan/perception/normalize.py:373-403 | What normalization returns is clean, cut to the request, located or marked as not, in order and distinct; what that makes of each draft is `NormalizationExact.NormalizedExact`. |
| Normalization.SettledIsFixed | src/penampakan/perception/normalize.py:373-403 | Such a result is returned unchanged, or refused for its size alone. |
| Normalization.KeptCountsFit | src/penampakan/perception/normalize.py:255-290 | What a first pass returns is within every bound on counts, contents and single texts. |
| Normalization.NormalizingAgainChangesNothing | src/penampakan/session.py:1598-1621 | Normalizing a normalized result returns it unchanged when its characters and entries are within the limits, and is refused exactly when they are not; no other check can refuse it. |
| Normalization.SecondPassCanExceedLimits | src/penampakan/perception/normalize.py:255-290 | The hypothesis is needed: every text without a place and without a warning of that passes under positive limits that it just meets, and its own `location_unavailable` warning makes the second pass refuse it. |
| VisionResults.WarningLengthensResult | src/penampakan/perception/normalize.py:233-241 | One more warning makes the written response strictly longer. |
| Normalization.NormalizeBackendResult | src/penampakan/perception/normalize.py:373-403 | The loops compute the result that `NormalizationExact` describes. |
| NormalizationExact.CutIsIntersection | src/penampakan/perception/normalize.py:303-308 | A point lies in the scoped region exactly when it lies in the requested and in the reported one. |
| NormalizationExact.ClampIsIntersection | src/penampakan/image/geometry.py:109-140 | A point lies in the clamped box exactly when it lies in the reported box and in the asset. |
| NormalizationExact.ClampExact | src/penampakan/image/geometry.py:109-140 | A box is refused exactly when a side is outside the tolerance, it has no area, or none of it is in the asset. |
| NormalizationExact.InsideIsKept | src/penampakan/perception/normalize.py:293-308 | A region inside the one asked for stays as it is. |
| NormalizationExact.DraftExact | src/penampakan/perception/normalize.py:317-336 | A draft that is not discarded is refused exactly for its region, and otherwise keeps its content with texts cleaned, its confidence, the points of its region that were asked for, and its warnings with those that apply added. |
| NormalizationExact.NormalizationConserves | src/penampakan/perception/normalize.py:387-402 | Kept, discarded and duplicate drafts make up all that was reported, and the warnings carry the last two counts. |
| NormalizationExact.NormalizedExact | src/penampakan/perception/normalize.py:387-402 | The observations are exactly the reported ones that are not discarded, each normalized like that. |
| NormalizationExact.RefusedExact | src/penampakan/perception/normalize.py:381-406 | A result of the right kind and within the limits is refused exactly for a region of a draft that is not discarded. |
| NormalizationExact.OutputAnswersRequest | src/penampakan/perception/normalize.py:210-284 | Every observation returned is of the kind asked for, with no more colors, no other marks and no longer text than allowed, and there are no more of them than the request and the limits allow. |
| NormalizationExact.OutputIsOrdered | src/penampakan/perception/normalize.py:339-348 | They read from the top down and from left to right; without a region captions, colors and metadata come first and all else last. |
| BackendRouters.CandidatesAreTheSupporting | src/penampakan/perception/router.py:172-209 | The candidates are the backends that declare and support the request, each once, an override first and the preferred ones next. |
| BackendRouters.StopIsUnique | src/penampakan/perception/router.py:533-537 | The attempt a route stops at is determined. |
| BackendRouters.OutcomeExact | src/penampakan/perception/router.py:533-537 | Which reply counts as which outcome of an attempt. |
| BackendRouters.AttemptsAreInOrder | src/penampakan/perception/router.py:227-354 | The attempts on record are the candidates in order, each with the outcome of its own reply. |
| BackendRouters.RouteExact | src/penampakan/perception/router.py:227-357 | A route said of its record: every attempt but the last timed out, was unavailable or could be retried, with falling back allowed; the last one decides what the route is, and is final for its outcome, because falling back is off, or for want of candidates. |
| BackendRouters.BackendRouter.Resolve | src/penampakan/perception/router.py:172-209 | The loops compute the authoritative backend, or the deduplicated pool of override, preferred and registered backends, with the refusal for each way it can be empty. |
| BackendRouters.ResolutionExact | src/penampakan/perception/router.py:172-209 | Whether a request has candidates, by what its override, the authoritative backend and the supporting ones are; all candidates declare and support it. |
| BackendRouters.BackendRouter.FallBack | src/penampakan/perception/router.py:227-354 | Candidates are tried in order until one answers or a failure may not fall back; the loop never ends without a result. |
| BackendRouters.BackendRouter.Analyze | src/penampakan/perception/router.py:211-357 | The candidates the request resolves to are tried in their order; only the backend of the last attempt is credited, every earlier one failed recoverably, and the count of active calls is restored. |

## Left out

- Siblings of `$ref`, `anyOf` and `oneOf`: the validator does not read them, so the schema type has no place for them.
- Annotations (`title`, `description`, `format`) and references outside `$defs`: they constrain no instance, or are refused.
- Findings of the validator: only the verdict is modelled, not their locations or their number.
- `SchemaRoot.CompilesStrictly`: an empty `$defs` cannot be told from an absent one; the compiler refuses the empty one, because the restored tree then has none.
- Size limits of compiled schemas (properties, enum values, text length) and canonical JSON with its fingerprint.
- `SchemaRoot.EnvelopeCarries`: the JSON-only target, which compiles nothing, and the parsing of provider text.
- Regular expressions, relevance scores and JSON number formatting: a pattern and a score are functions, a number is a real.
- `PerceptionSharing.AttributionIsSafe`: hash collisions; keys are taken as injective in everything they are made of.
- Cached bytes that fail validation are misses here; the warnings attached to outcomes are not modelled.
- The inspection run and the wording of warnings; a warning observation that cannot be recorded.
- Deadlines and timeouts: the budget takes whether time remains as a parameter, and the question loop takes it as remaining.
- `AskRuns.AskRun.EmitCreated`: of a run's trace only the created-asset events are followed; the invocations it opens are in `TraceBuilders`.
- A population of a run that other callers share counts its backend calls against the run that started it; `AskRuns.AskRun.Perceive` sees its own run only.
- Cancellation of a question run: the refund it makes is that of a failed tool.
- `TraceBuilders.TraceBuilder.Emit`: sinks never raise; token counts, `add_counts`, redaction, durations and the invocation stack are left out, and callers emit point events only, as the session does.
- Identifiers of invocations are drawn from a counter instead of at random, so they never repeat.
- Images are digests; rendering, decoding and the closing of image handles are left out.
- SQLite itself: connections, retries, rollback, quarantine and permissions; a failed operation is a miss or a no-op, and keys stand in their binary order.
- Low watermarks are nine tenths rounded down, without binary floating point.
- The `block` mode of the log sink, cancellation inside it, permissions and symbolic links; a failure between two renames of one rotation.
- The log starts from an empty destination; files left by an earlier process would come before its lines.
- Rounding in region arithmetic; `-0.0` and `0.0` are one number.
- `Normalization.NormalizedIsSettled`: the validation of single fields of a backend result (lengths, patterns, number ranges) is not modelled; the measures of the whole response are.
- A backend whose `supports` raises or does not answer with a boolean, and the closing of owned backends.
- Provider adapters, transports, drawing, OCR, command line, benchmarks and settings: field mapping or foreign code.
