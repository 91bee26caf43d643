# A verified model of WayFlow core

This project models the parts of WayFlow core that carry the most logic, and proves what they are for. It covers

- **flow resolution** (`flow.py`): the worklist that finds a flow's inputs and outputs, the synthesised StartStep and
  the data edges around it (`Flows`, `MustAnalysis`, `LoopTermination`, `FlowResolver`, `FlowTraversal`, `FlowEdges`,
  `FlowBuild`, `Acceptance`, `FlowPaths`, `FlowDescriptors`, `FlowTermination`, `VisitOrder`, `DefiniteAssignment`, and the families of flows in `EndlessFlow` and
  `UnsetInputs`);
- **the property types** (`property.py`): membership, the static castability relation, dynamic casts, default filling
  and JSON schemas (`Properties`, `Casting`, `CastRelation`, `CastSafety`, `CastValues`, `CastExactness`, `Defaults`,
  `JsonSchema`, `SchemaMeaning`);
- **the in-memory datastore** (`datastore/inmemory.py`): a columnar table with boolean masks, and vector indices that
  should follow it (`Datatables`, `Datastores`, `IndexFreshness`, `InMemoryStores`);
- **the bounded parallel map** (`_utils/async_helpers.py`) as a state machine over all interleavings (`ParallelMap`);
- **the tool traversal** of a cyclic component graph with a shared visited set (`ToolTraversal`);
- **the OpenAPI model generator**: reference closure, union texts and class names (`SchemaClosure`, `UnionText`,
  `ClassNames`);
- **execution plans** as text (`Planning`).

Code that changes state step by step is modelled as methods and classes, proved against functions on the same data;
the results about the code are then lemmas about those functions. Every lemma turns Dafny's automatic induction off, so
each proof uses only the induction written in its body. `dafny verify dfyconfig.toml` checks everything.

## How the flow results fit together

A step hands on two sets: the step inputs that data edges have fed, and the names that steps have produced. Both are
facts that a step establishes, so the resolver is a must-analysis over one set of facts per step. The source stores
the set of a visited step and then goes on adding the step's own facts to the stored object, so what is recorded is
the set *after* the step. `MustAnalysis` keeps the set before the step (`low`) and derives the recorded one from it;
`FlowResolver` stores the extended set, as the source does, and is shown to simulate the analysis.

The skip test compares what arrives before a step with what is recorded after it. That is harmless for the results
(`Exact`) but not for termination: an arrival that lacks something its step establishes is passed on even when it shrinks
no set. The loop ends exactly when no cycle keeps passing on such arrivals (`LoopTermination.StopsExactly`). Cycles with a
single entry never do; those of `EndlessFlow` do for ever. The methods therefore take a number of iterations.

A flow is started with values for some of the inputs it exposes; those without default must be passed unless a provider
answers for them (`flow.py`, lines 1203-1219). Each passed value is stored under the step inputs that the constructor kept
for its name (lines 1260-1264): the missing inputs themselves, or the StartStep's own once they have been remapped to it. An
input is then *available* at the end of a control path as the executor looks it up (`executors/_flowexecutor.py`, lines
354-381 and 415-463): from a context provider on a data edge or found by name, from a stored value, from a data edge whose
source lies earlier on the path, or from its default. `DefiniteAssignment` asks for this on every path and every start.

Per missing name the resolver keeps one descriptor only, the one of the step it visits last. Whether that descriptor has
a default decides whether the flow asks for the input, so the exact conditions speak of the last visit that misses a name
(`VisitOrder`). Which inputs are missing, and which of them have defaults or providers, does not settle it
(`UnsetInputs.VisitOrderDecides`).

## Where the code does less than it seems

- When two steps miss one name and only the later one has a default, flows are accepted in which the earlier one finds no
  value: `UnsetInputs.StartStepCheckMissesInput`, `UnsetInputs.EmptyListMissesInput`. A listed input without default can be
  left out by the caller in the same way: `UnsetInputs.ListedInputMayStayUnset`.
- The comparison of descriptors of one name leaves out the first, and drops the enumeration of the last: descriptors that
  differ may pass, and an enumerated input that is missed twice never does (`Acceptance.DetectedAccepted`,
  `Acceptance.EnumeratedMissConflicts`). Once the StartStep has inputs, an input of a name that a provider answers for needs
  a default all the same.
- `_resolve_inputs_and_outputs` does not stop on every flow: `EndlessFlow.ResolverNeverFinishes`, and exactly when in
  `FlowTermination.ResolverStopsExactly`.
- `_property_can_be_casted_into_property` accepts object targets with names the source does not have, and the cast
  raises: `CastSafety.ObjectTargetMayRaise`. Exceptions other than `ValueError` escape the alternatives of a union:
  `CastSafety.EnumAlternativeMayRaise`.
- When an object is filled from a value that is no dictionary, an enumerated field gets its type's default, listed or
  not: `Defaults.EnumeratedFieldIsFilledWrongly`.
- A printed schema does not require the properties of an object, and excludes booleans where `IntegerProperty` takes them:
  `SchemaMeaning.EmptyObjectSatisfies`, `SchemaMeaning.BooleanIsNoInteger`.
- The comment of `_process_vectors_for_entities` says that vectors are stored. On an update they only reach the returned
  entities: `IndexFreshness.UpdateStoresNoVector`. Deleting the last row with a vector leaves the index as it was:
  `IndexFreshness.LastDeleteLeavesIndex`.
- `run_async_function_in_parallel` with zero workers never makes progress: `ParallelMap.Progress`.
- `add_union_member` loses the member behind an open bracket: `UnionText.AddedMember`.

## Model

| member | source | states |
|---|---|---|
| `MustAnalysis.Exact` | wayflowcore/src/wayflowcore/flow.py:145-290 | When the worklist is empty, a recorded set holds a fact iff every control path up to that step establishes it; the steps visited are exactly the reachable ones. |
| `MustAnalysis.RunShrinks` | wayflowcore/src/wayflowcore/flow.py:151-179 | Over any number of iterations recorded sets only shrink, although each is extended in place after it was stored. |
| `MustAnalysis.RunInv` | wayflowcore/src/wayflowcore/flow.py:145-282 | Loop invariant of the traversal: no recorded set drops below the meet over all paths, and along every control edge the successor is at most what the step hands on, or the step is still waiting. |
| `LoopTermination.StopsExactly` | wayflowcore/src/wayflowcore/flow.py:145-290 | The loop stops after some number of iterations iff no cycle of reachable steps is live, each step on it establishing something that a path to the one before misses; and then a bound fixed by the graph is enough. |
| `LoopTermination.LiveCycleNeverStops` | wayflowcore/src/wayflowcore/flow.py:145-290 | The one half: with a live cycle the queue is never empty, since along it each step would have to be visited for the last time after the one before. |
| `LoopTermination.PopLowersMeasure` | wayflowcore/src/wayflowcore/flow.py:145-180 | The other half: without one every iteration lowers a measure, since it shrinks a recorded set or lightens the queue. |
| `LoopTermination.CostPays` | wayflowcore/src/wayflowcore/flow.py:262-282 | Without a live cycle the weight of a step covers its own visit and everything that the items it pushes cause while no recorded set shrinks. |
| `LoopTermination.Terminates` | wayflowcore/src/wayflowcore/flow.py:145-290 | A cycle that has a step on every path to all its steps is never live: on graphs with only such cycles the loop stops. |
| `LoopTermination.TwoEntriesNeverTerminate` | wayflowcore/src/wayflowcore/flow.py:145-290 | Two steps that lead to each other, each reachable without something the other establishes, keep the queue non-empty for ever. |
| `FlowTermination.LiveExactly` | wayflowcore/src/wayflowcore/flow.py:240-282 | In terms of the flow: a control edge is live iff its destination produces a name, or feeds an input, that some path through its source has not produced or fed. |
| `FlowTermination.ResolverStopsExactly` | wayflowcore/src/wayflowcore/flow.py:145-290 | The resolver comes to results or an exception iff some iteration raises or no cycle of the control graph is live. |
| `FlowTermination.UnobjectionableStopsExactly` | wayflowcore/src/wayflowcore/flow.py:145-290 | When data edges have both ends, and inputs of one name cast to each other where there are no data edges, nothing raises, and it ends iff no cycle is live. |
| `FlowTermination.RaisesExactly` | wayflowcore/src/wayflowcore/flow.py:195-252 | The resolver raises iff some visit meets a data edge with an unknown end, or, when there are no data edges, misses an input into which the descriptor of the last visit that missed its name cannot be cast. |
| `FlowTermination.ResolverTerminates` | wayflowcore/src/wayflowcore/flow.py:145-290 | With single-entry loops the resolver decides: results or an exception. |
| `EndlessFlow.ResolverNeverFinishes` | wayflowcore/src/wayflowcore/flow.py:84-290 | A family of whole flows the resolver never finishes: the begin step leads to two steps that lead to each other, and each of these produces a name the other two do not. |
| `EndlessFlow.EndlessFlowExists` | wayflowcore/src/wayflowcore/flow.py:84-290 | There is such a flow, with three steps and no data edge. |
| `FlowResolver.TraverseMatches` | wayflowcore/src/wayflowcore/flow.py:145-290 | The resolver, with its keys, names, exits and required inputs, simulates the abstract must-analysis pop by pop. |
| `FlowResolver.RequiredInputsExact` | wayflowcore/src/wayflowcore/flow.py:182-243 | An input is recorded as required iff no context provider targets it and some control path from the begin step reaches its step with no earlier step feeding it; self-feeding steps and loops included. |
| `FlowResolver.RecordedNamesExact` | wayflowcore/src/wayflowcore/flow.py:240-260 | The names recorded at a visited step are exactly those produced on every control path through it. |
| `FlowResolver.OutputsExact` | wayflowcore/src/wayflowcore/flow.py:284-338 | A name is a flow output iff some exit is reachable, every path to every exit produces it, and it is not a name that only the StartStep declares. |
| `FlowDescriptors.OutputsFollowPath` | wayflowcore/src/wayflowcore/flow.py:172-338 | The descriptors of the flow outputs all come from one control path to one exit: each is that of the last step on the path that produces the name. |
| `FlowDescriptors.RecordedFollowPath` | wayflowcore/src/wayflowcore/flow.py:172-260 | So do the descriptors recorded at any visited step, for a path to that step. |
| `FlowDescriptors.FirstExitDecides` | wayflowcore/src/wayflowcore/flow.py:276-332 | That exit is the first one visited. |
| `FlowDescriptors.OutputsDescribed` | wayflowcore/src/wayflowcore/flow.py:327-332 | The descriptor of a flow output is an output descriptor of that name of some step of the flow. |
| `FlowPaths.ExitMeans` | wayflowcore/src/wayflowcore/flow.py:262-282 | A step is an exit iff no control edge leaves it, or one leaves it without leading to a step of the flow. |
| `FlowResolver.RequiredInputsListed` | wayflowcore/src/wayflowcore/flow.py:230-238 | Every required input has a descriptor taken from a step that lists it, and its keys name steps with that input. |
| `FlowTraversal.ResolveStepInputs` | wayflowcore/src/wayflowcore/flow.py:182-238 | The input loop of one visit: what it adds to the dictionaries, and when a clash of types raises. |
| `FlowTraversal.FindNext` | wayflowcore/src/wayflowcore/flow.py:262-270 | The destinations of the control edges that leave the step, in order. |
| `FlowTraversal.ResolveStepEdges` | wayflowcore/src/wayflowcore/flow.py:240-252 | The data edge loop of one visit: the destinations fed, and the exceptions for ends that are not steps of the flow. |
| `FlowTraversal.ResolveStepOutputs` | wayflowcore/src/wayflowcore/flow.py:254-260 | The output loop of one visit, including the names that stop being StartStep-only. |
| `FlowTraversal.Advance` | wayflowcore/src/wayflowcore/flow.py:145-290 | One iteration: skip, or intersect and visit; the same state or exception as the specified step, a step name that is not in the flow included. |
| `FlowTraversal.ResolveInputsAndOutputs` | wayflowcore/src/wayflowcore/flow.py:84-338 | The whole method up to a number of iterations: undecided, the exception, or the resolution that the results above describe. |
| `FlowEdges.InferEdges` | wayflowcore/src/wayflowcore/flow.py:1121-1160 | The edges between one source and one step are exactly the pairs of equal names; it raises only if one of them is no valid edge. |
| `FlowEdges.CreateImplicitEdges` | wayflowcore/src/wayflowcore/flow.py:1097-1119 | Implicit data edges: exactly the pairs of equal names over all steps and providers, created iff every pair is castable. |
| `FlowBuild.RemapInput` | wayflowcore/src/wayflowcore/flow.py:357-394 | For one missing input: the edges from the StartStep and the keys of the StartStep that replace the missing ones, or the exception for an input without default. |
| `FlowBuild.RemapToStart` | wayflowcore/src/wayflowcore/flow.py:341-395 | All new edges and the remapped keys, in the order of the missing inputs; the first exception ends it. |
| `FlowBuild.BuildFlow` | wayflowcore/src/wayflowcore/flow.py:657-865 | The constructor from the step checks to the inputs it exposes: which flows and providers raise, which edges are inferred, which of them collide, the built flow, the keys under which passed values are stored, and the descriptors that decide what must be passed. |
| `FlowBuild.CheckGiven` | wayflowcore/src/wayflowcore/flow.py:653-723 | The checks before the data edges are looked at, loop by loop: exactly the flows and providers they refuse. |
| `FlowBuild.FindCollision` | wayflowcore/src/wayflowcore/flow.py:1485-1523 | Finds a collision iff two data edges end at one step input and one of them comes from a provider. |
| `Acceptance.DetectedAccepted` | wayflowcore/src/wayflowcore/flow.py:753-865 | Without a StartStep and without a list, a flow is accepted iff the resolver comes to results, for each name asked for all visits that miss it but the first agree with the last and that one has no enumeration, each missing input is cast from the last descriptor of its name or, if a provider answers for the name and anything is asked for, has a default, and no data edges collide. |
| `Acceptance.DetectedStart` | wayflowcore/src/wayflowcore/flow.py:762-814 | The StartStep of such a flow has exactly one descriptor per missing name without provider, the last that missed it but for the enumeration; it feeds exactly the missing inputs of these names; the flow exposes every missing name with its last descriptor. |
| `Acceptance.ListedAccepted` | wayflowcore/src/wayflowcore/flow.py:788-865 | With a list: iff the resolver comes to results, the listed names are different and missing somewhere, each missing input is cast from the listed descriptor of its name or has a default unless the list is empty, and no data edges collide. |
| `Acceptance.ListedStart` | wayflowcore/src/wayflowcore/flow.py:788-865 | The StartStep of such a flow holds the list, feeds the missing inputs of its names, and the flow exposes the missing names that are listed or have no default. |
| `Acceptance.OwnStartAccepted` | wayflowcore/src/wayflowcore/flow.py:740-865 | With a StartStep: iff the resolver comes to results, no data edges collide, and a list names different inputs of the StartStep. |
| `Acceptance.OwnStart` | wayflowcore/src/wayflowcore/flow.py:300-311 | Such a flow exposes the inputs of its StartStep, without those a list leaves to their defaults. |
| `Acceptance.EnumeratedMissConflicts` | wayflowcore/src/wayflowcore/flow.py:770-784 | A name missed twice is never accepted when its last descriptor is enumerated: the copy it is compared with has lost the enumeration. |
| `FlowBuild.NoCollisionMeans` | wayflowcore/src/wayflowcore/flow.py:1485-1523 | Data edges that pass the collision check feed an input that has a provider from that one provider, and from no step. |
| `DefiniteAssignment.RemapDoesNotCollide` | wayflowcore/src/wayflowcore/flow.py:803-840 | The edges that the constructor adds change nothing about collisions: the check refuses exactly the flows whose edges collided before. |
| `DefiniteAssignment.AcceptedDoesNotCollide` | wayflowcore/src/wayflowcore/flow.py:832-840 | No finished flow feeds an input from two providers, or from a provider and a step. |
| `DefiniteAssignment.StartCovers` | wayflowcore/src/wayflowcore/flow.py:355-395 | Once the StartStep has inputs, each missing input has a default or an edge from the StartStep. |
| `DefiniteAssignment.WithUserStartStep` | wayflowcore/src/wayflowcore/flow.py:292-309 | A flow accepted around the caller's StartStep finds every input on every control path, however it is started, iff each input left without feed, default and provider bears the name of a StartStep input without default. |
| `DefiniteAssignment.WithSynthesisedStartStep` | wayflowcore/src/wayflowcore/flow.py:753-814 | End to end, for flows without a StartStep, over every accepted start and every control path, the StartStep's own inputs included: always with detected inputs; with an empty list iff for each missing input the last visit that misses its name finds no default; with a non-empty list iff the same holds for each listed input without default and provider. |
| `DefiniteAssignment.AssignedExactly` | wayflowcore/src/wayflowcore/flow.py:1203-1264 | Starting with as little as `start_conversation` accepts decides: every input is found iff each missing one has a value stored for it from an input the caller must pass. |
| `DefiniteAssignment.StartStepCheckExactly` | wayflowcore/src/wayflowcore/flow.py:300-306 | The check on a StartStep passes iff every name whose last missing visit finds no default is one of its inputs. |
| `DefiniteAssignment.AgreeingDefaultsSuffice` | wayflowcore/src/wayflowcore/flow.py:788-865 | With an empty list, a flow in which inputs of one name agree on having a default finds every input. |
| `DefiniteAssignment.AgreeingDefaultsPassCheck` | wayflowcore/src/wayflowcore/flow.py:292-309 | So does every such flow that comes with a StartStep and is accepted. |
| `VisitOrder.LastMissDecides` | wayflowcore/src/wayflowcore/flow.py:195-238 | The descriptor kept for a missing name is that of the last visit that misses it, and there is none if no visit does. |
| `VisitOrder.MissesNoted` | wayflowcore/src/wayflowcore/flow.py:195-238 | Per name, the last descriptor that misses it is kept, and all but the first are noted as possibly conflicting, in order. |
| `UnsetInputs.StartStepCheckMissesInput` | wayflowcore/src/wayflowcore/flow.py:299-306 | A family of accepted flows with an input that stays unset: a StartStep without inputs, a step that needs a name, and a later step that has a default for it. |
| `UnsetInputs.EmptyListMissesInput` | wayflowcore/src/wayflowcore/flow.py:788-865 | The same with an empty list of inputs: the name stops being an input of the flow. |
| `UnsetInputs.ListedInputMayStayUnset` | wayflowcore/src/wayflowcore/flow.py:1204-1219 | A listed input without default whose last missing step has one: the flow starts without it, and the StartStep finds no value. |
| `UnsetInputs.VisitOrderDecides` | wayflowcore/src/wayflowcore/flow.py:195-238 | With the two steps in the other order the flow asks for the input: which inputs are missing, and which have defaults or providers, does not decide. |
| `CastRelation.CanCastTransitive` | wayflowcore/src/wayflowcore/property.py:1119-1204 | Castability composes from every source whose unions' enumerations accept those of their alternatives; in particular from every source whose unions have none. |
| `CastRelation.TransitiveExactly` | wayflowcore/src/wayflowcore/property.py:1119-1204 | From a source whose enumerated unions, where nested in unions, cast into none of their siblings, castability composes with every two properties iff that condition holds; with every two constructible ones iff it holds for the enumerations of strings. |
| `CastRelation.UnionEnumBreaksTransitivity` | wayflowcore/src/wayflowcore/property.py:1119-1127 | Three constructible properties on which it is not: a union's own enumeration is not inherited by its alternatives. |
| `CastRelation.CanCastReflexive` | wayflowcore/src/wayflowcore/property.py:1119-1204 | A property casts into itself if it holds no vector or message; without unions exactly then. |
| `CastSafety.CastReturnsMember` | wayflowcore/src/wayflowcore/property.py:1207-1284 | Whatever a cast returns passes the target's membership test, enumerations, objects and nested unions included. |
| `CastSafety.CastIdempotent` | wayflowcore/src/wayflowcore/property.py:1207-1284 | Members of the target pass through unchanged, so casting twice is casting once. |
| `CastValues.IntCast` | wayflowcore/src/wayflowcore/property.py:1235-1244 | Into whole numbers: integers and booleans pass, floats are rounded toward zero, all else raises `ValueError`. |
| `CastValues.FloatCast` | wayflowcore/src/wayflowcore/property.py:1235-1244 | Into floats: the same number, 1.0 and 0.0 for booleans; all else raises `ValueError`. |
| `CastValues.BoolCast` | wayflowcore/src/wayflowcore/property.py:1235-1244 | Into booleans: a number is true iff it is not zero; all else raises `ValueError`. |
| `CastValues.TextCast` | wayflowcore/src/wayflowcore/property.py:1221-1234 | Into strings: strings pass, `None` gives the empty string, all else its JSON text. |
| `CastValues.EnumeratedCast` | wayflowcore/src/wayflowcore/property.py:1207-1216 | Enumerated scalars: listed values pass, any other is cast as without the list and must then be listed. |
| `CastValues.ListCast` | wayflowcore/src/wayflowcore/property.py:1247-1248 | A list is cast item by item in order; it raises what its first failing item raises. |
| `CastValues.DictCast` | wayflowcore/src/wayflowcore/property.py:1250-1256 | A dictionary answers under each cast key with the cast of the last entry whose key is cast to it, and has no other key; it is cast iff every entry is, with keys cast to scalars. |
| `CastValues.ObjectCast` | wayflowcore/src/wayflowcore/property.py:1257-1269 | An object that does not fit is cast to a dictionary with exactly the names of the target, each with the cast of that member; it can be iff every member is there and can be. |
| `CastValues.FieldRaises` | wayflowcore/src/wayflowcore/property.py:1257-1269 | Its first failing name decides the exception: `KeyError` or `AttributeError` if it is missing, else that of its cast. |
| `CastValues.UnionCast` | wayflowcore/src/wayflowcore/property.py:1270-1282 | A value of an alternative passes; any other is cast by the first alternative that does not raise `ValueError`. |
| `CastSafety.StaticCastSucceeds` | wayflowcore/src/wayflowcore/property.py:1119-1284 | Static castability implies that the cast of every member returns, whatever the order of alternatives, under a condition on the two types read off their nodes. |
| `CastExactness.StaticCastExactly` | wayflowcore/src/wayflowcore/property.py:1119-1284 | Without enumerations, and without unions in the target, a castable pair satisfies that condition iff the cast of every member of the source returns: the exact guard for objects. |
| `CastExactness.ScalarIntoUnionExactly` | wayflowcore/src/wayflowcore/property.py:1270-1282 | A scalar type into a union with objects and enumerated numbers among its alternatives: the cast of every value returns iff an alternative holds the type, or the first alternative that does not just pass the value on takes it. |
| `CastSafety.FreeIsCastSafe` | wayflowcore/src/wayflowcore/property.py:1219-1284 | That condition holds for every pair of types without objects and every target without enumerations. |
| `CastSafety.FreeRaisesOnlyValueError` | wayflowcore/src/wayflowcore/property.py:1270-1282 | Without enumerations and objects the only exception is the one a union catches. |
| `CastSafety.ObjectTargetMayRaise` | wayflowcore/src/wayflowcore/property.py:1165-1180 | Where the implication fails: the relation checks source names, the cast reads target names, and a missing one raises `KeyError`. |
| `CastSafety.EnumAlternativeMayRaise` | wayflowcore/src/wayflowcore/property.py:1275-1279 | Where the implication fails: the `TypeError` of an enumerated alternative escapes a union. |
| `CastExactness.CanCastExact` | wayflowcore/src/wayflowcore/property.py:1119-1284 | On sources and targets without enumerations, objects, vectors and source unions the static relation is exactly "the cast of every member returns". |
| `CastExactness.ObjectIntoDictExactly` | wayflowcore/src/wayflowcore/property.py:1155-1164 | From an object with fields into a dictionary the relation is exactly "every dictionary with these names and types can be cast". |
| `CastExactness.EnumeratedExactly` | wayflowcore/src/wayflowcore/property.py:1119-1127 | Between enumerated numbers it is exactly "every member can be cast", for the conversions that keep the number. |
| `CastExactness.SourceEnumIrrelevant` | wayflowcore/src/wayflowcore/property.py:1119-1127 | Into a target without enumerations that of the source does not matter. |
| `CastExactness.UnionSourceIsIncomplete` | wayflowcore/src/wayflowcore/property.py:1191-1203 | A union source on which the relation rejects although every cast returns. |
| `CastExactness.UnionSourceExactly` | wayflowcore/src/wayflowcore/property.py:1119-1204 | For a union of such sources every cast returns iff each alternative is castable on its own. |
| `Defaults.FillReturnsMember` | wayflowcore/src/wayflowcore/property.py:128-139 | Default filling returns a member of the property for every value, whenever the fall-back values of its nodes fit. |
| `Defaults.FillKeeps` | wayflowcore/src/wayflowcore/property.py:128-139 | Anything but an object keeps a member as it is and any other value as it is cast; only when the cast raises it gives the first listed value, or the type default. |
| `Defaults.FillObject` | wayflowcore/src/wayflowcore/property.py:936-947 | An object filled from a dictionary has exactly the names of its fields, each with the filling of what the dictionary holds there, or of `None`; from anything else it is that value or the type default. |
| `Defaults.TypeDefaultIsEmpty` | wayflowcore/src/wayflowcore/property.py:929-934 | The type defaults: the member of the type that Python counts as false, `None`, zeros, and objects of such values. |
| `Defaults.FillExactly` | wayflowcore/src/wayflowcore/property.py:128-139 | Filling returns a member for every value iff they fit, on all properties whose unions have no enumeration or no alternative that takes just any value. |
| `Defaults.FillTotalWithoutEnums` | wayflowcore/src/wayflowcore/property.py:128-139 | For every constructible tree without enumerations filling is total, through the object override and the cast fall-back. |
| `Defaults.TypeDefaultIsMember` | wayflowcore/src/wayflowcore/property.py:929-947 | The type defaults, nested ones included, are members of their types. |
| `Defaults.EnumeratedFieldIsFilledWrongly` | wayflowcore/src/wayflowcore/property.py:929-947 | A constructible object whose enumerated field is filled with a value it does not list. |
| `JsonSchema.RoundTrip` | wayflowcore/src/wayflowcore/property.py:210-382 | Reading a printed schema back gives the same property iff every node survives: no message, no vector settings, dictionary keys of type string or any, well-typed defaults, and `None` as a default only on null, any, or a union that lists null. |
| `JsonSchema.RoundTripUnion` | wayflowcore/src/wayflowcore/property.py:233-382 | For a union: iff its alternatives survive and a `None` default finds null among them, since the parser would append it. |
| `JsonSchema.RoundTripDict` | wayflowcore/src/wayflowcore/property.py:844-861 | For a dictionary: iff keys are strings or any and both parts survive. |
| `SchemaMeaning.PrintedMeaning` | wayflowcore/src/wayflowcore/property.py:210-233 | By JSON Schema's own rules, with the listed properties required, the JSON values that satisfy a printed schema are exactly those that a member of the property is written as; without objects nothing needs to be required. |
| `SchemaMeaning.BooleanIsNoInteger` | wayflowcore/src/wayflowcore/property.py:624-632 | Where that fails: Python takes booleans for integers, JSON Schema does not. |
| `SchemaMeaning.EmptyObjectSatisfies` | wayflowcore/src/wayflowcore/property.py:949-957 | Where that fails: no printed schema requires a property. |
| `SchemaMeaning.AnnotationsPrinted` | wayflowcore/src/wayflowcore/property.py:222-231 | Name, description, default and key type are printed under their keys, and only when there is something to print. |
| `SchemaMeaning.AnnotationsRead` | wayflowcore/src/wayflowcore/property.py:259-274 | They are read back from those keys. |
| `SchemaMeaning.DefaultsNormalize` | wayflowcore/src/wayflowcore/property.py:141-160 | A string default that is not listed becomes the first listed string that equals it up to casing. |
| `SchemaMeaning.CasingOnly` | wayflowcore/src/wayflowcore/property.py:148-153 | Texts are compared letter by letter without regard to (ASCII) case. |
| `SchemaMeaning.TypeListRead` | wayflowcore/src/wayflowcore/property.py:289-309 | A list of type names is read as the union of what the schema is under each of them, with null behind them for a default `None`; it raises iff one of them does, or nothing is left. |
| `SchemaMeaning.NoneDefaultRead` | wayflowcore/src/wayflowcore/property.py:311-325 | A default `None` on a schema of any other type than null gives a union with null. |
| `SchemaMeaning.TypeNamesRead` | wayflowcore/src/wayflowcore/property.py:327-382 | What each type name is read as, with items and properties absent and `additionalProperties` a flag. |
| `Properties.FalseValues` | wayflowcore/src/wayflowcore/property.py:128-139 | The values that Python counts as false. |
| `Properties.PutLookup` | wayflowcore/src/wayflowcore/property.py:1251-1256 | Python dictionaries as entry lists: an assignment is found again under every equal key and changes no other lookup. |
| `Properties.EqualScalars` | wayflowcore/src/wayflowcore/property.py:113-119 | Python's equality of scalars: booleans, integers and floats by their number. |
| `Datatables.Datatable.Filter` | wayflowcore/src/wayflowcore/datastore/inmemory.py:63-72 | The conjunction of column masks is row matching; an empty condition matches nothing. |
| `Datatables.Datatable.List` | wayflowcore/src/wayflowcore/datastore/inmemory.py:80-95 | `list`: matching rows in order, up to the limit; an empty table answers before the condition is looked at. |
| `Datatables.LimitKeeps` | wayflowcore/src/wayflowcore/datastore/inmemory.py:91-92 | A limit keeps that many rows from the front, a negative one all but that many at the end. |
| `Datatables.MatchesByValue` | wayflowcore/src/wayflowcore/datastore/inmemory.py:67-72 | A condition on one column compares numbers by their value, and `None` equals nothing. |
| `Datatables.Datatable.Update` | wayflowcore/src/wayflowcore/datastore/inmemory.py:97-105 | `update` on columns is the update of the rows that matched beforehand, which are also the rows returned; otherwise it raises and changes nothing. |
| `Datatables.Datatable.Create` | wayflowcore/src/wayflowcore/datastore/inmemory.py:113-130 | `create` appends the given rows with their defaults, iff all of them conform; every stored row always conforms. |
| `Datastores.CreateStores` | wayflowcore/src/wayflowcore/datastore/inmemory.py:499-530 | A batch is stored behind the rows there were, each row with the values given and the defaults of the properties not given; only the vector column may hold a generated vector instead. |
| `Datatables.Datatable.Delete` | wayflowcore/src/wayflowcore/datastore/inmemory.py:132-139 | `delete` keeps exactly the rows that do not match, in order. |
| `Datatables.WrittenColumns` | wayflowcore/src/wayflowcore/datastore/inmemory.py:100-102 | Writing each updated column under one mask is updating each row the mask selects. |
| `Datatables.DeleteSplits` | wayflowcore/src/wayflowcore/datastore/inmemory.py:132-139 | Deleted and kept rows together are the rows there were, none lost or added. |
| `Datatables.DeleteTakesMatching` | wayflowcore/src/wayflowcore/datastore/inmemory.py:132-139 | All deleted rows match and no kept row does; an empty condition deletes nothing. |
| `Datatables.DeleteIdempotent` | wayflowcore/src/wayflowcore/datastore/inmemory.py:132-139 | Deleting again by the same condition finds nothing. |
| `Datatables.UpdateReturnsMatched` | wayflowcore/src/wayflowcore/datastore/inmemory.py:97-105 | An update returns one row per row it matched, even when it changes a filtered column. |
| `Datatables.UpdateThenList` | wayflowcore/src/wayflowcore/datastore/inmemory.py:80-105 | When no filtered column is changed, listing by the same condition gives the rows the update returned. |
| `Datatables.Datatable.ValidateAll` | wayflowcore/src/wayflowcore/datastore/_utils.py:33-51 | Accepts exactly the batches whose rows all conform to the entity. |
| `Datatables.Datatable.Validate` | wayflowcore/src/wayflowcore/datastore/_utils.py:54-78 | Accepts exactly the partial rows with known names and values of their types. |
| `InMemoryStores.InMemoryDatastore.constructor` | wayflowcore/src/wayflowcore/datastore/inmemory.py:241-274 | A new datastore: one empty table per collection, no index, a configuration for every collection with vectors, and a generator for those that a search configuration with an embedding model covers. |
| `InMemoryStores.InMemoryDatastore.FindOrCreateConfig` | wayflowcore/src/wayflowcore/datastore/inmemory.py:350-372 | The configuration of a collection is found, or one is added under the implicit name. |
| `InMemoryStores.InMemoryDatastore.Create` | wayflowcore/src/wayflowcore/datastore/inmemory.py:499-530 | Does to its collection what the specified call does, exceptions included, and nothing to any other. |
| `InMemoryStores.InMemoryDatastore.Update` | wayflowcore/src/wayflowcore/datastore/inmemory.py:458-468 | The same for `update`; a vector-affecting update that matches nothing raises. |
| `InMemoryStores.InMemoryDatastore.Delete` | wayflowcore/src/wayflowcore/datastore/inmemory.py:616-621 | The same for `delete`. |
| `InMemoryStores.InMemoryDatastore.ProcessVectors` | wayflowcore/src/wayflowcore/datastore/inmemory.py:532-559 | Vectors are generated for all entities unless the first has one. |
| `InMemoryStores.InMemoryDatastore.CheckAffects` | wayflowcore/src/wayflowcore/datastore/inmemory.py:597-614 | An update concerns vectors iff the collection has a generator and the update names the vector column or sets some column that is not hidden to a string. |
| `InMemoryStores.InMemoryDatastore.FindVectorName` | wayflowcore/src/wayflowcore/datastore/datastore.py:483-499 | The vector column: that of the first configuration of the collection that names one, else the first vector property, else the implicit one. |
| `InMemoryStores.InMemoryDatastore.FindRelevant` | wayflowcore/src/wayflowcore/datastore/inmemory.py:567-577 | The configurations rebuilt: those that name the collection, or else the implicit one. |
| `InMemoryStores.InMemoryDatastore.RebuildAffectedIndices` | wayflowcore/src/wayflowcore/datastore/inmemory.py:564-595 | Every relevant index is rebuilt from the rows if one of them holds a vector; an exception leaves the rest as they were. |
| `InMemoryStores.InMemoryDatastore.GeneratingIsIndexed` | wayflowcore/src/wayflowcore/datastore/inmemory.py:350-372 | The collections with a generator meet the conditions of the freshness results. |
| `IndexFreshness.RebuildReplaces` | wayflowcore/src/wayflowcore/datastore/inmemory.py:579-595 | After a rebuild that returns, an index answers from the table's rows iff some row holds a vector for it, and as before otherwise. |
| `IndexFreshness.IndexAfterCall` | wayflowcore/src/wayflowcore/datastore/inmemory.py:458-621 | After a call that returns, each index is either rebuilt from exactly the new rows or untouched. |
| `IndexFreshness.StaysFreshExactly` | wayflowcore/src/wayflowcore/datastore/inmemory.py:458-621 | The exact guard: a fresh index stays fresh through a call iff the call rebuilds it (it concerns vectors and leaves a row with one) or changes no row. |
| `IndexFreshness.IndexOverRun` | wayflowcore/src/wayflowcore/datastore/inmemory.py:458-621 | Over any run of returning calls an index holds exactly the rows of the state after its last rebuild, so it is fresh iff those are the rows now. |
| `IndexFreshness.CarefulRunStaysFresh` | wayflowcore/src/wayflowcore/datastore/inmemory.py:458-621 | A run in which every call rebuilds or changes no row keeps every relevant index fresh. |
| `IndexFreshness.LastDeleteLeavesIndex` | wayflowcore/src/wayflowcore/datastore/inmemory.py:590-595 | Emptying a collection leaves its index with every deleted row. |
| `IndexFreshness.UpdateStoresNoVector` | wayflowcore/src/wayflowcore/datastore/inmemory.py:462-468 | Vectors generated for an update reach the returned entities only: every stored vector stays the old one. |
| `ParallelMap.AtMostMaxWorkers` | wayflowcore/src/wayflowcore/_utils/async_helpers.py:294-308 | In every interleaving at most `max_workers` tasks are past the semaphore. |
| `ParallelMap.ResultExact` | wayflowcore/src/wayflowcore/_utils/async_helpers.py:300-319 | A finished call returns iff every input succeeds, then the outputs in input order; otherwise it raises an exception of a failing input, never a partial list. |
| `ParallelMap.ResultExists` | wayflowcore/src/wayflowcore/_utils/async_helpers.py:310-319 | A finished call always has a result: no output is missing. |
| `ParallelMap.Progress` | wayflowcore/src/wayflowcore/_utils/async_helpers.py:294-313 | A schedule can always continue until all tasks are done iff the semaphore does not start at zero. |
| `ParallelMap.SchedulesAreFinite` | wayflowcore/src/wayflowcore/_utils/async_helpers.py:302-313 | No schedule is longer than two scheduling points per input. |
| `ParallelMap.RunInv` | wayflowcore/src/wayflowcore/_utils/async_helpers.py:300-313 | The invariant of every interleaving: semaphore count, collected outputs and task states agree. |
| `ToolTraversal.ReferencedToolsDict` | wayflowcore/src/wayflowcore/conversationalcomponent.py:85-101 | One call with a shared visited set: returns exactly the tools of the components it newly visits, and none for a visited one. |
| `ToolTraversal.ReferencedToolsInner` | wayflowcore/src/wayflowcore/agent.py:668-688 | The agent node: its own tools, those its agents and flows newly collect, and its template's. |
| `ToolTraversal.ReferencedTools` | wayflowcore/src/wayflowcore/conversationalcomponent.py:76-83 | Terminates on every graph, cyclic ones included, with exactly the tools of the components reachable from the root. |
| `ToolTraversal.FreshTraversalIsComplete` | wayflowcore/src/wayflowcore/conversationalcomponent.py:91-101 | From a fresh visited set the calls together visit exactly the reachable components, although inner calls return partial results. |
| `ToolTraversal.UniqueIdsGiveAllTools` | wayflowcore/src/wayflowcore/conversationalcomponent.py:82-83 | When no two tools share an id, the values of the dictionary are all the tools. |
| `SchemaClosure.SchemaCollector.Collect` | wayflowcore/dev_scripts/openai-models-gen/generate_pydantic_models.py:133-143 | Stops on every specification, cyclic ones included; raises iff a chain of references leads to a component that cannot be walked, and otherwise returns the least closed set of names. |
| `SchemaClosure.LeastClosedIsChained` | wayflowcore/dev_scripts/openai-models-gen/generate_pydantic_models.py:133-156 | The least closed set holds exactly the names that a chain of references from an endpoint leads to. |
| `SchemaClosure.SchemaCollector.Walk` | wayflowcore/dev_scripts/openai-models-gen/generate_pydantic_models.py:146-156 | Adds exactly the references below a node, each new name enqueued once; a reference hides the rest of its node. |
| `SchemaClosure.SchemaCollector.AddRef` | wayflowcore/dev_scripts/openai-models-gen/generate_pydantic_models.py:105-111 | A name is enqueued iff it was not needed before. |
| `SchemaClosure.RefNamesMeans` | wayflowcore/dev_scripts/openai-models-gen/generate_pydantic_models.py:105-108 | A reference below the component schemas names what stands behind its last slash; others name nothing. |
| `SchemaClosure.SchemaCollector.AddEndpoint` | wayflowcore/dev_scripts/openai-models-gen/generate_pydantic_models.py:113-131 | Adds exactly the references at the top of the endpoint's schemas, and raises iff one of them is not a string. |
| `UnionText.SplitUnion` | wayflowcore/dev_scripts/openai-models-gen/generate_pydantic_models.py:597-617 | The character loop computes the specified split. |
| `UnionText.JoinUnion` | wayflowcore/dev_scripts/openai-models-gen/generate_pydantic_models.py:620-626 | The loop computes the specified join without later duplicates. |
| `UnionText.SplitJoined` | wayflowcore/dev_scripts/openai-models-gen/generate_pydantic_models.py:597-626 | Any row of parts in which at most the last leaves a bracket open is what splitting its joined text gives. |
| `UnionText.NormalForm` | wayflowcore/dev_scripts/openai-models-gen/generate_pydantic_models.py:597-626 | For every string, unbalanced brackets included, splitting the join of its parts gives the parts with later duplicates removed, and doing so twice changes nothing more. |
| `UnionText.AddedMember` | wayflowcore/dev_scripts/openai-models-gen/generate_pydantic_models.py:590-594 | `add_union_member` leaves the member among the parts iff it was one already or no bracket is open at the end. |
| `UnionText.ScanYieldsParts` | wayflowcore/dev_scripts/openai-models-gen/generate_pydantic_models.py:597-617 | Every part is stripped, non-empty and free of bars outside brackets, and only the last can leave a bracket open. |
| `UnionText.DepthIsSurplus` | wayflowcore/dev_scripts/openai-models-gen/generate_pydantic_models.py:597-617 | The depth counts square brackets: it is the largest surplus of opening ones over all ends of the text. |
| `ClassNames.AssignNames` | wayflowcore/dev_scripts/openai-models-gen/generate_pydantic_models.py:182-191 | The class names of schemas are pairwise different, and each leads back to its schema. |
| `ClassNames.ClassNameOfParts` | wayflowcore/dev_scripts/openai-models-gen/generate_pydantic_models.py:572-573 | A class name is the name without its underscores and hyphens. |
| `ClassNames.FreeName` | wayflowcore/dev_scripts/openai-models-gen/generate_pydantic_models.py:186-188 | The underscore loop ends, with one underscore for each earlier schema of the same class name. |
| `ClassNames.UsedExactly` | wayflowcore/dev_scripts/openai-models-gen/generate_pydantic_models.py:184-191 | Of the candidates for a class name, the used ones are those with fewer underscores than schemas named so far. |
| `Planning.TaskRoundTrip` | wayflowcore/src/wayflowcore/planning.py:49-64 | A printed task reads back as itself iff its id is a non-empty word, its tool absent or a non-empty dotted word, and its description non-empty. |
| `Planning.MatchedExactly` | wayflowcore/src/wayflowcore/planning.py:30-37 | A line is read as a task exactly when it has the shape of the pattern: the dash, blanks, the groups in their order, one blank before a tool. |
| `Planning.TaskLine` | wayflowcore/src/wayflowcore/planning.py:62-64 | The text of a task. |
| `Planning.StatusWords` | wayflowcore/src/wayflowcore/planning.py:17-28 | Which word stands for which status; no other word is read. |
| `Planning.PlanRoundTrip` | wayflowcore/src/wayflowcore/planning.py:71-85 | A printed plan reads back as itself iff all its tasks do and no description holds a newline; the empty plan included. |
| `Planning.InterleavedRoundTrip` | wayflowcore/src/wayflowcore/planning.py:71-82 | A text whose task lines are those of a plan reads as that plan, whatever other lines stand between them. |
| `Planning.SkippedLinesDoNotMatter` | wayflowcore/src/wayflowcore/planning.py:75-81 | Lines that are no task change neither the tasks nor whether reading raises. |
| `Planning.ReadIsPrintable` | wayflowcore/src/wayflowcore/planning.py:49-60 | Whatever is read from a line satisfies the conditions under which it prints and reads back. |
| `Planning.PlanOf` | wayflowcore/src/wayflowcore/planning.py:71-82 | The line loop of `from_str`: the tasks in order, or the exception of the first line with an unknown status. |

## Left out

- FlowTraversal.ResolveInputsAndOutputs: takes a number of iterations instead of running until the queue is empty, because that loop does not end on every flow; every result about finished runs holds for any number of iterations that empties the queue.
- CastRelation.TransitiveExactly: not for an enumerated union nested in another union beside an alternative that takes it, which may then take whatever it takes.
- CastRelation.CanCastReflexive: with unions the condition is sufficient only, since a vector or message alternative may still cast into another alternative.
- CastExactness.StaticCastExactly: not for enumerations and not for unions in the target, where the outcome depends on the value and on the order of the alternatives; see `CastExactness.ScalarIntoUnionExactly`.
- CastExactness.ScalarIntoUnionExactly: not for enumerated strings and booleans among the alternatives, nor for enumerated numbers when the source is a boolean or an integer, where the outcome depends on the listed values and on `json.dumps`.
- Defaults.FillExactly: not for a union with both an enumeration and an alternative that takes just any value, where whether filling falls back depends on the order of the alternatives and on `json.dumps`.
- SchemaMeaning.PrintedMeaning: not for what prints as something wider: messages, vector lengths, enumerated keys and objects without fields; nor where booleans meet integers, vectors or enumerated unions.
- CastExactness.EnumeratedExactly: not for conversions that change the number, where a value that is not listed may be cast to one that is.
- ParallelMap.ResultExact: which exception of several failing tasks is raised is left open, as the task group decides it; cancellation from outside is not modelled.
- InMemoryStores.InMemoryDatastore.Create: an empty batch is left out only where it would make pandas drop the columns of an empty table; the wrapping of a single dictionary and the defaults and vectors written into the caller's own dictionaries are not modelled.
- Datatables.Datatable.Create: an empty batch into an empty table is left out, for the same reason.
- Flow objects: steps are identified by their names, so the object identity tests on steps and on the ends of edges are equality of names; dictionary order is kept in lists of names.
- FlowBuild.BuildFlow: the same bound on iterations; the checks that control edges match the branches of a step, that no step stands under two names, and those on variables, are not among the exceptions it raises.
- InMemoryStores.InMemoryDatastore.constructor: an embedding model is only present or absent; the order of an entity's properties is a parameter; it starts after `_build_config_maps` has named the configurations and rejected equal names, and after `_create_implicit_vector_properties` has completed the schema.
- The legacy `transitions` of a flow, and the output descriptors a caller specifies for a finished one.
- The step names kept for the texts of error messages, all error texts, warnings and logging.
- Collisions of a provider's value with a stored or fed one while a flow runs, and casts of passed values; what a step computes. A StartStep's outputs are its inputs.
- `json.dumps` is a parameter of the cast, total to strings. Attributes of built-in Python values, tuples, numpy arrays, NaN and infinities are not modelled; floats are real numbers.
- Case folding of string defaults covers ASCII letters only; metadata and the `openai_compatible` form of schemas are not modelled.
- Datatables.Datatable.Update: a list assigned to a column, as for a vector, is written to each selected cell as a whole; how pandas spreads a list over several cells is not modelled.
- Pandas: type coercion, list-valued conditions, and the reordering of columns on concatenation.
- Vector generators are functions of the entities and do not raise; an index is a snapshot of the rows and column it was built from, not a search structure.
- Kinds of components other than agents and flows in the tool traversal follow the same pattern and are one kind of node here.
- The generator's parsing of endpoint strings, its rendering of models, aliases and overrides; of a specification only references, and whether values are true, are kept.
- Which characters beyond capital letters and the underscore are word characters is a parameter of plan parsing; the plan regex is modelled as the deterministic reading it amounts to.
- Executors, step implementations, serialization, the other datastores, servers, LLM calls, templates and tracing.
