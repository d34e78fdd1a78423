# TriCl simulator core in Dafny

TriCl simulates how the relationships between the entities of a social
system change over continuous time. Entities (persons, messages, groups, …)
have entity types. A link `e1 -rat13-> e3` is a typed relationship between
two entities. The events that can happen to a link are its establishment
(`EC_EST`) and its termination (`EC_TERM`). Two links that share a middle
entity form an angle `e1 -rat12-> e2 -rat23-> e3`. Angles between `e1` and
`e3` raise or lower the attempt rate and the success probunits (a
probability on a logit-like scale) of the events between `e1` and `e3`.
This is the mechanism behind triadic closure.

The simulator works as follows:

- Each stored event has a drawn next time in `t2be`, a time-ordered map
  from times to events.
- `pop_next_event` takes the earliest scheduled event.
- `perform_event` adds or deletes the event's link and its inverse link.
- The events adjacent to that link are then updated angle by angle.
- Purely spontaneous establishments are not stored one by one. They are
  handled by one summary event per event type. A summary event stores its
  entity types negated in the entity fields and draws its two entities at
  random when it is due.

This project models that core in Dafny:

- **Data model** (`DataModel`, `Bits`, `ExtReal`): the id types, the
  structs with their orders, and the bit-packing hashes (`INFLT` and the
  `std::hash` specialisations). Doubles that may be ±∞ are `Ext`.
- **Global state** (`State`): the global variables are one `Globals`
  value inside the class `World`. `GlobalsOk` is the invariant every
  operation keeps:
  - the leg sets are sorted and mirrored: an out-leg at `e1` exactly when
    the matching in-leg is at `e3`;
  - entities in use have their legs;
  - stored events have bounded counts;
  - every key of `t2be` names a stored event at that time;
  - every stored event has its key, until a drawn time collides.
- **Operations**, each a module with methods on `World` that are proved
  against specification functions on `Globals`:
  - `Links`, `Entities`: links and entities.
  - `Angles`: `leg_intersection`.
  - `AngleUpdate`: `add_or_delete_angle`.
  - `Events`: event scheduling.
  - `EventAdd`: `add_event`, `add_reverse_event`.
  - `EventPerform`: `update_adjacent_events`, `perform_event`.
  - `Simulate`: `pop_next_event`, `step`, the main loop, `do_random_link`.
  - `Debugging`: the consistency checks.
- **Initialisation** (`InitTables`, `Init`, `InitLinks`) and
  **configuration** (`Config`, `ConfigTypes`, `Dynamics`): the YAML
  sections become tables, with every error message of the reader as an
  error value.
- **Schedule** (`Schedule`): the three-tier schedule class `schedule_t`
  of `src/schedule.h`, as the class `ScheduleT`.
- **I/O** (`IO`): the text `operator<<` writes for link types, event types
  and events. When every label is a blank-free word and labels are
  distinct, the text of a specific event determines the event, and so does
  the text of a summary event. A summary event never prints like a
  specific event.
- **Older snapshot** (`OldSnapshot`): the top-level `event.cpp` and
  `data_model.h`, an earlier version of the same files:
  - its one-to-one `leg_intersection`;
  - its `t2be`/`ev2data` bookkeeping, as the class `Ledger`;
  - its 12/2/2-bit `INFLT`.

Random draws are not made by the model. `Rng` is a pair of given streams
of uniform and exponential draws, and `nDraws` counts the positions used.
A `fuel` parameter bounds the number of passes of the unbounded loops in
`pop_next_event` and in the main loop. Where the src/ files stop at a
failed `assert` or an uncaught `throw`, the model returns `ok == false` or
an error value. The old event.cpp compiles its asserts out; there they
are requires of the model (see "Left out").

## Model

| member | source | states |
|---|---|---|
| DataModel.EcOf | src/data_model.h:177-181 | the enumerator values 0, 1, 2 read back as `EC_EST`, `EC_TERM`, `EC_ACT`; every other code is rejected |
| DataModel.LinkLessIsStrictTotalOrder | src/data_model.h:153-157 | `operator<` on links is irreflexive, transitive and total on distinct links |
| DataModel.InLegLessIsStrictTotalOrder | src/data_model.h:244-248 | the in-leg order (entity first, then type) is a strict total order |
| DataModel.OutLegLessIsStrictTotalOrder | src/data_model.h:259-263 | the out-leg order (entity first, then type) is a strict total order |
| DataModel.SortedLegsGroupByEntity | src/data_model.h:245 | in a sorted leg set the middle entities never decrease, so the legs of one entity form one contiguous run, as `leg_intersection` relies on |
| DataModel.SummaryEvent | src/data_model.h:90-99 | a summary event stores its entity types negated, so both of its entity fields are negative |
| DataModel.SummaryEventTypesRecovered | src/data_model.h:90-99 | negating the entity fields of a summary event gives back its entity types |
| DataModel.NoAngleIsDistinct | src/data_model.h:295 | `NO_ANGLE` differs from every angle type whose middle entity type is a real type (≥ 1) |
| DataModel.InfltRoundTrip | src/data_model.h:341-342 | with ids within their bit widths, `INFLT` lies below `MAX_N_INFLT` and every field decodes back: a perfect index into the influence arrays |
| DataModel.InfltInjective | src/data_model.h:341 | distinct influence types with ids in range have distinct `INFLT` values |
| DataModel.MaxNInflt | src/data_model.h:342 | `MAX_N_INFLT` is 2^26 for E_BITS 20, ET_BITS 4, RAT_BITS 4 |
| DataModel.EventHashAsWrittenCollides | src/data_model.h:363-367 | two distinct events with ids in range get the same hash as written: the shift by 22 bits of `int` e3 loses bit 10 |
| DataModel.EventHashRoundTrip | src/data_model.h:363-367 | the intended event hash, computed in `size_t`, fits 46 bits and decodes back to the event |
| DataModel.EventHashInjective | src/data_model.h:363-367 | the intended event hash is injective on events with ids in range |
| DataModel.LinkHashAsWrittenCollides | src/data_model.h:358-362 | two distinct links with ids in range get the same hash as written: the shift by 24 bits of `int` e3 loses bit 8 |
| DataModel.LinkHashRoundTrip | src/data_model.h:358-362 | the intended link hash fits 44 bits and decodes back to the link |
| DataModel.LinkHashInjective | src/data_model.h:358-362 | the intended link hash is injective on links with ids in range |
| DataModel.LegHashRoundTrip | src/data_model.h:348-357 | the leg hash fits E_BITS + RAT_BITS bits and decodes back to the leg |
| DataModel.LegHashInjective | src/data_model.h:348-357 | the leg hash is injective on legs with ids in range |
| Bits.XorDisjoint | src/data_model.h:21-23 | XOR of a value below 2^k with a value shifted by k bits equals their sum, because the operands share no set bit |
| Bits.PackedFields | src/data_model.h:21-30 | fields packed within 64 bits survive the reduction to `size_t`, and each field can be read back |
| Bits.PackInjective | src/data_model.h:21-30 | packing fields that fit their widths is injective |
| ExtReal.Plus | src/data_model.h:79-82 | adding doubles that may be ±∞, with NaN of +∞ + −∞ taken as −∞; the result is finite exactly when both operands are |
| ExtReal.DivBy | src/event.cpp:54 | `x / r` is 0 for an infinite rate and +∞ for a zero rate, and finite and non-negative otherwise |
| ExtReal.LtIsStrictTotalOrder | src/data_model.h:79 | the order on times, which `std::map<timepoint, event>` uses, is a strict total order |
| ExtReal.MinKeyIsLeast | src/event.cpp:266 | `t2be.begin()` is the least key: it lies in the key set and no key is below it |
| ExtReal.MinKeyUnique | src/event.cpp:266 | the least key is unique |
| Angles.RowMembers | src/angle.cpp:98-114 | for one in-leg, an angle is emitted exactly when some out-leg meets that in-leg at the same middle entity and carries the angle's first type |
| Angles.RowIncreasing | src/angle.cpp:98-114 | within one in-leg's row, all angles share e2 and rat23, and their rat12 strictly increase |
| Angles.RowBound | src/angle.cpp:96 | one in-leg meets at most `nRats` out-legs |
| Angles.AnglesBound | src/angle.cpp:96 | at most `nRats` angles are emitted per in-leg |
| Angles.AnglesMembers | src/angle.cpp:92-163 | an angle is enumerated exactly when e1 has an out-leg and e3 has an in-leg that meet at the angle's middle entity with its two types |
| Angles.AnglesOfSorted | src/angle.cpp:98-114 | for sorted leg sets the angles come out strictly ordered by (e2, rat23, rat12): grouped by middle entity, none twice |
| Angles.AnglesFit | src/angle.cpp:96 | the pre-allocated size `max(|outs|, |ins|) * nRats * nRats` holds every angle |
| Angles.MergeCompare | src/angle.cpp:140-158 | comparing the current legs advances past the lower one, or emits the angle where they meet, and keeps the written prefix a prefix of the specification |
| Angles.MergeStep | src/angle.cpp:115-160 | one loop round rewinds to the open block or finishes, and keeps the invariant that the written prefix is a prefix of all the angles |
| Angles.LegIntersection | src/angle.cpp:92-163 | for sorted leg sets, the block-rewinding merge returns exactly `AnglesOf(outs, ins)`, which is all the angles, and stays within the allocated size |
| AngleUpdate.StoredCounts | src/angle.cpp:54 | the counts are present exactly when the event is stored |
| AngleUpdate.AngleEffectBounds | src/angle.cpp:53-83 | an angle's effect keeps the bounds every stored event satisfies; after an addition, an event that had angles or was absent has a positive angle count |
| AngleUpdate.AddThenDeleteRestores | src/angle.cpp:53-83 | with finite influences, deleting an angle that was just added restores the counts exactly, for an establishment that had angles or was absent and for a termination that was present |
| AngleUpdate.AngleTarget | src/angle.cpp:38-39 | the affected event is the termination when the link e1 -rat13-> e3 exists and the establishment otherwise; it is never an action |
| AngleUpdate.AngleCountDelta | src/angle.cpp:34-36 | the angle count moves only when the three entities are pairwise distinct: +1 for an added angle and −1 for a deleted one |
| AngleUpdate.TouchedOk | src/angle.cpp:61-68 | updating a stored event's counts and rescheduling it keeps the invariant, gives the event the new counts and leaves every other event's counts |
| AngleUpdate.StoreScheduleOk | src/angle.cpp:54-60 | storing a new event and scheduling it keeps the invariant and changes no other event's counts |
| AngleUpdate.RetouchRescheduleOk | src/angle.cpp:62-67 | changing the counts of a stored event and rescheduling it keeps the invariant and changes no other event |
| AngleUpdate.RemoveOk | src/angle.cpp:75-78 | removing an event whose last angle went keeps the invariant and drops only its counts |
| AngleUpdate.AngleStepOk | src/angle.cpp:51-83 | one affected event: the invariant holds, only event bookkeeping changes, the event gets the counts `AngleEffect` prescribes and every other event keeps its counts |
| AngleUpdate.AngleLoopOk | src/angle.cpp:37-88 | the loop over `ets2relations[{et1, et3}]` keeps the invariant and leaves every event with the counts `Expected` gives: one effect per influenced relation, no change elsewhere |
| AngleUpdate.AngleUpdatedOk | src/angle.cpp:26-89 | `add_or_delete_angle` keeps the invariant, changes only the angle count and the event bookkeeping, moves the angle count by `AngleCountDelta`, and applies the angle's effect to each event between e1 and e3 that it influences |
| AngleUpdate.AngleStepKeepsTime | src/angle.cpp:51-83 | an angle step leaves the current time unchanged |
| AngleUpdate.AngleOnEvent | src/angle.cpp:51-83 | the loop body leaves the state `AngleStep` specifies, and fails exactly where the specification fails |
| AngleUpdate.RelationStep | src/angle.cpp:38-87 | one relation of the loop leaves the state `RatStep` specifies |
| AngleUpdate.RelationsLoop | src/angle.cpp:37-88 | the loop leaves the state `AngleLoop` specifies |
| AngleUpdate.AddOrDeleteAngle | src/angle.cpp:26-89 | leaves the state `AngleUpdated` specifies, whose properties `AngleUpdatedOk` states |
| Links.InsertOut | src/link.cpp:31 | inserting into a sorted out-leg set keeps it sorted; its members are the old ones plus the new leg |
| Links.RemoveOut | src/link.cpp:41 | erasing from a sorted out-leg set keeps it sorted; its members are the old ones without the leg |
| Links.InsertIn | src/link.cpp:32 | the same as `InsertOut`, for in-legs |
| Links.RemoveIn | src/link.cpp:42 | the same as `RemoveOut`, for in-legs |
| Links.OutSortedUnique | src/data_model.h:266-267 | two sorted out-leg sequences with the same members are equal, so a set has one representation |
| Links.InSortedUnique | src/data_model.h:266-267 | the same for in-leg sequences |
| Links.OutInsertRemove | src/link.cpp:27-45 | inserting an absent out-leg and erasing it gives back the set, and so does erasing a present one and inserting it again |
| Links.InInsertRemove | src/link.cpp:27-45 | the same for in-legs |
| Links.AddKeepsMirror | src/link.cpp:27-35 | adding a link to both sides keeps the mirror, makes the link present and leaves every other link |
| Links.DelKeepsMirror | src/link.cpp:37-45 | deleting a link from both sides keeps the mirror, makes it absent and leaves every other link |
| Links.AddThenDelRestores | src/link.cpp:27-45 | adding an absent link and deleting it restores both leg maps |
| Links.LinkExists | src/link.cpp:21-25 | a link exists exactly when its out-leg is in the source's out-leg set |
| Links.LinkSeenFromBothEnds | src/link.cpp:21-25 | under the invariant, a link is present at its source exactly when its in-leg is present at its target |
| Links.WithLinkOk | src/link.cpp:27-35 | `add_link` of an absent link between entities in use keeps the invariant, makes the link present and leaves every other link |
| Links.WithoutLinkOk | src/link.cpp:37-45 | `del_link` keeps the invariant, makes the link absent and leaves every other link |
| Links.AddLinkThenDelLink | src/link.cpp:27-45 | `add_link` followed by `del_link` of the same absent link restores the state |
| Links.AddLink | src/link.cpp:27-35 | requires the source's assertion (absent, and no self-link except the identity) and, beyond it, that both ends are entities in use, which every caller in the source passes; leaves the state `WithLink` gives |
| Links.DelLink | src/link.cpp:37-45 | requires the link to exist; leaves the state `WithoutLink` gives |
| Entities.DecimalRoundTrip | src/entity.cpp:23 | the label `to_string(e)` reads back as `e` |
| Entities.DecimalInjective | src/entity.cpp:23 | distinct ids get distinct default labels |
| Entities.Decimal | src/entity.cpp:23 | the label is a non-empty string of digits without a leading zero |
| Entities.FreshEntityKeepsMirror | src/entity.cpp:24 | giving a fresh entity its identity legs keeps the mirror |
| Entities.WithEntityFresh | src/entity.cpp:17-25 | the new id `max_e + 1` was not in use and had no legs; afterwards it is in use with exactly its identity legs, and every other entity keeps its legs |
| Entities.WithEntityOk | src/entity.cpp:17-25 | `add_entity` keeps the invariant |
| Entities.AddEntity | src/entity.cpp:17-25 | returns `old max_e + 1` and leaves the state `WithEntity` gives |
| Entities.RandomIndex | src/entity.cpp:28 | `floor(u * n)` for u in [0, 1) is a valid index i with i ≤ u·n < i + 1 |
| Entities.RandomEntity | src/entity.cpp:26-31 | `random_entity` returns an element of the type's entity list |
| Entities.EveryEntityCanBeDrawn | src/entity.cpp:26-31 | every position of the list is drawn for some u in [0, 1) |
| State.InverseRat | src/event.cpp:226 | a missing `rat2inv` entry reads as NO_RAT |
| State.Relations | src/angle.cpp:37 | a missing `ets2relations` entry reads as the empty set |
| State.TableValues | src/init.cpp:60-73 | under `TablesOk`, every table entry at an INFLT index is non-negative (attempt rates) or finite (probunit changes) |
| State.InverseSchedule | src/event.cpp:67-68 | scheduling at time t keeps every key naming its event; the times stay inverse to `ev2data` exactly when t was free |
| State.InverseRemove | src/event.cpp:164-165 | erasing an event together with its key keeps the inverse |
| State.InverseUnschedule | src/event.cpp:89 | erasing an event's key and marking it unscheduled keeps the keys naming events |
| State.InverseStore | src/angle.cpp:56 | storing a fresh unscheduled event keeps the inverse |
| State.InverseRetouch | src/angle.cpp:63-66 | changing an event's counts, but not its time, keeps the inverse |
| State.CountersFree | src/global_variables.h:76-81 | the invariant reads neither the counters nor the current event |
| State.InitialOk | src/init.cpp:46-50 | the state before initialisation (no entities, links or events, time 0) satisfies the invariant |
| State.World.constructor | src/init.cpp:46-50 | a new world holds the initial state with the given tables and draws, and is valid |
| Events.EventIsScheduled | src/event.cpp:36-43 | an event is scheduled exactly when its stored time lies above −∞ |
| Events.StoredEventsAreScheduled | src/event.cpp:36-43 | between operations every stored event is scheduled, and its key names it unless a drawn time collided |
| Events.DrawnTime | src/event.cpp:45-70 | the time drawn: never −∞; not before now, unless the event happens "right away"; then formally in the past, in (now − 1, now]; +∞ when the success probunits are −∞ at an infinite rate; and it consumes one draw, or none in that last case |
| Events.Scheduled | src/event.cpp:45-70 | `_schedule_event` changes only the event bookkeeping: it stores the drawn time in `evd.t` and sets `t2be[t] = ev` |
| Events.Unscheduled | src/event.cpp:89 | erasing the key leaves the event stored and unscheduled |
| Events.Rescheduled | src/event.cpp:85-92 | the old key is erased and a new time drawn and stored |
| Events.Removed | src/event.cpp:161-167 | the event's key and its entry are gone and nothing else changes |
| Events.Stored | src/angle.cpp:56 | storing new data for an event not stored adds exactly that entry |
| Events.ScheduledOk | src/event.cpp:45-70 | scheduling the one pending event restores the invariant |
| Events.UnscheduledOk | src/event.cpp:89 | erasing a stored event's key leaves it the pending event |
| Events.RemovedOk | src/event.cpp:161-167 | removing a stored event keeps the invariant |
| Events.StoredOk | src/angle.cpp:56 | storing a new event with t = −∞ makes it the pending event |
| Events.RetouchedOk | src/angle.cpp:63-66 | changing the counts of a stored event, within bounds and keeping its time, keeps the invariant |
| Events.StoreScheduleRemove | src/event.cpp:72-83 | storing, scheduling and removing an event restores `ev2data`, and `t2be` as well when the drawn time was free |
| Events.ScheduleEvent | src/event.cpp:72-83 | requires the event to be the one stored but not yet keyed, with a positive attempt rate as `_schedule_event` asserts; leaves the state `Scheduled` gives, with the invariant restored |
| Events.RescheduleEvent | src/event.cpp:85-92 | requires the event stored (hence scheduled) with a positive attempt rate; leaves the state `Rescheduled` gives and keeps the invariant |
| Events.RemoveEvent | src/event.cpp:161-167 | requires the event stored (hence scheduled); leaves the state `Removed` gives and keeps the invariant |
| Events.ConditionallyRemoveEvent | src/event.cpp:169-175 | removes the event when it is stored and changes nothing otherwise |
| EventAdd.WithInfluenceBounded | src/event.cpp:111-113 | adding one influence keeps the sums within their bounds |
| EventAdd.OutLegAngleAsWrittenMisreads | src/event.cpp:110 | the structured binding as written agrees with the intended reading of an out-leg only when its type equals the other entity's id |
| EventAdd.OutLegAngleAsWrittenExample | src/event.cpp:110 | a leg of type 2 to entity 5 is read as a leg of type 5 to an entity of entity 2's type |
| EventAdd.OutLegInfluenceInRange | src/event.cpp:110-114 | the intended reading names the leg's own type and the type of the entity it leads to, and its INFLT index lies in the tables and decodes back to that influence |
| EventAdd.OutLegSumsBounded | src/event.cpp:110-114 | the out-leg loop keeps the attempt rate non-negative and the probunits above −∞ |
| EventAdd.InLegSumsBounded | src/event.cpp:115-119 | the same for the in-leg loop |
| EventAdd.AngleSumsCounts | src/event.cpp:123-137 | the angle loop keeps the bounds and counts exactly the influencing angles |
| EventAdd.CountAnglesPositive | src/event.cpp:123-137 | the count lies between 0 and the number of angles, and is positive exactly when some angle influences the event |
| EventAdd.SumOutLegs | src/event.cpp:110-114 | the out-leg loop computes the sums `OutLegSums` specifies |
| EventAdd.SumInLegs | src/event.cpp:115-119 | the in-leg loop computes the sums `InLegSums` specifies |
| EventAdd.SumAngles | src/event.cpp:123-137 | the angle loop computes the sums `AngleSums` specifies |
| EventAdd.TypeOf | src/event.cpp:98-99 | the event type carries the event's class and relationship type and the types of its ends |
| EventAdd.TotalsBounded | src/event.cpp:105-137 | the totals keep their bounds and count the influencing angles between the ends |
| EventAdd.EventAddedShape | src/event.cpp:94-159 | `add_event` either changes nothing or stores the event with the data `NewData` gives and schedules it |
| EventAdd.EventAddedOk | src/event.cpp:94-159 | `add_event` keeps the invariant, changes only the event bookkeeping and leaves every other event's counts |
| EventAdd.EventAddedStores | src/event.cpp:139-151 | a stored event was not stored before; it gets the number of influencing angles between its ends, a positive attempt rate and a time |
| EventAdd.EventAddedSkips | src/event.cpp:97-101 | otherwise nothing changes; the identity relationship and self-links stop `add_event` |
| EventAdd.AddEvent | src/event.cpp:94-159 | leaves the state `EventAdded` gives and fails where the source's assertion fails |
| EventAdd.ReverseOf | src/event.cpp:214-221 | the reverse event has the same ends and type; it is an establishment for a termination and a termination otherwise |
| EventAdd.ReverseTwice | src/event.cpp:214-221 | reversing a link event twice gives it back |
| EventAdd.AddReverseEvent | src/event.cpp:214-221 | `add_event` of the reverse event |
| EventPerform.FirstLegStepOk | src/event.cpp:201-209 | one angle with the event's link as first leg keeps the invariant, changes only the angle count and the event bookkeeping, and moves the count by `AngleCountDelta` |
| EventPerform.SecondLegStepOk | src/event.cpp:204-209 | the same for an angle with the link as second leg |
| EventPerform.FirstLegLoopOk | src/event.cpp:188-209 | the loop over the out-legs of e2 keeps the invariant and moves the angle count by one per angle of distinct entities |
| EventPerform.SecondLegLoopOk | src/event.cpp:194-209 | the loop over the in-legs of e2, likewise |
| EventPerform.AdjacentUpdatedOk | src/event.cpp:180-212 | `update_adjacent_events` keeps the invariant, changes only the angle count and the event bookkeeping, and moves the angle count by one per angle through the link whose entities are distinct |
| EventPerform.FirstLegs | src/event.cpp:201-209 | the out-leg loop leaves the state `FirstLegLoop` specifies |
| EventPerform.SecondLegs | src/event.cpp:201-209 | the in-leg loop leaves the state `SecondLegLoop` specifies |
| EventPerform.UpdateAdjacentEvents | src/event.cpp:180-212 | leaves the state `AdjacentUpdated` gives |
| EventPerform.LinkPerformedOk | src/event.cpp:229-234 | the link step keeps the invariant, adds or deletes exactly the event's link and changes the link count by one |
| EventPerform.Companion | src/event.cpp:226-227 | the companion event is the event of the same class from e3 to e1 with the inverse type r31, when there is one |
| EventPerform.CompanionStepOk | src/event.cpp:238-254 | the companion's steps keep the invariant, set the companion's link and leave every other link |
| EventPerform.LinkStepOk | src/event.cpp:229-254 | the link steps set the event's link and then the companion's, keep the invariant and every other link, and change the link count by one per step |
| EventPerform.PerformedOk | src/event.cpp:223-256 | `perform_event` keeps the invariant: an establishment makes its link present, a termination absent, and likewise for the inverse link when the type has one; every other link is unchanged, and the link count moves by one per link changed |
| EventPerform.ChangeLink | src/event.cpp:229-234 | `add_link` for an establishment, `del_link` otherwise, as `WithLink`/`WithoutLink` give; fails where `add_link`'s assertion fails and also on a link to an id not in use |
| EventPerform.PerformOnLink | src/event.cpp:229-236 | the part of `perform_event` done for one link leaves the state its specification gives |
| EventPerform.PerformEvent | src/event.cpp:223-256 | leaves the state `Performed` gives and fails where an assertion of the source fails |
| EventPerform.EstablishedOk | src/init.cpp:193-201 | establishing succeeds only for an absent link; afterwards the link is present and every link other than it and its inverse is unchanged |
| EventPerform.EstablishedOnlyAdds | src/init.cpp:193-201 | an establishment only adds links: every link present before stays present, and the inverse link is present afterwards when the type has one |
| EventPerform.LinkStepNeedsAbsent | src/link.cpp:29 | an establishment step succeeds only when its link is absent |
| EventPerform.Establish | src/init.cpp:198-199 | `conditionally_remove_event(ev); perform_event(ev)` for an establishment, as `Established` gives |
| Simulate.OutLegProbunitsBounded | src/event.cpp:318-321 | adding the sparse out-leg changes keeps the probunits above −∞ |
| Simulate.InLegProbunitsBounded | src/event.cpp:322-325 | the same for in-legs |
| Simulate.SummaryProbunitsBounded | src/event.cpp:316-325 | the probunits of a drawn summary event lie above −∞, and are finite when the base probunits are |
| Simulate.IsolatedEntitiesKeepBase | src/event.cpp:316-325 | between two entities without legs, the probunits are the base probunits of the event type |
| Simulate.OutLegProbunitsInert | src/event.cpp:318-321 | legs whose influence has no sparse entry add nothing |
| Simulate.SumOutLegProbunits | src/event.cpp:318-321 | the loop computes the sum `OutLegProbunits` specifies |
| Simulate.SumInLegProbunits | src/event.cpp:322-325 | the loop computes the sum `InLegProbunits` specifies |
| Simulate.Attempt | src/event.cpp:305-337 | only the draw counter and the current event change; a drawn pair whose link exists, whose entities are equal or whose event is stored on its own is skipped; a success is that absent establishment, not stored, with the drawn uniform below the probability of the summed probunits; the attempt fails exactly when the event type has no base probunits |
| Simulate.AttemptOk | src/event.cpp:305-337 | an attempt keeps the invariant |
| Simulate.TryLink | src/event.cpp:305-337 | computes the state `Attempt` specifies |
| Simulate.SummaryAttempt | src/event.cpp:289-341 | the attempt of a due summary event, which fails where the source aborts: a summary event must be an establishment with negative type fields, and both types need entities |
| Simulate.SummaryAttemptOk | src/event.cpp:289-341 | a summary attempt keeps the invariant |
| Simulate.SummaryAttemptReschedules | src/event.cpp:339-340 | the summary event is rescheduled after its attempt, and no other stored entry changes |
| Simulate.SummaryAttemptFinds | src/event.cpp:305-331 | the establishment found has the summary event's type, is between two different entities in use whose link is absent, and is not stored |
| Simulate.DrawnInUse | src/entity.cpp:26-31 | a drawn entity is an entity in use |
| Simulate.ClockMoved | src/event.cpp:284-286 | setting the clock to another finite time keeps the invariant |
| Simulate.RescheduledOk | src/event.cpp:340 | rescheduling a stored event keeps the invariant |
| Simulate.PopNextClock | src/event.cpp:258-356 | the clock never moves back; when nothing is found it is at the limit (or where it was, if that was past the limit); an event found is due before the limit; the event count stays |
| Simulate.PopNextOk | src/event.cpp:258-356 | `pop_next_event` keeps the invariant; the event found has specific entities and is no longer stored |
| Simulate.PassPerformsSpecificEvent | src/event.cpp:343-353 | a due specific event becomes the current event, its entry and key are erased, and the clock is at its time or later |
| Simulate.PassWithNothingDue | src/event.cpp:267-280 | with nothing scheduled before the limit, the pass jumps to the limit and changes nothing else |
| Simulate.PopNextAtLimit | src/event.cpp:263 | once the clock is at the limit, nothing is found and the state stays |
| Simulate.SummaryStep | src/event.cpp:289-341 | the attempt of a due summary event, as `SummaryAttempt` gives |
| Simulate.OnePass | src/event.cpp:263-354 | one pass of the loop, as `Pass` specifies |
| Simulate.DueStep | src/event.cpp:283-354 | the rest of a pass for the earliest event, as `Due` specifies |
| Simulate.DueAt | src/event.cpp:275-354 | the rest of a pass once the earliest time is known to be due |
| Simulate.PopNextEvent | src/event.cpp:258-356 | leaves the state and result `PopNext` gives, and fails where the source aborts or the fuel runs out |
| Simulate.SteppedOk | src/simulate.cpp:16-29 | a step keeps the invariant and never moves the clock back; it counts exactly the event it performs, so the count never passes `max_n_events`; the event happens before the time limit and changes its link, and among the links only that one and its companion's |
| Simulate.SteppedAtEventLimit | src/simulate.cpp:18 | at the event limit a step changes nothing and reports false |
| Simulate.CountedOk | src/simulate.cpp:19-20 | counting and performing the current event keeps the invariant |
| Simulate.Step | src/simulate.cpp:16-29 | leaves the state `Stepped` gives |
| Simulate.CountAndPerform | src/simulate.cpp:19-20 | `++n_events; perform_event(current_ev)` as specified |
| Simulate.RunOk | src/tricl.cpp:165-167 | a finished run keeps the invariant, never moves the clock back and performs at most `max_n_events` events in all |
| Simulate.Simulate | src/tricl.cpp:165-167 | the main loop leaves the state `Run` gives |
| Simulate.RandomLinkEntryAsWritten | src/link.cpp:47-57 | the state as written just before `perform_event`: `&ev2data[ev]` inserts a default entry for an event that was not stored |
| Simulate.RandomLinkEntryAsWrittenBreaksInvariant | src/link.cpp:52-53 | when the establishment was not stored, the state as written keeps an unscheduled entry, which breaks the data consistency and makes the later `add_event` assertion fail |
| Simulate.RandomLinkedOk | src/link.cpp:47-57 | with the intended lookup, a random link keeps the invariant; when drawn, the link exists afterwards, and otherwise every link is unchanged |
| Simulate.RandomLinkedOnlyAdds | src/link.cpp:47-57 | a random initial link only adds links |
| Simulate.DoRandomLink | src/link.cpp:47-57 | `do_random_link` as intended, as `RandomLinked` gives |
| Debugging.ComputeNAngles | src/debugging.cpp:16-32 | the count is the number of angles between e1 and e3 that influence `evt`, or all of them under `COUNT_ALL_ANGLES` |
| Debugging.CountingAllCountsEvery | src/debugging.cpp:27 | under `COUNT_ALL_ANGLES` every angle is counted |
| Debugging.VerifyAngleConsistency | src/debugging.cpp:34-48 | passes exactly when every stored event's angle count equals the recount |
| Debugging.AddedEventPassesAngleCheck | src/debugging.cpp:34-48 | an event that `add_event` stores on its own passes the angle check, because `add_event` counts the same angles |
| Debugging.InvariantPassesDataCheck | src/debugging.cpp:50-77 | the model's invariant passes the data check as long as no drawn time collided with a scheduled one |
| Debugging.DataCheckMeansMirrored | src/debugging.cpp:51-58 | the leg half of the data check is exactly the mirror condition of the invariant |
| Debugging.DataCheckMissesSwappedKeys | src/debugging.cpp:59-76 | two scheduled events with swapped keys pass the data check although `t2be` is no longer the inverse of the stored times |
| Schedule.TierForCases | src/schedule.h:128-143 | beyond the time limit an event is NEVER; after the current time and within the limit LATER; otherwise NOW |
| Schedule.MinOfTimes | src/schedule.h:41-43 | the recomputation returns the least LATER time, or +∞ when there is none |
| Schedule.FirstMinimal | src/schedule.h:80-93 | given an entry below +∞ (the search starts from +∞), the linear search returns the first NOW entry of minimal time |
| Schedule.RemoveAt | src/schedule.h:94 | erasing position k keeps every other entry in order |
| Schedule.NowPop | src/schedule.h:94-96 | taking the NOW entry out of the list and out of `ev2data` keeps all three tiers consistent |
| Schedule.LaterAdd | src/schedule.h:136-137 | storing a LATER time and lowering the bound keeps the bound at most every LATER time |
| Schedule.LaterRemove | src/schedule.h:53 | removing a LATER entry keeps the possibly loose lower bound valid |
| Schedule.MovedBound | src/schedule.h:100-116 | after the bulk move, the first SOONER time is no later than any moved time or any earlier SOONER time |
| Schedule.MoveAll | src/schedule.h:103-106 | the bulk move files every LATER event under its time in the tree and retags it SOONER |
| Schedule.ScheduleT.constructor | src/schedule.h:14-24 | a new schedule is empty, with `min_t_later` at +∞ |
| Schedule.ScheduleT.FindNow | src/schedule.h:26-34 | returns the position of the first NOW entry of the event, or the list length when it has none |
| Schedule.ScheduleT.At | src/schedule.h:35-38 | the stored data of the event |
| Schedule.ScheduleT.UpdateMinTLater | src/schedule.h:39-45 | when the removed time was the bound, it recomputes the bound exactly; otherwise the bound stays |
| Schedule.ScheduleT.Pop | src/schedule.h:46-67 | removes the event from `ev2data` and from the container its tag names, returns its entry, and keeps the tiers consistent |
| Schedule.ScheduleT.Erase | src/schedule.h:68-72 | removes exactly the event's data and its entry in the container its tag names, as `pop` does: the LATER map then loses the event and the bound is recomputed when it was the bound, the tree loses its time, the NOW list loses one entry of it, and the other containers stay |
| Schedule.ScheduleT.Insert | src/schedule.h:122-148 | stores the data of an absent event in the tier its time selects, and changes the other containers as that tier requires |
| Schedule.ScheduleT.UpdateNow | src/schedule.h:225-248 | the NOW part of `update`: erase, append, or overwrite the time in place when the event stays NOW |
| Schedule.ScheduleT.UpdateSooner | src/schedule.h:180-203 | a SOONER event leaves the tree |
| Schedule.ScheduleT.UpdateLater | src/schedule.h:155-179 | stores the new LATER time and lowers the bound, or erases the event and recomputes the bound when it was the bound |
| Schedule.ScheduleT.Update | src/schedule.h:149-252 | like `erase` then `insert`, except that an event staying NOW keeps its list position and only its time changes; a new LATER time lowers the bound to it if smaller, an event leaving LATER from the bound makes the bound the minimum of what remains, and otherwise the bound stays |
| Schedule.ScheduleT.PopFirstNow | src/schedule.h:76-96 | removes the first NOW entry of minimal time |
| Schedule.ScheduleT.MoveLaterToSooner | src/schedule.h:100-111 | moves every LATER entry into the tree, retagged SOONER, then clears LATER and resets the bound; the contents stay |
| Schedule.ScheduleT.PopFirstSooner | src/schedule.h:112-116 | removes the first tree entry, whose time is below every remaining key |
| Schedule.ScheduleT.PopMinT | src/schedule.h:73-121 | removes and returns an event of the contents: the first minimal NOW entry when there is a NOW event, and otherwise the earliest SOONER entry, after the bulk move when the tree is empty or the LATER bound is below its first time (the corrected guard, see Findings); requires some stored event, and distinct LATER times only when the move happens |
| Schedule.EmptyTreeReached | src/schedule.h:100-148 | a new schedule holding one LATER event is valid, has no NOW event and an empty tree, so `pop_min_t` as written reads `begin()` of the empty tree |
| InitTables.FillInfluenceArray | src/init.cpp:61-73 | the array starts at zero and receives every configured value at its INFLT index; it fails where the source's assertion against spontaneous influences fails, and also where a type id does not fit the `ET_BITS`/`RAT_BITS` fields of INFLT |
| InitTables.InitData | src/init.cpp:53-77 | fills both influence arrays; a spontaneous attempt rate of an establishment is allowed, a spontaneous probunit change is not |
| InitTables.ArraysReadBack | src/init.cpp:61-73 | a configured influence reads back as its value, and any other influence with in-range fields as zero |
| InitTables.CheckRelationTypes | src/init.cpp:116-141 | passes exactly when the inversion map satisfies the source's assertions |
| InitTables.CheckedInverseIsInvolution | src/init.cpp:116-141 | where the check passes, inversion maps types with an inverse onto such types and undoes itself, and inverses agree on being action types |
| InitTables.InsertRat | src/init.cpp:149 | inserting into a sorted set of types keeps it sorted, with members the old ones plus the new one |
| InitTables.CollectRelations | src/init.cpp:144-152 | registers the relationship type of every event type with a base probunit under its pair of entity types; fails exactly when one of them is of the identity relationship or lacks a left or right tail, where the source's assert fails or its `.at` throws |
| InitTables.CollectedRelationsOk | src/init.cpp:144-152 | the collected relations never hold the identity and have no repeats |
| Init.WithEntityRegistered | src/entity.cpp:17-25 | a created entity is new and appended to its type's list; only that list grows, by one |
| Init.NewIdUnlisted | src/entity.cpp:19 | an id not in use is in no type's list |
| Init.PreRegisteredOk | src/init.cpp:83-93 | recording a configured entity keeps the invariant |
| Init.PreRegisteredRegistered | src/init.cpp:83-93 | recording a configured entity keeps the registration and grows only its type's list, by one |
| Init.RegisterConfigured | src/init.cpp:82-94 | registers the configured entities in some order and fails at a negative id |
| Init.AddEntities | src/init.cpp:103-106 | `while (n > 0) add_entity(et)` creates max(n, 0) entities of the type |
| Init.UnnamedTypeEmpty | src/init.cpp:81-94 | a type named by neither a count nor a configured entity has no configured entity |
| Init.InitEntities | src/init.cpp:79-110 | registers the configured entities, then gives every type as many new entities as its count leaves; fails at a negative id or at more configured entities than the count; afterwards every type has exactly its count |
| Init.ScaledRate | src/init.cpp:171 | a positive rate times a positive pair count is positive; otherwise the value is not positive |
| Init.SummaryData | src/init.cpp:170-172 | the data stored for a summary event: no angles, the scaled spontaneous rate, and the base probunits plus the spontaneous change |
| Init.SummaryEventFresh | src/init.cpp:161-166 | the summary event of a type not yet handled is not stored |
| Init.SummariesStep | src/init.cpp:168-173 | storing the summary event of a new spontaneous type adds exactly its data |
| Init.SummariesSkip | src/init.cpp:168 | a type that is not spontaneous adds nothing |
| Init.ScheduleSummary | src/init.cpp:161-178 | a spontaneous type gets its summary event stored and scheduled; fails where `ar > 0` fails in `_schedule_event` |
| Init.SchedulePairSummaries | src/init.cpp:163-179 | the loop over the relationship types of one pair of entity types |
| Init.InitSummaryEvents | src/init.cpp:158-181 | every spontaneous link type gets its summary event with its data, scheduled; fails where a spontaneous type has no pair of entities |
| Init.SummaryEventsStored | src/init.cpp:158-181 | afterwards the stored events are exactly the summary events of the link types with a relation entry and a positive spontaneous attempt rate, each with its data |
| InitLinks.WithIdentity | src/init.cpp:188-191 | the identity legs of an entity, without counting a link |
| InitLinks.WithIdentityOk | src/init.cpp:188-191 | adding the identity legs keeps the invariant, makes the identity link present and leaves every other link |
| InitLinks.AddIdentityLegs | src/init.cpp:188-191 | afterwards every entity in use has its identity link, every other link is unchanged and only the legs differ |
| InitLinks.ConfiguredOk | src/init.cpp:193-201 | when configuring succeeds, the invariant holds, every earlier link stays and every configured link exists and was absent before |
| InitLinks.ConfiguredDistinct | src/init.cpp:195-196 | when configuring succeeds, no configured link is the identity and none repeats |
| InitLinks.AddConfiguredLinks | src/init.cpp:193-201 | the loop over `initial_links`, as `Configured` gives |
| InitLinks.BelowInjective | src/init.cpp:207-209 | each entity in use gets a draw of its own |
| InitLinks.BlockInRange | src/init.cpp:208 | with at least one block, `floor(u * n)` is a valid block |
| InitLinks.DrawnBlockInRange | src/init.cpp:206-209 | every entity draws one of its type's blocks, and distinct entities use distinct draws |
| InitLinks.DrawBlocksFrom | src/init.cpp:206-209 | every entity in use, in increasing order, draws its block; the draws are counted |
| InitLinks.DrawBlocks | src/init.cpp:206-209 | makes one draw per entity in use and changes nothing else |
| InitLinks.PairTriedOnce | src/init.cpp:216 | for a symmetric type exactly one order of each pair is tried, otherwise both; an entity is never tried with itself |
| InitLinks.PairLinked | src/init.cpp:216-219 | one pair's step of the block model keeps the invariant whenever it succeeds |
| InitLinks.PairsLinked | src/init.cpp:214-221 | the steps over a list of pairs, in order, keep the invariant whenever they succeed |
| InitLinks.PairsLinkedStops | src/init.cpp:214-221 | once a step fails, every longer list of pairs fails too |
| InitLinks.TryPair | src/init.cpp:216-219 | the new state is `PairLinked`: a pair that `PairTried` selects is linked by `RandomLinked` with `PairProbability` (within blocks in one block, between blocks otherwise, a missing entry reading as 0), and any other pair leaves the state |
| InitLinks.RowLinks | src/init.cpp:215-220 | the inner loop over the second type's entities continues the fold `PairsLinked` by one row |
| InitLinks.LinkTypeLinks | src/init.cpp:214-221 | the new state is `LinkTypeLinked`: every pair of entities of the two types, in list order, has gone through `PairLinked`; and links are only added |
| InitLinks.BlockLinks | src/init.cpp:210-223 | the new state is `TypesLinked` over an order of exactly the link types with a positive probability within blocks, each once, none the identity; earlier links stay and every new link is of such a type |
| InitLinks.InitLinks | src/init.cpp:183-251 | afterwards every entity in use has its identity link, every configured link exists and every earlier link stays |
| Config.ReadLimitsAsWritten | src/config.cpp:207-217 | `max_t` defaults to 0, an infinite `t` is rejected, `max_n_events` is the floor of `events` or `LONG_MAX` |
| Config.LimitsCheckUnreachable | src/config.cpp:216-217 | as written, the "at least one limit" error never fires, and a configuration without limits runs up to time 0 |
| Config.ReadLimitsCases | src/config.cpp:207-217 | with the intended default, reading fails exactly when `t` is infinite or neither limit is given; otherwise a given `t` is kept, a missing one is +∞, and `events` is floored |
| Config.ReadTailsOk | src/config.cpp:601-611 | accepted tail indices are finite and non-negative; one number gives both tails and a pair gives them in order; anything else is rejected |
| Config.WithBlockModel | src/config.cpp:394-412 | the block model records the blocks and both probabilities for the link type, keeping every earlier entry |
| Config.WithSpatialModel | src/config.cpp:417-426 | the geometric model records the dimension for both types and the decay for the link type |
| Config.RandomLinkEntry | src/config.cpp:384-430 | a density is a one-block model; `blocks` a block model on one entity type (within 1, between 0 by default); `dimension` a geometric model (decay 1 by default); asymmetric blocks and undeclared labels are rejected |
| Config.RandomLinkEntryRejects | src/config.cpp:396-423 | a density, within or between outside [0, 1], and non-positive blocks, dimension or decay are rejected |
| Config.RandomLinksReadOk | src/config.cpp:379-431 | reading the random links keeps what the tables promise: probabilities in [0, 1], positive blocks, dimensions and decays |
| Config.RandomLinksReadKeeps | src/config.cpp:379-431 | an entry never removes what an earlier one configured |
| Config.ReadRandomLinks | src/config.cpp:379-431 | the `initial links: random` section, as `RandomLinksRead` gives |
| Config.ReadNamedLinks | src/config.cpp:356-377 | fails exactly when some entry names an undeclared entity or type; otherwise yields the set of the links named |
| Config.FirstNamed | src/config.cpp:73-76 | the first variable with the name, as tinyexpr resolves one |
| Config.EpsilonAsWritten | src/config.cpp:161-164 | as written `eps` and `epsilon` read as +∞, because their slots point at `te_vals[0]` |
| Config.BuiltinsRead | src/config.cpp:155-165 | with the intended slots, the three infinities read +∞ and both epsilons 2^-52 |
| Config.Metaparameters.constructor | src/config.cpp:155-165 | the five built-in variables with the intended slots |
| Config.Metaparameters.Register | src/config.cpp:86-96 | fails once the table is full; otherwise the new value reads under its name unless an earlier variable has that name, and every other name reads as before |
| Config.LookupAppend | src/config.cpp:89-95 | appending a variable in a fresh slot changes only what its name reads, and only when no earlier variable has that name |
| ConfigTypes.ReadEntityLabels | src/config.cpp:100-107 | one new entity per label, all of the given type; the type tables stay |
| ConfigTypes.RegisterEntityTypes | src/config.cpp:219-243 | entity types get ids 1, 2, … in listing order with their label and count, where a bare list counts its labels; labelled entities get ids 1, 2, … with the type of their entry |
| ConfigTypes.WithRatOk | src/config.cpp:256-259 | registering a label keeps the table invariant and every label, and gives the label the next id in both directions |
| ConfigTypes.CollectRatLabels | src/config.cpp:254-261 | the k-th label gets id `nextrat + k` |
| ConfigTypes.PairedOk | src/config.cpp:281-297 | recording an inverse pair keeps the table invariant and every label |
| ConfigTypes.PairedRecords | src/config.cpp:281-297 | the pair is recorded in both directions; a new inverse gets the next id and no gexf file |
| ConfigTypes.ResolveInverseOk | src/config.cpp:263-298 | the second pass keeps the invariant and every label, and fails exactly on the label `symmetric` |
| ConfigTypes.ResolveInverseRecords | src/config.cpp:268-297 | an entry records its gexf file; with an inverse, the pair is recorded in both directions; `symmetric` makes the type its own inverse |
| ConfigTypes.NoneSymmetricIff | src/config.cpp:265 | no label of the list is `symmetric` exactly when the recursive check says so |
| ConfigTypes.ReadRelationshipTypes | src/config.cpp:245-354 | the k-th listed relationship type keeps the id `RT_ID + 1 + k` in the result; every label is registered; inverses are resolved in order; `symmetric` is refused as a label; any action type is rejected |
| Dynamics.NumberOf | src/config.cpp:521 | a scalar is read as a number; a list cannot be converted and raises the section's catch-all error |
| Dynamics.AngleOfIff | src/config.cpp:530-536 | an angle key is accepted exactly when it has five items, its ends are null or the entry's own entity types, and its middle names declared types, which the angle type then carries in order |
| Dynamics.AttemptCauseOk | src/config.cpp:523-559 | an attempt entry keeps the invariant, rejects a negative rate or a leg key, and records the rate it reads |
| Dynamics.SuccessCauseOk | src/config.cpp:567-616 | a success entry keeps the invariant, rejects a leg key or an unknown word, and records the tails it reads |
| Dynamics.AttemptCausesOk | src/config.cpp:523-560 | an `attempt` map keeps the invariant, and a leg anywhere in it makes it fail |
| Dynamics.SuccessCausesOk | src/config.cpp:567-617 | a `success` map keeps the invariant and the attempt rates, and a leg anywhere in it makes it fail |
| Dynamics.AttemptDefaults | src/config.cpp:517-518 | once `attempt` is given, the tails get their default and the base probunits 0 |
| Dynamics.ReadAttemptOk | src/config.cpp:515-562 | reading `attempt` keeps the invariant; a scalar is the base attempt rate |
| Dynamics.ReadSuccessOk | src/config.cpp:563-620 | reading `success` keeps the invariant and the attempt rates |
| Dynamics.ReadSectionOk | src/config.cpp:511-730 | an `establish` or `terminate` section keeps the invariant |
| Dynamics.DynamicsStepOk | src/config.cpp:498-731 | one entry keeps the invariant and rejects undeclared labels |
| Dynamics.DynamicsReadOk | src/config.cpp:493-732 | reading the whole section keeps the invariant |
| Dynamics.ReadDynamics | src/config.cpp:493-732 | the `dynamics` section, as `DynamicsRead` gives |
| IO.FirstSpace | src/io.cpp:19-50 | the position of the first blank: no blank before it, and a blank at it unless it is the length |
| IO.SplitAtSpace | src/io.cpp:19-50 | a text made of a blank-free word, a blank and a rest determines both |
| IO.JoinedInjective | src/io.cpp:19-24 | three parts joined by blanks, the first two blank-free, determine the parts |
| IO.QuotedInjective | src/io.cpp:26-50 | a class label followed by a quoted text determines both, for the class labels in use |
| IO.EcLabelFirst | src/constants.cpp:16-20 | the class labels are distinct and none is a prefix of another |
| IO.LinkTypeTextInjective | src/io.cpp:19-24 | with blank-free labels, the printed link type determines its types' labels and its relationship label |
| IO.EventTypeTextInjective | src/io.cpp:26-33 | the printed event type determines its class and its labels |
| IO.SummaryShape | src/io.cpp:36-40 | a text starting `some ` after the quote cannot be printed for a specific event with blank-free labels |
| IO.SummaryTextDistinct | src/io.cpp:35-50 | a summary event never prints like a specific event |
| IO.EventTextInjective | src/io.cpp:41-47 | with blank-free, injective entity labels, two specific events that print the same have the same class, ends and relationship label |
| IO.EventTextDetermines | src/io.cpp:41-47 | with blank-free labels and injective entity and relationship labels, two specific events that print the same are equal |
| IO.SummaryJoinedInjective | src/io.cpp:36-40 | a summary text `some t1 r some t3` with blank-free `t1` and `r` determines `t1`, `r` and `t3` |
| IO.SummaryTextDetermines | src/io.cpp:35-40 | with blank-free labels and injective entity type and relationship labels, two summary events that print the same are equal |
| OldSnapshot.OldInfltRoundTrip | data_model.h:139-140 | with the old widths (12/2/2 bits), `MAX_N_INFLT` is 2^14, `INFLT` lies below it and decodes back |
| OldSnapshot.OldInfltInjective | data_model.h:139 | the old `INFLT` is injective with ids in range |
| OldSnapshot.LegLessIsStrictTotalOrder | data_model.h:156-158 | the old leg order is a strict total order |
| OldSnapshot.MergedLength | event.cpp:29-48 | the merge emits no more angles than either leg set has legs |
| OldSnapshot.MergedFrom | event.cpp:36-44 | every emitted angle comes from an out-leg and an in-leg with the same entity |
| OldSnapshot.MergedSorted | event.cpp:34-45 | the emitted middle entities never decrease |
| OldSnapshot.MergedCovers | event.cpp:34-45 | an entity that appears in both leg sets yields at least one angle |
| OldSnapshot.MergedDropsAngle | event.cpp:40-43 | two out-legs to entity 5 and one in-leg from it give one angle; the second angle through 5 is lost |
| OldSnapshot.LegIntersection | event.cpp:29-48 | the array loop computes exactly `Merged(outs, ins)` |
| OldSnapshot.LedgerKeyUnique | data_model.h:207-213 | under the ledger invariant, no two keys name the same event |
| OldSnapshot.RemovedAsWritten | event.cpp:158-163 | `remove_event` as written: `ev2data.erase(ev)` comes first, so the key erased is read from the destroyed entry (`stale`) |
| OldSnapshot.RemovedAsWrittenBreaksLedger | event.cpp:161-162 | the ledger invariant survives exactly when the stale time equals the event's time; any other value leaves a key naming an erased event |
| OldSnapshot.EarliestTime | event.cpp:249-254 | `t2be.begin()`: a key no later than every key |
| OldSnapshot.Ledger.constructor | data_model.h:207-213 | an empty ledger with the given clock, limit and current event is valid |
| OldSnapshot.Ledger.EventIsScheduled | event.cpp:50-54 | an event is scheduled exactly when its time lies above −∞ |
| OldSnapshot.Ledger.StoreEvent | data_model.h:207-213 | storing new data with t = −∞ leaves it unscheduled; the ledger stays valid exactly when no key names the event |
| OldSnapshot.Ledger.ScheduleEvent | event.cpp:56-89 | an unscheduled event gets the time t, and `t2be[t] = ev`; the ledger stays valid |
| OldSnapshot.Ledger.RescheduleEvent | event.cpp:91-97 | the old key is erased and the event moves to the new time; the ledger stays valid |
| OldSnapshot.Ledger.RemoveEvent | event.cpp:158-163 | with the time read before the entry is erased, the key and the entry are gone and the ledger stays valid |
| OldSnapshot.Ledger.PopNextEvent | event.cpp:244-309 | the clock never moves back; with nothing found (and draws left) it is at the limit; an event found is due before the limit, has specific entities and is no longer stored; the ledger stays valid |

## Left out

- gephi/first.py, gexf.cpp, graphviz.cpp, finish.cpp and the gexf edge timing in `add_link`/`del_link`: output to files and to a host application, not simulation logic.
- probability.h, probability.cpp and pfilter.cpp: `probunit2probability`, `effective_rate` and the random number engine are floating-point numerics. They are the given functions `probunitToProbability` and `effectiveRate` in `Tables`, and the draws are the `Rng` streams. `pfilter.cpp` is an unused particle-filter draft.
- Rounding: every double is an exact real or ±∞. NaN from ∞ − ∞ is taken as −∞, and `floor` of a huge `events` value to `long` is not bounded.
- YAML and tinyexpr parsing: configuration nodes arrive already parsed, as datatypes. The checks of the YAML node shapes (`IsMap`, `IsSequence`) are not modelled. Neither is the `as<string>()` conversion except for `NumberOf`.
- The `visualization` section, `diagrams`, the command-line options (tricl.cpp:150-157) and the `te_vars` pointer table beyond the slots: they only configure output.
- The initial-link files (config.cpp:432-489, csv reading): file I/O.
- The random geometric model of `init_links` (init.cpp:226-249): distances are floating point. `Config.WithSpatialModel` records its parameters, but no links are drawn from them.
- Action types: the source rejects them (config.cpp:312), and the model does too. The `r_is_action_type` branch of `dynamics` and the action-type second pass are not modelled beyond that.
- `add_entity(et, label)` (the two-argument version the labels reader calls) is not part of src/entity.cpp. `ConfigTypes.ReadEntityLabels` models it as an id from a counter and the given label.
- `dump_data` and the `event_data` printer (io.cpp:52-63): debug output.
- The `tails` arguments that angle.cpp and init.cpp pass to `schedule_event`/`reschedule_event`: src/event.cpp declares these functions with two parameters, and the model follows event.cpp.
- Simulate.PopNextEvent: the number of passes is bounded by `fuel`, and `ok` is false when the fuel runs out. The claims hold for every run that ends within its fuel.
- Simulate.Simulate: the number of steps is a parameter, and the model does not claim that the loop ends of itself.
- Time collisions: `t2be[t] = ev` overwrites the key of an earlier event drawn at the same time. The invariant keeps this as the `collided` flag. After a collision, only "every key names a stored event at its time" is kept, not "every event has its key".
- Undefined behaviour: `leg_intersection` on an empty out-leg set reads `out1.begin()` unchecked. `Angles.LegIntersection` therefore requires at least one out-leg. `EventAdd.EventAdded` returns None and `Debugging.ComputeNAngles` returns `ok == false` on an empty out-leg set, where the source's behaviour is undefined. The invariant does not record that every entity in use has its identity out-leg, so the model does not rule this case out.
- Unchecked type widths: src/init.cpp:61-73 writes `_inflt2*[INFLT(inflt)]` without checking that the type ids fit the `ET_BITS`/`RAT_BITS` fields, and config.cpp does not bound the number of types, so a larger id writes past `MAX_N_INFLT`. `InitTables.FillInfluenceArray` fails there instead. Likewise `EventAdd.EventAdded` (event_add.dfy:276) and `Debugging.ComputeNAngles` (debugging.dfy:44) stop when an out-leg's type is not in 1..`nRats`, a type whose influence key would not fit the `INFLT` fields.
- Links to ids not in use: `Links.AddLink` requires both ends to be entities in use, and `EventPerform.LinkChanged` and `EventPerform.ChangeLink` stop (None, `ok == false`) on such a link. `add_link` would create the leg sets through `operator[]`; every caller in the source passes entities in use.
- Old snapshot asserts: event.cpp defines `NDEBUG` (event.cpp:9), so its asserts are compiled out. The requires of `OldSnapshot.Ledger` are obligations that the old code leaves to its callers and does not check.
- `operator[]` insertions: rat2inv[…], `e2outs[e]`, `et2n_blocks[…]` and `ets2relations[…]` read a default without storing it. The model reads the default and does not record the inserted entry, which no later code observes. The exception is `do_random_link`, where the insertion matters (Findings).
- Simulate.RandomLinkedOk: does not state how many draws are consumed.
- `unordered_map` iteration order: loops over unordered maps and sets are modelled in an order the model picks (sets) or in the order of a given sequence. The claims hold for every order.
- `_inflt2*` arrays and `_e2et` are maps from an index to a value. An index without an entry reads as the 0 the initialisation wrote.
- Schedule: `schedule_t` is not used by src/event.cpp, which keeps `t2be` directly. The class is modelled on its own, with `Entry(evd, sc)` for the `sc` field that the `event_data` of data_model.h lacks. `pop_min_t` as written reads `begin()` of an empty tree (Findings); the model moves the LATER events in that case. The bulk move assumes distinct times, because `std::map` would overwrite one.
- Dynamics.ReadDynamics: the inner keys of a terminate section are modelled with the same rules as those of an establish section. Only the error wording differs, and it is kept.
- Old snapshot: only `leg_intersection`, the `t2be`/`ev2data` bookkeeping (`event_is_scheduled`, `_schedule_event`, `schedule_event`, `reschedule_event`, `remove_event`, `pop_next_event`) and the 12/2/2-bit INFLT are modelled. The summary branch of `pop_next_event` is abstracted as a given `SummaryDraw` per pass, and the drawn times are given values. The old `add_event`, `update_adjacent_events` and `perform_event` match their src/ successors in structure and are modelled only there.

## Findings

| source | as written | input that shows it | evidently intended | confidence | as-written member | corrected member |
|---|---|---|---|---|---|---|
| src/event.cpp:110 | `for (auto& [e2, rat12] : outs1)` binds `rat_out` to `e2` and `e_other` to `rat12`, because `outleg` declares `rat_out` first (data_model.h:250-253); the same binding is at src/event.cpp:318 | an out-leg of type 2 to entity 5 is read as type 5 to an entity of entity 2's type | read the leg's type as `rat12` and its entity as `e2` | high, not executed | EventAdd.OutLegAngleAsWrittenExample | EventAdd.OutLegInfluenceInRange |
| src/link.cpp:52-53 | `&ev2data[ev]` inserts a default entry (t = −∞) for an establishment that was not stored, and only a scheduled entry is removed before `perform_event` | a random initial link whose establishment event was not stored | look the event up without inserting (`conditionally_remove_event`) | high, not executed | Simulate.RandomLinkEntryAsWrittenBreaksInvariant | Simulate.RandomLinkedOk |
| src/config.cpp:27 | `max_t` defaults to 0.0, so the check at src/config.cpp:216 that at least one limit is given never fires, and a configuration without limits runs to time 0 | `limits: {}` | default `max_t` to infinity, so that the check can fire | high, not executed | Config.LimitsCheckUnreachable | Config.ReadLimitsCases |
| src/data_model.h:365 | `ev.e3 << (2+E_BITS)` shifts an `int` by 22 bits, so the bits of e3 above bit 9 are lost in 32 bits (signed overflow before C++20) | events with e3 = 0 and e3 = 1024, otherwise equal | compute the hash in `size_t` | medium: a collision only slows `unordered_map`; not executed | DataModel.EventHashAsWrittenCollides | DataModel.EventHashRoundTrip |
| src/data_model.h:360 | `l.e3 << (E_BITS+RAT_BITS)` shifts an `int` by 24 bits, so the bits of e3 above bit 7 are lost | links with e3 = 0 and e3 = 256, otherwise equal | compute the hash in `size_t` | medium: a collision only slows `unordered_map`; not executed | DataModel.LinkHashAsWrittenCollides | DataModel.LinkHashRoundTrip |
| event.cpp:161-162 | `remove_event` erases `ev2data[ev]` and then reads `evd_->t` through the dangling pointer to erase the key | any scheduled event, once the freed entry no longer holds its time | read the time before erasing, as src/event.cpp:164-165 does | high, not executed | OldSnapshot.RemovedAsWrittenBreaksLedger | OldSnapshot.Ledger.RemoveEvent |
| src/config.cpp:158-164 | the variables `infty`, `infinity`, `eps` and `epsilon` all point at `te_vals[0]`, so `eps` and `epsilon` read +∞ | the expression `eps` | point each variable at its own slot | high, not executed | Config.EpsilonAsWritten | Config.BuiltinsRead |
| src/schedule.h:100 | `min_t_later < t2ev_sooner.begin()->first` dereferences `begin()` of the tree when it is empty, and only this bulk move ever fills the tree | a new schedule, one event inserted with a time in the LATER tier, then `pop_min_t` | move the LATER events when the tree is empty too | high, not executed | Schedule.EmptyTreeReached | Schedule.ScheduleT.PopMinT |
| event.cpp:34-45 | the old `leg_intersection` advances both cursors on a match, so only one angle per middle entity and per pairing run is found | two out-legs to entity 5 and one in-leg from it | every pair of legs through a shared entity gives an angle, as src/angle.cpp:92-163 computes | medium: the old snapshot may have relied on one type per pair; not executed | OldSnapshot.MergedDropsAngle | Angles.AnglesMembers |

## Notes on the source

- The src/ files come from slightly different revisions, and each file's own code is modelled:
  - src/link.cpp names the leg fields `.e`/`.r`, but data_model.h declares `outleg` as (`rat_out`, `e_other`) and `inleg` as (`e_other`, `rat_in`).
  - `max_e` starts at −1 in init.cpp and at 0 in config.cpp.
  - config.cpp writes `evt2base_probunits` and `inflt2delta_probunits`, while the rest of the code reads `evt2base_probunit` and `inflt2delta_probunit`. The model uses one table for each.
- Error texts are kept as the source writes them:
  - The `tails` error of an establish section says "non-negative finite numbers", as the code reads.
  - The attempt keys' error in one branch lists only `basic`.
  - A scalar attempt rate is not checked to be non-negative (config.cpp:521, unlike the map form at 526). The model records it as read.
- A `basic` attempt rate never takes effect. config.cpp stores it only in `evt2base_attempt_rate` (config.cpp:521, 558, 630, 667), and no other file reads that table. The summary events (init.cpp:170-171) and `add_event` (event.cpp:145-146) read the rate at `NO_ANGLE` from `_inflt2attempt_rate`, which init.cpp:66-68 fills from `inflt2attempt_rate`, but config.cpp writes `inflt2attempt_rate` only under angle keys (config.cpp:553, 662). The model keeps both tables as the source does.

