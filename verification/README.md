# Realm object store and PKHUD: a verified model

This project models the stateful core of two libraries that the app carries with it: the Realm
object store (the accessor code that creates and updates objects, lists, query results, write
transactions, dates, index sets, observers, include paths) and the PKHUD progress overlay. It
proves what that code promises to its callers.

**Accessor code.** `Store` holds the tables of a file and the writes that can be issued to them;
`Accessor` gives creating, updating, list assignment and bulk setting as functions that return the
new store, the writes issued, and a value or an error. `Group` is the same code in its imperative
form, a class over mutable tables whose methods are proved against those functions. The input is
any boxed value a binding can pass: null, a scalar, a managed row or list, a vector, or a
dictionary that describes an object, nested to any depth.

The results about it are collected in `Objects` and hold for every store and every input:

- a create, a list assignment or setting a property succeeds exactly if its input meets a condition
  that is decided on the input and the store beforehand (`Admission`): keys possible and free, values
  that fit, managed rows that exist, nothing missing from a new object;
- the object that a description means is the one with the key it gives (`Keys`);
- every operation is a run of legal single writes (`Safety`, `Runs`), so outside migrations no two
  rows share a key, no row moves or changes its key, and every link points to an existing row,
  also after an error half way;
- a successful create adds exactly the described objects that were missing;
- UpdateAll and UpdateModified have the same results and errors and leave the same store;
- a successful create makes its input true (`Meaning` says when a store satisfies an input), leaves
  everything else alone, and repeating it under UpdateModified changes nothing;
- on every cell, UpdateModified issues exactly the position-wise edits that lead from the old
  contents to the new. `Edits` counts them: no way of setting, appending and removing last elements
  needs fewer, and compared with UpdateAll a single value is never written more often and a list
  exactly if the edits are more than its new length plus one.

The conditions of the last three are checked on the input alone (in `Footprint`). `Consistent` says
that descriptions of one object do not give a property different values, and that no object is
described again inside its own description, other than by its key. Repeated equal descriptions are
consistent. An object type without primary key is subject to this only under UpdateModified, which
may reuse the object that a link points to; otherwise such objects are always new, and what a
create makes true of them says so. `Untangled`, for the agreement of the update policies, asks for
primary keys, since UpdateModified is meant to differ where it reuses an object without one.
`Reentry` shows with concrete inputs that these conditions cannot be dropped: on 1 -> 7 -> 1 -> 9
the two update policies end with different links, because `ValueUpdater` reads the current link
before the nested create runs; a null default does not reset a link that a nested description has
set; and of two descriptions that disagree only the later one is true afterwards. Descriptions that
disagree on a scalar hold in no store at all (`Meaning.ConflictNeverHolds`).

One finding: Realm.swift promises that the modified policy never results in more data being
written. For lists that fails by number of writes: replacing many elements by none removes them one
by one, where UpdateAll clears once. `Edits.DiffWritesNoMore` has the exact condition.

**Setters.** `Setters` is the public setter of one property, `Bulk` the one for all query results:
which property a name means, what is refused, when they succeed, and what they leave.

**Transactions.** `Transaction` gives `Realm.write` over blocks of arbitrary actions, including
nested writes, explicit commits and cancels, and swallowed errors; `Realm` is the class. Whatever
error reaches the block's caller is taken to be one that `catch` sees. `Blocks` says what the actions
of a block do to the objects, and so what a successful `write` has committed.

**Dates.** `Timestamp` works over exact reals with explicit 64-bit and 32-bit results. One finding:
the lower clamp subtracts the 1970 offset from the date, so that the dates in the first 978307200
seconds of the 64-bit range are clamped although no step of the conversion would overflow. Earlier
dates have to be clamped, even those that a timestamp could hold, because seconds since 2001 are
cast before the offset is added. `Timestamp.NeedlesslyClamped` states the interval exactly.

**Index sets.** `IndexSet` covers the iterators over chunks, ranges and indices. One finding: index
iterators compare equal whenever they are in the same range, whatever their offset
(`IndexSet.SameInOneRange`).

**Overlay.** `Hud` is PKHUD's show, hide and timer logic as a state machine over calls, timer
firings and animation ends. One finding: a show during a running hide animation is undone when
that animation ends, because its completion still runs (`Hud.ShownThenHidden`); `Hud.ShowLasts`
says exactly when.

**Smaller cores.** `Observation` (observer chains on the heap), `SwiftList` (range edits) and
`KeyPaths` (link paths for include descriptors).

Files are named after their modules. `dafny verify dfyconfig.toml` checks everything.

## Model

| member | source | states |
|---|---|---|
| `Store.FindFirst` | CheckExchangeRate/Pods/Realm/include/object_accessor.hpp:341-349 | the first row with the key, or none if no row has it |
| `Group.Group.FindFirstRow` | CheckExchangeRate/Pods/Realm/include/object_accessor.hpp:334-350 | the loop over the rows finds that first row |
| `Group.Group.AddEmptyRow` | CheckExchangeRate/Pods/Realm/include/object_accessor.hpp:224-237 | one row is appended with column defaults and, if given, its key; its index is the old row count |
| `Group.Group.GetOrAdd` | CheckExchangeRate/Pods/Realm/include/object_accessor.hpp:200-271 | finds the row by key, adds one, reuses the current row, or refuses, as the policy and the migration flag say; store, writes and result are those of `GetOrAddRow` |
| `Group.Group.CreateObject` | CheckExchangeRate/Pods/Realm/include/object_accessor.hpp:190-305 | creating an object, with nested objects, changes the tables and issues the writes that `Create` describes, and returns its result |
| `Group.Group.PopulateObject` | CheckExchangeRate/Pods/Realm/include/object_accessor.hpp:277-297 | the loop over the persisted properties, stopping at the first error |
| `Group.Group.PopulateProperty` | CheckExchangeRate/Pods/Realm/include/object_accessor.hpp:278-296 | one turn: skipped, refused, or set from the input or the default |
| `Group.Group.SetPropertyValueImpl` | CheckExchangeRate/Pods/Realm/include/object_accessor.hpp:103-142 | null, list or single value; under UpdateModified only if it differs; a null default is not written to a link |
| `Group.Group.UnboxValue` | CheckExchangeRate/Pods/Realm/include/impl/object_accessor_impl.hpp:179-191 | a scalar of the right type, a managed row, or a nested create with the current row |
| `Group.Group.AssignList` | CheckExchangeRate/Pods/Realm/include/list.hpp:249-282 | same list, null, diff or clear-and-refill |
| `Group.Group.AssignOver` | CheckExchangeRate/Pods/Realm/include/list.hpp:260-275 | the diff: overwrite, append, trim from the end |
| `Group.Group.AssignElement` | CheckExchangeRate/Pods/Realm/include/list.hpp:263-271 | one element of the diff |
| `Group.Group.TrimTo` | CheckExchangeRate/Pods/Realm/include/list.hpp:272-274 | removes the last element until the new length is reached |
| `Group.Group.AddAll` | CheckExchangeRate/Pods/Realm/include/list.hpp:278-280 | appends the elements in order |
| `Group.Group.SetElementIfDifferent` | CheckExchangeRate/Pods/Realm/include/list.hpp:236-246 | sets the element unless the list holds it already; refuses an index out of bounds |
| `Group.Group.AddElement` | CheckExchangeRate/Pods/Realm/include/list.hpp:193-197 | unboxes and appends one element |
| `Group.Group.RemoveAll` | CheckExchangeRate/Pods/Realm/include/list.hpp:78 | the list is empty |
| `Group.Group.RemoveAt` | CheckExchangeRate/Pods/Realm/include/list.hpp:77 | the element at the index is gone |
| `Group.Group.SetObjectProperty` | CheckExchangeRate/Pods/Realm/include/object_accessor.hpp:43-57 | a detached row, an unknown or computed property and, outside migrations, a primary key are refused; else the property is set |
| `Group.Group.Snapshot` | CheckExchangeRate/Pods/Realm/include/results.hpp:350-354 | the rows that match before anything is written |
| `Group.Group.SetResultsProperty` | CheckExchangeRate/Pods/Realm/include/results.hpp:336-359 | refuses primary keys and unknown properties, then sets all rows of the snapshot |
| `Group.Group.SetRows` | CheckExchangeRate/Pods/Realm/include/results.hpp:355-358 | the loop over the snapshot, stopping at the first error |
| `Safety.WriteKeepsWellFormed` | CheckExchangeRate/Pods/Realm/include/object_accessor.hpp:82-142 | a legal write keeps every cell of its type and every link on an existing row |
| `Safety.WriteKeepsUniqueKeys` | CheckExchangeRate/Pods/Realm/include/object_accessor.hpp:218-243 | a legal write never makes two rows share a key |
| `Safety.LogKeepsRows` | CheckExchangeRate/Pods/Realm/include/object_accessor.hpp:50-54 | over any run rows keep their place and, outside migrations, their key |
| `Safety.LogKeepsUniqueKeys` | CheckExchangeRate/Pods/Realm/include/object_accessor.hpp:204-258 | over any run outside migrations keys stay unique |
| `Runs.CreateRuns` | CheckExchangeRate/Pods/Realm/include/object_accessor.hpp:190-305 | every create, successful or not, is a run of legal writes, and the returned row exists |
| `Runs.SetPropertyRuns` | CheckExchangeRate/Pods/Realm/include/object_accessor.hpp:103-142 | so is setting a property |
| `Runs.AssignRuns` | CheckExchangeRate/Pods/Realm/include/list.hpp:249-282 | so is assigning to a list, also when a nested create changes that list |
| `Runs.SetPropertyValueRuns` | CheckExchangeRate/Pods/Realm/include/object_accessor.hpp:43-57 | so is the public setter |
| `Setters.NameMeans` | CheckExchangeRate/Pods/Realm/include/object_accessor.hpp:43-57 | a name means the one persisted property called so, writable unless it is the primary key outside a migration |
| `Setters.SetterRefuses` | CheckExchangeRate/Pods/Realm/include/object_accessor.hpp:43-57 | the refusals of the public setter in order, before any write: detached row, unknown or computed property, primary key outside a migration |
| `Setters.SetterSets` | CheckExchangeRate/Pods/Realm/include/object_accessor.hpp:43-57 | after a success the property called so, in that row, is what the value stands for; other cells that the value does not name are left alone, whatever the outcome |
| `Setters.SetterSucceeds` | CheckExchangeRate/Pods/Realm/include/object_accessor.hpp:43-57 | when the public setter succeeds |
| `Setters.SetterScalar` | CheckExchangeRate/Pods/Realm/include/object_accessor.hpp:43-57 | a scalar property, also a primary key in a migration, is set exactly if the value fits |
| `Setters.AlwaysWrites` | CheckExchangeRate/Pods/Realm/include/object_accessor.hpp:103-142 | unless the policy is UpdateModified the property is written even if it does not change |
| `Runs.SetAllRuns` | CheckExchangeRate/Pods/Realm/include/results.hpp:336-359 | so is setting all query results |
| `Upsert.CreateUpserts` | CheckExchangeRate/Pods/Realm/include/object_accessor.hpp:200-271 | only described objects are added, and after a success all of them exist |
| `Upsert.CreateOnlyFromDict` | CheckExchangeRate/Pods/Realm/include/object_accessor.hpp:200-296 | an input that is not an object description is refused with a cast error |
| `Keys.KeyForExact` | CheckExchangeRate/Pods/Realm/include/object_accessor.hpp:202-214 | the key that is looked up is the one given, else the default, else null; and which error if there is none |
| `Frame.CreateFrame` | CheckExchangeRate/Pods/Realm/include/object_accessor.hpp:190-305 | a create reads and writes nothing but keys outside the footprint of its input: changing such a cell before or after it is the same |
| `Frame.CreateSpares` | CheckExchangeRate/Pods/Realm/include/object_accessor.hpp:190-305 | cells that the input does not name keep their value, whatever the outcome; under every policy but UpdateModified this includes all existing cells of types without primary key |
| `Agreement.CreateAgrees` | CheckExchangeRate/Pods/Realm/include/object_accessor.hpp:190-305 | UpdateAll and UpdateModified: same result, and the same store on success |
| `Agreement.SetPropertyAgrees` | CheckExchangeRate/Pods/Realm/include/object_accessor.hpp:82-125 | the same for one property |
| `Agreement.AssignAgrees` | CheckExchangeRate/Pods/Realm/include/list.hpp:249-282 | the same for a list: the diff ends as clear-and-refill does |
| `Agreement.AssignFromAgrees` | CheckExchangeRate/Pods/Realm/include/list.hpp:260-275 | the invariant of the diff loop: its list cut to the processed length is the refilled list |
| `Agreement.TrimResult` | CheckExchangeRate/Pods/Realm/include/list.hpp:272-274 | trimming always succeeds and leaves the prefix |
| `Footprint.RepeatedIsConsistent` | CheckExchangeRate/Pods/Realm/include/list.hpp:277-281 | a consistent description may be repeated in a list any number of times |
| `Meaning.CreateSilent` | CheckExchangeRate/Pods/Realm/include/object_accessor.hpp:82-125 | if the input is true already, of the object with its key or of the row it would reuse, UpdateModified changes nothing |
| `Meaning.HoldsKept` | CheckExchangeRate/Pods/Realm/include/object_accessor.hpp:190-305 | what an input says stays true while its footprint is left alone or claimed again with the same values |
| `Meaning.ConflictNeverHolds` | CheckExchangeRate/Pods/Realm/include/object_accessor.hpp:277-297 | descriptions that give one scalar property of one object different values hold in no store |
| `Fulfilment.CreateHolds` | CheckExchangeRate/Pods/Realm/include/object_accessor.hpp:190-305 | after a success under any policy the input is true, objects without primary key being new rows unless UpdateModified reuses one; every other cell is as it was or is what the input says of it |
| `Fulfilment.SetPropertyHolds` | CheckExchangeRate/Pods/Realm/include/object_accessor.hpp:103-142 | after a property was set it is what the value stands for |
| `Fulfilment.AddFromHolds` | CheckExchangeRate/Pods/Realm/include/list.hpp:277-281 | after a refill each list element is what the input element stands for |
| `Fulfilment.AssignFromHolds` | CheckExchangeRate/Pods/Realm/include/list.hpp:260-275 | and so it is after the diff |
| `Repeats.CreateIdle` | CheckExchangeRate/Pods/Realm/include/object_accessor.hpp:82-98 | under UpdateModified a cell that already is what every description in the input says of it is not written, except that a list given as null is cleared again |
| `Economy.CreateThrifty` | CheckExchangeRate/Pods/Realm/include/object_accessor.hpp:82-98 | UpdateModified writes to any existing cell only the edits from old to new, however often the input describes it |
| `Economy.AssignFromEdits` | CheckExchangeRate/Pods/Realm/include/list.hpp:260-275 | the diff writes a set exactly where both lists have differing elements, then appends or removes the rest, last first |
| `Objects.CreateKeepsIdentity` | CheckExchangeRate/Pods/Realm/include/object_accessor.hpp:200-271 | unique keys, immutable keys, stable rows and valid links after every create, successful or not |
| `Objects.CreateAddsExactly` | CheckExchangeRate/Pods/Realm/include/object_accessor.hpp:200-271 | after a success a table has the old keys and the described ones, one row each |
| `Admission.CreateSucceeds` | CheckExchangeRate/Pods/Realm/include/object_accessor.hpp:190-305 | when a create succeeds: exactly if its key is possible and, under ForceCreate, neither taken nor described earlier in the input, every given value fits, every managed row exists, and a new object lacks nothing that has no default; decided on the input and the store alone |
| `Admission.UpdateModifiedSucceeds` | CheckExchangeRate/Pods/Realm/include/object_accessor.hpp:190-305 | the same for UpdateModified on untangled inputs; for consistent inputs the condition is sufficient |
| `Admission.SetPropertySucceeds` | CheckExchangeRate/Pods/Realm/include/object_accessor.hpp:103-142 | the same for setting a property |
| `Admission.AssignSucceeds` | CheckExchangeRate/Pods/Realm/include/list.hpp:249-282 | the same for assigning to a list: lists of described objects are accepted element by element |
| `Objects.CreateFindsOrAdds` | CheckExchangeRate/Pods/Realm/include/object_accessor.hpp:202-257 | the returned row has the key that the description asks for (its own field, else the default, else null); it is the first row that had the key, or else a new last row; ForceCreate refuses an existing key before any write |
| `Objects.CreateWithoutKey` | CheckExchangeRate/Pods/Realm/include/object_accessor.hpp:202-214 | a description that asks for no possible key is refused before any write, with the error that fits |
| `Objects.MigrationDuplicates` | CheckExchangeRate/Pods/Realm/include/object_accessor.hpp:243-250 | in a migration ForceCreate adds a new last row although the key exists |
| `Objects.PoliciesAgree` | CheckExchangeRate/Pods/Realm/include/object.hpp:41-44 | the two update policies differ in what they write, not in what they achieve |
| `Objects.CreateFulfils` | CheckExchangeRate/Pods/Realm/include/object_accessor.hpp:273-297 | a success makes the input true, with or without primary keys; an object without one is a new last row; all cells not named are left alone |
| `Objects.RepeatIsSilent` | CheckExchangeRate/Pods/RealmSwift/RealmSwift/Realm.swift:342-349 | repeating a create of a keyed object under the modified policy finds the same row and changes nothing |
| `Objects.UpdateModifiedEdits` | CheckExchangeRate/Pods/RealmSwift/RealmSwift/Realm.swift:342-349 | only what changed is written: on each cell exactly the position-wise edits from old to new |
| `Objects.ListAssign` | CheckExchangeRate/Pods/Realm/include/list.hpp:249-282 | the list holds what the input stands for under every policy; self-assignment does nothing |
| `Objects.ListDiff` | CheckExchangeRate/Pods/Realm/include/list.hpp:249-282 | the diff ends as clearing and refilling does, by exactly the position-wise edits from the old elements to the new |
| `Reuse.ElementsKeptOrNew` | CheckExchangeRate/Pods/Realm/include/list.hpp:260-281 | descriptions of objects without primary key: under UpdateModified the elements that the list has keep their objects, and every other description adds an object of its own |
| `Reuse.LinkKeptOrNew` | CheckExchangeRate/Pods/Realm/include/object_accessor.hpp:259-271 | the same for a link: the linked object is kept under UpdateModified, else the link ends at a new object |
| `Edits.EditCount` | CheckExchangeRate/Pods/Realm/include/list.hpp:260-275 | the number of writes: differing elements, plus missing ones, plus left-over ones |
| `Edits.FewestEdits` | CheckExchangeRate/Pods/Realm/include/list.hpp:260-275 | no log that sets, appends or removes the last element leads from the old elements to the new with fewer writes to the list |
| `Edits.DroppingTheFirst` | CheckExchangeRate/Pods/Realm/include/list.hpp:260-275 | with removals elsewhere it could be fewer: one instead of three for dropping the first of three elements |
| `Edits.DiffWritesNoMore` | CheckExchangeRate/Pods/Realm/include/list.hpp:260-281 | the diff writes no more to the list than clearing and refilling exactly if the edits are at most one more than the new elements |
| `Edits.SingleWritesNoMore` | CheckExchangeRate/Pods/RealmSwift/RealmSwift/Realm.swift:342-349 | a single value is never written more often under the modified policy than under the other |
| `Objects.NewObjectDefaults` | CheckExchangeRate/Pods/Realm/include/object_accessor.hpp:282-296 | in a new object, keyed or not, every property that the input leaves out has its default, under every policy |
| `Objects.NewColumns` | CheckExchangeRate/Pods/Realm/include/object_accessor.hpp:224-237 | what the columns of a new row hold: empty, null, zero or false |
| `Objects.NullDefaultLink` | CheckExchangeRate/Pods/Realm/include/object_accessor.hpp:112-117 | a null default need not be written to a link of a new object, unless a nested description of the same object sets it |
| `Reentry.TangledPoliciesDiffer` | CheckExchangeRate/Pods/Realm/include/object_accessor.hpp:82-90 | an input that describes an object inside its own description, on which the update policies end differently |
| `Reentry.StaleDefaultLink` | CheckExchangeRate/Pods/Realm/include/object_accessor.hpp:112-117 | an input that leaves a link non-null although its default is null |
| `Reentry.ConflictingDescriptions` | CheckExchangeRate/Pods/Realm/include/object_accessor.hpp:277-297 | an input with two descriptions of one object that disagree: a success does not make it true, and repeating it writes again |
| `Bulk.SetEachSimultaneous` | CheckExchangeRate/Pods/Realm/include/results.hpp:353-358 | the loop amounts to one simultaneous update of the listed rows |
| `Bulk.SetAllIsSimultaneous` | CheckExchangeRate/Pods/Realm/include/results.hpp:336-359 | for a value that describes no object, every row matching at the start gets it in the property called so, once; nothing else changes, whatever the query depends on; it fails only if the value does not fit and a row matches |
| `Bulk.SetAllFulfils` | CheckExchangeRate/Pods/Realm/include/results.hpp:336-359 | for any value, also one that describes objects: after a success every row matching at the start has what it stands for, no cell changes that the value does not name, and an object without primary key is created anew for each row |
| `Bulk.SetAllRefuses` | CheckExchangeRate/Pods/Realm/include/results.hpp:341-347 | the refusals, before any write, said of the properties of the type: unknown or computed name, primary key outside a migration |
| `Bulk.SetAllSucceeds` | CheckExchangeRate/Pods/Realm/include/results.hpp:336-359 | when the bulk setter succeeds, for any value: exactly if every row matching at the start admits it, the later ones with the described objects existing already |
| `Bulk.SetAllCreatesOnce` | CheckExchangeRate/Pods/Realm/include/results.hpp:355-358 | one description of a keyed object cannot be set on two rows |
| `Realm.Realm.BeginWrite` | CheckExchangeRate/Pods/RealmSwift/RealmSwift/Realm.swift:245-247 | opens a transaction on the last committed version, or refuses |
| `Realm.Realm.CommitWrite` | CheckExchangeRate/Pods/RealmSwift/RealmSwift/Realm.swift:279-281 | publishes the changes and ends the transaction, or fails |
| `Realm.Realm.CancelWrite` | CheckExchangeRate/Pods/RealmSwift/RealmSwift/Realm.swift:315-317 | drops the changes and ends the transaction, or refuses |
| `Realm.Realm.WriteBlock` | CheckExchangeRate/Pods/RealmSwift/RealmSwift/Realm.swift:212-223 | state and result are those of `RunWrite` |
| `Realm.Realm.RunAll` | CheckExchangeRate/Pods/RealmSwift/RealmSwift/Realm.swift:216 | the block, up to its first error |
| `Realm.Realm.Perform` | CheckExchangeRate/Pods/RealmSwift/RealmSwift/Realm.swift:212-223 | one action of a block |
| `Realm.Realm.CreateObject` | CheckExchangeRate/Pods/RealmSwift/RealmSwift/Realm.swift:459-466 | only in a transaction; updating needs a primary key |
| `Transaction.PlainWriteIsAtomic` | CheckExchangeRate/Pods/RealmSwift/RealmSwift/Realm.swift:212-223 | a block that leaves the transaction alone is performed action by action on the last committed version, up to its first error; the file ends as the last action left it or, on any failure, unchanged; the transaction begins once and ends once |
| `Transaction.BlockTrace` | CheckExchangeRate/Pods/RealmSwift/RealmSwift/Realm.swift:216 | a block performs all of its actions one after another, or those up to and including the first that fails |
| `Blocks.WriteCommitsCreates` | CheckExchangeRate/Pods/RealmSwift/RealmSwift/Realm.swift:212-223 | after a successful write every keyed object that the block's creates describe is in the file |
| `Blocks.CreateDoes` | CheckExchangeRate/Pods/RealmSwift/RealmSwift/Realm.swift:459-466 | a create inside a block makes its input true |
| `Blocks.SetDoes` | CheckExchangeRate/Pods/Realm/include/object_accessor.hpp:43-57 | and setting a property sets it |
| `Blocks.SetAllDoes` | CheckExchangeRate/Pods/Realm/include/results.hpp:336-359 | and setting it for all results sets it in every matching row |
| `Blocks.TryDoes` | CheckExchangeRate/Pods/RealmSwift/RealmSwift/Realm.swift:212-223 | a swallowed error leaves what was performed before it |
| `Blocks.ActionRefused` | CheckExchangeRate/Pods/RealmSwift/RealmSwift/Realm.swift:212-281 | what is refused, outside or inside a transaction, and changes nothing |
| `Transaction.WriteEndsOnce` | CheckExchangeRate/Pods/RealmSwift/RealmSwift/Realm.swift:217-221 | whatever the block does to the transaction: nothing is committed or cancelled twice, and no transaction stays open except after a failed commit |
| `Transaction.WriteFollows` | CheckExchangeRate/Pods/RealmSwift/RealmSwift/Realm.swift:212-223 | `write` keeps all invariants of the store and the transaction history |
| `Transaction.EveryVersionIsIntact` | CheckExchangeRate/Pods/RealmSwift/RealmSwift/Realm.swift:212-317 | every version committed by any actions, also in nested blocks, has unique keys and valid links and keeps the rows and keys of the version before it |
| `Transaction.LaterVersionKeeps` | CheckExchangeRate/Pods/RealmSwift/RealmSwift/Realm.swift:212-317 | hence of all versions before it |
| `Transaction.PartialCreateIsUndone` | CheckExchangeRate/Pods/Realm/include/object_accessor.hpp:274-294 | every create that adds a row and lacks a required property fails after the row and all earlier properties were written, with the first error; inside `write` all of it is gone again |
| `Timestamp.TimestampForDate` | CheckExchangeRate/Pods/Realm/include/RLMUtil.hpp:146-169 | the timestamp is the normal one for the date cut to whole nanoseconds toward 2001, with the clamps and the NaN and nil cases; no intermediate overflow |
| `Timestamp.SplitTruncation` | CheckExchangeRate/Pods/Realm/include/RLMUtil.hpp:159-160 | truncating seconds and then nanoseconds is truncating nanoseconds at once |
| `Timestamp.FromNanos` | CheckExchangeRate/Pods/Realm/include/RLMUtil.hpp:159-168 | the parts are normal: same direction, nanoseconds below one second |
| `Timestamp.KnownDates` | CheckExchangeRate/Pods/Realm/include/RLMUtil.hpp:139-168 | the reference date is 31 years and 8 leap days after 1970; the timestamps of both dates and of fractions around them |
| `Timestamp.ConvertMonotone` | CheckExchangeRate/Pods/Realm/include/RLMUtil.hpp:146-169 | an earlier date never gets a later timestamp |
| `Timestamp.NeedlesslyClamped` | CheckExchangeRate/Pods/Realm/include/RLMUtil.hpp:153-161 | which clamped dates the conversion would have carried through without overflow, and which it would not although a timestamp could hold them |
| `Timestamp.TimestampRoundTrip` | CheckExchangeRate/Pods/Realm/include/RLMUtil.hpp:139-169 | timestamp to date to timestamp is the identity exactly on the representable timestamps |
| `Timestamp.DateRoundTrip` | CheckExchangeRate/Pods/Realm/include/RLMUtil.hpp:136-169 | date to timestamp to date moves a date by less than a nanosecond, toward 2001 |
| `IndexSet.ChunkedRangeVectorIterator.Next` | CheckExchangeRate/Pods/Realm/include/index_set.hpp:277-284 | the next range, across chunks, or the end |
| `IndexSet.ChunkedRangeVectorIterator.Previous` | CheckExchangeRate/Pods/Realm/include/index_set.hpp:294-305 | the previous range, across chunks and from the end |
| `IndexSet.ChunkedRangeVectorIterator.NextChunk` | CheckExchangeRate/Pods/Realm/include/index_set.hpp:315-320 | the first range of the next chunk, or the end |
| `IndexSet.ChunkedRangeVectorIterator.Deref` | CheckExchangeRate/Pods/Realm/include/index_set.hpp:47-48 | the range whose number is the rank of the position |
| `IndexSet.ForwardRank` | CheckExchangeRate/Pods/Realm/include/index_set.hpp:277-284 | stepping forward raises the rank by one |
| `IndexSet.BackwardRank` | CheckExchangeRate/Pods/Realm/include/index_set.hpp:294-305 | stepping back lowers the rank by one |
| `IndexSet.BackwardUndoesForward` | CheckExchangeRate/Pods/Realm/include/index_set.hpp:277-305 | -- undoes ++ at every position but the end |
| `IndexSet.ForwardUndoesBackward` | CheckExchangeRate/Pods/Realm/include/index_set.hpp:277-305 | ++ undoes -- at every position but the first, also from the end |
| `IndexSet.IndexStep` | CheckExchangeRate/Pods/Realm/include/index_set.hpp:195-207 | an index iterator is at the member its rank says, and ++ moves it to the next |
| `IndexSet.IndexIterator.Next` | CheckExchangeRate/Pods/Realm/include/index_set.hpp:199-207 | the next index, within the range or in the next one |
| `IndexSet.IndexIterator.Deref` | CheckExchangeRate/Pods/Realm/include/index_set.hpp:195 | the member whose number is the rank of the position |
| `IndexSet.Walk` | CheckExchangeRate/Pods/Realm/include/index_set.hpp:221-235 | walking from begin to end visits exactly the members, in order |
| `IndexSet.MembersAscend` | CheckExchangeRate/Pods/Realm/include/index_set.hpp:126-142 | the members are strictly ascending and are exactly the indices in the ranges |
| `IndexSet.SameAsEnd` | CheckExchangeRate/Pods/Realm/include/index_set.hpp:196-197 | comparing with the end is exact |
| `IndexSet.SameIsPositionEquality` | CheckExchangeRate/Pods/Realm/include/index_set.hpp:196-197 | comparing any two iterators is exact if and only if every range holds one index |
| `IndexSet.SameInOneRange` | CheckExchangeRate/Pods/Realm/include/index_set.hpp:196-197 | two different positions in one range compare equal |
| `Hud.PKHUD.ShowNow` | CheckExchangeRate/Pods/PKHUD/PKHUD/PKHUD.swift:125-150 | attaches, arms a grace timer or shows |
| `Hud.PKHUD.ShowFrame` | CheckExchangeRate/Pods/PKHUD/PKHUD/PKHUD.swift:152-156 | disarms the grace timer and shows |
| `Hud.PKHUD.HideNow` | CheckExchangeRate/Pods/PKHUD/PKHUD/PKHUD.swift:158-163 | disarms the grace timer and hides, with or without animation, or drops the completion if hidden |
| `Hud.PKHUD.FinalizeHide` | CheckExchangeRate/Pods/PKHUD/PKHUD/Window.swift:58-64 | hides, detaches and runs the completion |
| `Hud.PKHUD.HideAfterDelay` | CheckExchangeRate/Pods/PKHUD/PKHUD/PKHUD.swift:169-182 | stores the completion under a new key and supersedes the hide timer |
| `Hud.PKHUD.PerformDelayedHide` | CheckExchangeRate/Pods/PKHUD/PKHUD/PKHUD.swift:212-223 | takes the stored completion and hides with animation |
| `Hud.PKHUD.HandleGraceTimer` | CheckExchangeRate/Pods/PKHUD/PKHUD/PKHUD.swift:225-230 | shows if the remembered grace timer, which is never nil here, is valid |
| `Hud.PKHUD.FinishAnimation` | CheckExchangeRate/Pods/PKHUD/PKHUD/Window.swift:72-76 | a hide animation ends |
| `Hud.StepConserves` | CheckExchangeRate/Pods/PKHUD/PKHUD/PKHUD.swift:158-223 | no event loses or repeats a completion |
| `Hud.GraceTimerIsSet` | CheckExchangeRate/Pods/PKHUD/PKHUD/PKHUD.swift:225-230 | the forced unwrap never meets nil |
| `Hud.HideLasts` | CheckExchangeRate/Pods/PKHUD/PKHUD/PKHUD.swift:158-163 | once hidden after a hide, the overlay stays hidden until the next show, however many grace timers were started |
| `Hud.EveryCompletionIsSomewhere` | CheckExchangeRate/Pods/PKHUD/PKHUD/PKHUD.swift:169-223 | each completion is in exactly one of five places and runs at most once |
| `Hud.SupersededNeverRuns` | CheckExchangeRate/Pods/PKHUD/PKHUD/PKHUD.swift:176-181 | the completion of a superseded delayed hide never runs |
| `Hud.ShowLasts` | CheckExchangeRate/Pods/PKHUD/PKHUD/Window.swift:48-81 | a show lasts until the next call exactly if no hide animation or hide timer was under way |
| `Hud.GraceShows` | CheckExchangeRate/Pods/PKHUD/PKHUD/PKHUD.swift:125-150 | a show with a grace period is visible when its timer fires, which stays armed until a hide or another timer comes |
| `Hud.HideRuns` | CheckExchangeRate/Pods/PKHUD/PKHUD/PKHUD.swift:158-163 | a hide of a visible overlay runs its completion, at once or when its animation ends; of a hidden one it never does |
| `Hud.DelayedHideRuns` | CheckExchangeRate/Pods/PKHUD/PKHUD/PKHUD.swift:169-223 | the completion of a delayed hide runs if its timer fires while the overlay is visible and the animation ends |
| `Hud.ShownThenHidden` | CheckExchangeRate/Pods/PKHUD/PKHUD/Window.swift:48-81 | a run from the start in which a show is undone by the animation of an earlier hide |
| `Observation.ObservationInfo.ForEach` | CheckExchangeRate/Pods/Realm/include/RLMObservation.hpp:115-130 | the calls go backward from the node before and then forward from this one |
| `Observation.EachNodeOnce` | CheckExchangeRate/Pods/Realm/include/RLMObservation.hpp:92-130 | every node of the chain is visited exactly once, from whichever node the walk starts |
| `SwiftList.List.RemoveSubrange` | CheckExchangeRate/Pods/RealmSwift/RealmSwift/List.swift:612-617 | the range is removed; past the end it fails after removing everything from its start on |
| `SwiftList.List.InsertContents` | CheckExchangeRate/Pods/RealmSwift/RealmSwift/List.swift:599-605 | the elements are inserted in order, or nothing is |
| `SwiftList.List.ReplaceSubrange` | CheckExchangeRate/Pods/RealmSwift/RealmSwift/List.swift:503-512 | prefix, new elements, suffix; the failures of an invalid range |
| `SwiftList.List.RemoveFirst` | CheckExchangeRate/Pods/RealmSwift/RealmSwift/List.swift:566-575 | the list without its first elements, or an error |
| `SwiftList.List.RemoveLast` | CheckExchangeRate/Pods/RealmSwift/RealmSwift/List.swift:583-592 | the list without its last elements, or an error |
| `SwiftList.ReplaceIsRemoveInsert` | CheckExchangeRate/Pods/RealmSwift/RealmSwift/List.swift:503-512 | replacing is removing and then inserting |
| `KeyPaths.PartsAreLinked` | CheckExchangeRate/Pods/Realm/include/keypath_helpers.hpp:77-101 | the parts built for a path are a well-typed chain: each starts at the table reached so far, forward links move to their target, backlinks to their origin |
| `KeyPaths.PartsAreMapped` | CheckExchangeRate/Pods/Realm/include/keypath_helpers.hpp:72-102 | the parts of a path are the elements that the mapping yields along all of it, each asked for at the table reached; a path is refused exactly where the mapping yields nothing or no link |
| `KeyPaths.LinksForPath` | CheckExchangeRate/Pods/Realm/include/keypath_helpers.hpp:72-102 | the loop over one key path gives the parts of `PartsFrom`, or its error |
| `KeyPaths.GenerateInclude` | CheckExchangeRate/Pods/Realm/include/keypath_helpers.hpp:58-105 | succeeds exactly if every key path is non-empty and leads over links only, and then gives one well-typed chain for each, in order |
| `KeyPaths.SelfBacklinkLands` | CheckExchangeRate/Pods/Realm/include/keypath_helpers.hpp:85-95 | the shortcut for a backlink within one table lands on its origin |

## Left out

- PoliciesAgree: stated for untangled inputs. On a tangled one the policies agree or differ depending on the
  store (they agree if the outer link was null before), so no condition on the input alone is exact. For nested
  objects without primary key they are not meant to agree: UpdateModified reuses the linked object.
- CreateFulfils: stated for consistent inputs. An inconsistent one may still be true after a create, if what
  differs stands for the same (a managed row and a description of that object, say), or if an object's second description inside
  its own repeats the first.
- UpdateModifiedSucceeds: exact for untangled inputs. For others that describe objects without primary key the
  condition is sufficient only, since a description that updates the linked object may lack required properties,
  and what is linked can change during the call.
- NullDefaultLink: stated for inputs that do not provide the link in a nested description of the same object.
  If they do, the link may still end as null, when the last of them gives null.
- `REALM_ENABLE_SYNC` branches and everything about sync, permissions, users and sessions.
- KVO hooks (`will_change`, `did_change`) and boxing of results: they do not change the store.
- Input values follow the reference context `CppContext`; the Objective-C context converts its
  values in a file that is not part of this model. Its lenient arrays appear as `allowMissing`.
- Default values that describe new objects: a default is null, a scalar, a managed row or a list of these.
- UnboxValue: policy `Skip` on an object description gives an error; in the source it yields the undefined index
  of a detached row when a link is set.
- A managed row of another type given for a link is refused when the value is unboxed; for a single
  link the source leaves that to the core library, which is not part of this model.
- Lists of optional scalars, which would be set to null as a whole by the core library.
- Object types without any property, and deprecated `Any` properties.
- NaN in float and double properties; they are exact reals here.
- IEEE rounding of dates: `Timestamp` uses exact reals for finite dates.
- Deleting objects and `get_property_value`: rows are only added here, so row indexes stay valid.
- Other Realm instances on the same file: a transaction starts from the last version committed here.
- How an Objective-C exception becomes a Swift error, and whether a failed commit leaves the
  transaction open: both outcomes of a failed commit are allowed.
- `IndexSet` mutators, `Schema::compare`, `ObjectStore`, notifiers: only declared in these headers.
- Observers that are destroyed while `forEach` runs; the function called by it is taken not to change the chain.
- Elements of a list range edit that are a live slice of the same list.
- The key path mapping itself: `KeyPaths` assumes that it consumes at least one name and returns valid columns,
  so the branch for a missing column is never taken.
- `add` of a sequence of objects, which is a block of single creates.
- Results that are backed by a list: query results are rows of one table in table order.
- PKHUD views, layout, keyboard and background fade, the flag `willHide`, which nothing reads, and calls made
  from inside a completion. A hide animation is taken to end with its completion even if the frame was shown again.
- Negative counts in `removeFirst` and `removeLast`, which trap in Swift.
- The app's own views, models and generated code, and pass-through wrappers in RealmSwift.
