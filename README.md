# scout-planner timetable core, modelled in Dafny

This project models the core of scout-planner, a shared planner for scout
events. In it, programs are placed on a grid of days, time steps and
audience groups. The model covers:

- **the grid engine** (`grid.dfy`, `droppables.dfy`, `relocation.dfy`):
  - the rectangle of a program or block;
  - the position of a program inside its block;
  - the "now" marker;
  - the empty drop cells;
  - the record proposed when a program is dropped on a cell;
  - the preparation of programs before they are grouped into blocks.
- **the built-in overlap check** (`checker.dfy`), as the checker's test suite
  fixes it. Two placed programs conflict when all of these hold:
  - their half-open time intervals intersect;
  - their group lists share a group;
  - they are not deliberately stacked. Stacked means identical group lists
    with different block orders.

  Each conflicting program gets exactly one `other` entry, in input order
  (`Checker.OverlapsExact`).
- **import** (`importer.dfy`). A loop fills the old→new id maps, one server
  response at a time. A pure translation then rewrites each program's groups,
  package, range keys and `{person}` references.
- **the timetable slice of the store** (`timetable_slice.dfy`). This is a
  class whose reducers update its fields in place, and a pure reducer that
  specifies them.
- **settings defaults** (`settings_api.dfy`): the stored settings laid over
  the three defaults.
- **the application shell** (`app.dfy`):
  - the "all rules satisfied" badge;
  - the per-program problem lists (a method filling a map, first with the
    unsatisfied violations and then with the structural problems);
  - the legacy free-text people;
  - the one-way `dataLoaded` gate (a class);
  - the people-migration step;
  - which of the timetable, the loading alert and the permission alert is
    shown, for both the older shell (`frontend/`) and the newer one (`src/`).

Some collaborators are parameters:
- the date helpers, which split an instant into its day and its time of day,
  are the function parameters `onlyDate` and `onlyTime`;
- the viewer's time-zone offset is an integer parameter;
- the ids the server hands back on import are a parameter.

The source of the checker is not part of this model. Its behaviour is
modelled as its test suite fixes it, with no rule definitions. Two
modelling choices about it:
- **Block order.** `Checker.CheckRules`: different block orders excuse an
  overlap only when the two group lists are identical, because
  `frontend/src/Checker.test.js:157-182` reports lists that only intersect
  even when their block orders differ.
- **Programs without an id.** A program without an id still gets an entry,
  carrying `None` (`Problem.program: Option<Id>`), as in the display map,
  which is keyed by the same value.

`getRect` with a non-empty group list that names no configured group leaves
both folds at their seeds. The rectangle then starts on the last row and has
height `2 - groupCnt`. `Grid.RectOfUnknownGroups` states this.

## Model

| member | source | states |
|---|---|---|
| Grid.CeilDiv | frontend/src/components/Timetable.js:232-234 | `Math.ceil(a / b)` for a positive step: the result `r` is the unique integer with `(r-1)*b < a <= r*b`, also for negative `a` |
| Grid.IndexOf | frontend/src/components/Timetable.js:233 | `indexOf`: -1 exactly when the value is absent, otherwise a position holding it with no earlier occurrence |
| Grid.GroupMap | frontend/src/components/Timetable.js:218-220 | one flag per configured group, set iff that group's id is in the program's list |
| Grid.FirstFold | frontend/src/components/Timetable.js:221-224 | the `first` reduce returns the least flagged row, or its seed if that is smaller or no row is flagged |
| Grid.LastFold | frontend/src/components/Timetable.js:225-228 | the `last` reduce returns the greatest flagged row, or its seed if that is larger or no row is flagged |
| Grid.GetRect | frontend/src/components/Timetable.js:211-237 | `x` and `width` are the time-of-day offset from `dayStart` and the duration, each rounded up to whole time steps |
| Grid.RectWithoutGroups | frontend/src/components/Timetable.js:215 | with an absent or empty group list the rectangle starts at the day's first row and spans all `groupCnt` rows |
| Grid.RectOfMatchedGroups | frontend/src/components/Timetable.js:215-235 | when a configured group is named: the first and last rows are touched, every touched row lies between them, height ≥ 1 |
| Grid.RectOfUnknownGroups | frontend/src/components/Timetable.js:217-235 | when the list names no configured group: `y` is the day's last row and the height is `2 - groupCnt` |
| Grid.RectWidth | frontend/src/components/Timetable.js:234 | a zero duration gives width 0 and a positive duration gives width ≥ 1 |
| Grid.ProgramInBlock | frontend/src/components/Timetable.js:128-137 | the block's offset plus the relative rect gives the program's own columns, and its own row shifted by its block order (absent = 0); height 1, width kept |
| Grid.ProgramInBlockDefaultOrder | frontend/src/components/Timetable.js:131 | with an absent or zero block order the program sits on its own first row |
| Grid.ZoneAdjust | frontend/src/components/Timetable.js:242 | the instant moved back by the time-zone offset in milliseconds: adding the offset back gives `now` again, so a positive offset moves it earlier and a negative one later |
| Grid.TimeIndicatorRect | frontend/src/components/Timetable.js:239-255 | no marker iff the zone-adjusted time is outside `[dayStart, dayEnd]` or the day is not shown; otherwise the day's rows, the time rounded up to steps, and `x` within the visible window |
| Grid.ProgramsForBlocks | frontend/src/components/Timetable.js:94-102 | exactly the placed programs are kept, each with an empty group list replaced by all configured groups; none is added or invented |
| Grid.PlacedPositions | frontend/src/components/Timetable.js:100-102 | the positions of the programs whose `begin` is a number, strictly increasing, each such position exactly once |
| Grid.ProgramsForBlocksInOrder | frontend/src/components/Timetable.js:96-102 | the prepared list's `i`-th entry is the group-fixed program at the `i`-th placed position: input order kept, each placed program exactly once |
| Grid.WithAllGroups | frontend/src/components/Timetable.js:96-99 | an empty group list becomes all configured group ids, a non-empty one is kept, and nothing else about the program changes |
| Grid.AllGroupIds | frontend/src/components/Timetable.js:95 | the configured group ids, in row order |
| Droppables.RowIds | frontend/src/components/Timetable.js:152 | one row per configured group, or a single row without a group when none is configured |
| Droppables.SettingsGroupsRows | src/components/Timetable.jsx:56-65 | before the groups load there is the single drop row without a group and no program group matches a row; afterwards one drop row per loaded group, in order |
| Droppables.AllDroppables | frontend/src/components/Timetable.js:150-175 | `getDroppables`, characterised by `Droppables.DroppableAt`: one cell per day, header, step and row, each at its mixed-radix position |
| Droppables.DroppableAt | frontend/src/components/Timetable.js:150-175 | there are days × headers × steps × rows cells; the cell for each combination sits at its mixed-radix position with begin `day + header + step*timeStep`, its row's group, column `3 + t*timeSpan + step` and row `2 + d*groupCnt + g` |
| Relocation.FindById | frontend/src/components/Timetable.js:30 | `find`: none iff no program has the dragged id, otherwise the first program that has it |
| Relocation.Relocate | frontend/src/components/Timetable.js:34-39 | only `begin` and `groups` change. Groups are kept when the cell has no group (`null` or empty id) or one of the program's own groups, and otherwise become the cell's group alone |
| Relocation.RelocateTargetIsMember | frontend/src/components/Timetable.js:34-37 | after a drop on a grouped cell the program belongs to that group and gains no other group |
| Relocation.RelocateIdempotent | frontend/src/components/Timetable.js:34-39 | dropping the proposed record on the same cell again proposes the same record |
| Relocation.OnDroppableDrop | src/components/Timetable.jsx:32-47 | nothing is proposed iff no current program has the item's id; otherwise the first such program is relocated (the older timetable's handler at `frontend/src/components/Timetable.js:28-43` is identical) |
| Checker.ConflictSymmetric | frontend/src/Checker.test.js:28-51 | the conflict relation does not depend on the order of the pair |
| Checker.OverlapsSound | frontend/src/Checker.test.js:28-51 | every `other` entry names a program that conflicts with some other program |
| Checker.OverlapsComplete | frontend/src/Checker.test.js:28-51 | every program that conflicts with another one has an entry |
| Checker.PairReportedInOrder | frontend/src/Checker.test.js:28-51 | both programs of a conflicting pair are reported, the earlier one first |
| Checker.OverlapsBounded | frontend/src/Checker.test.js:28-51 | no more entries than programs |
| Checker.ConflictPositions | frontend/src/Checker.test.js:28-182 | the positions of the programs that conflict with another one, strictly increasing, each such position exactly once |
| Checker.OverlapsExact | frontend/src/Checker.test.js:28-182 | exactly one entry per conflicting program, in input order: the `k`-th entry is that of the `k`-th conflicting position |
| Checker.CheckRules | frontend/src/components/App.js:128 | `checkRules` with no rules: no violations, and `other` holds one overlap entry per conflicting program, in input order |
| Checker.CheckTwo | frontend/src/Checker.test.js:8-182 | for two programs the report has no violations, and `other` is both entries in order if they conflict, empty otherwise |
| Checker.AdjacentNeverConflict | frontend/src/Checker.test.js:122-130 | a program ending exactly when the other begins never conflicts with it |
| Checker.DisjointGroupsNeverConflict | frontend/src/Checker.test.js:18-26 | programs without a common group never conflict |
| Checker.CheckEmpty | frontend/src/Checker.test.js:3-5 | no programs: empty report |
| Checker.CheckNonOverlappingTimes | frontend/src/Checker.test.js:8-16 | same group, disjoint times: empty report |
| Checker.CheckDifferentGroups | frontend/src/Checker.test.js:18-26 | same time, different groups: empty report |
| Checker.CheckOverlapEqualGroup | frontend/src/Checker.test.js:28-51 | overlap in one shared group: both reported, in order |
| Checker.CheckOverlapEqualGroupStacked | frontend/src/Checker.test.js:53-73 | the same with different block orders: empty report |
| Checker.CheckOverlapEqualGroups | frontend/src/Checker.test.js:75-98 | overlap with equal two-group lists: both reported |
| Checker.CheckOverlapEqualGroupsStacked | frontend/src/Checker.test.js:100-120 | the same with different block orders: empty report |
| Checker.CheckBackToBack | frontend/src/Checker.test.js:122-130 | back-to-back programs: empty report |
| Checker.CheckOverlapIntersectingGroups | frontend/src/Checker.test.js:132-155 | overlap with intersecting group lists: both reported |
| Checker.CheckOverlapIntersectingGroupsStacked | frontend/src/Checker.test.js:157-182 | intersecting lists with different block orders: still both reported |
| Importer.IdMapKeys | frontend/src/components/Import.test.js:17-21 | the filled map knows exactly the old ids |
| Importer.IdMapAt | frontend/src/components/Import.test.js:17-21 | with distinct old ids, the i-th old id maps to the i-th returned id |
| Importer.IdMapInverse | frontend/src/components/Import.test.js:17-21 | with distinct old and new ids, the reversed map sends each new id back to its old one |
| Importer.BuildIdMap | frontend/src/components/Import.test.js:16-31 | the loop over `add*` responses builds the old→new map response by response |
| Importer.Ids | frontend/src/components/Import.test.js:60-96 | the `_id`s of the exported records, in order |
| Importer.Translate | frontend/src/components/Import.test.js:60-270 | only references change: list lengths kept, range values kept, free-text people kept in place, `{person}` entries stay references, a package stays present or absent |
| Importer.TranslateToIssued | frontend/src/components/Import.test.js:60-270 | with distinct old ids, every group, package, range key and `{person}` reference to an exported record becomes the id issued for that record (range values kept); an unknown group or person id is kept |
| Importer.ImportSpec | frontend/src/components/Import.test.js:33-270 | one translated program per exported program |
| Importer.ImportData | frontend/src/components/Import.test.js:33-270 | settings and every record are passed as they are, and each program is translated through the maps built from the responses |
| Importer.TranslateRoundTrip | frontend/src/components/Import.test.js:60-270 | when every reference resolves and ids are distinct, translating back with the reversed maps restores the exported program |
| Importer.NoReferencesUnchanged | frontend/src/components/Import.test.js:39-58 | a program without references is added unchanged |
| Importer.ImportEmpty | frontend/src/components/Import.test.js:33-37 | empty export: settings `{}` and no programs |
| Importer.ImportSingleProgram | frontend/src/components/Import.test.js:39-58 | a lone program is added as it is |
| Importer.ImportProgramWithGroups | frontend/src/components/Import.test.js:60-96 | groups are added as they are and the program's groups become the new ids |
| Importer.ImportProgramWithPackage | frontend/src/components/Import.test.js:98-128 | the package reference becomes the new package id |
| Importer.ImportProgramWithRanges | frontend/src/components/Import.test.js:130-165 | range keys are renamed and their values kept |
| Importer.ImportProgramWithObjectPeople | frontend/src/components/Import.test.js:167-202 | `{person}` references become the new person ids |
| Importer.ImportProgramWithStringPeople | frontend/src/components/Import.test.js:204-239 | free-text people are left alone |
| Importer.ImportProgramWithMixedPeople | frontend/src/components/Import.test.js:241-270 | in a mixed list, only the reference is translated |
| TimetableSlice.Reduce | src/store/timetableSlice.js:16-41 | `loaded` and an error are never undone. `pending` leaves the slice pending and a completion leaves it idle. `updateTimetable` changes only the timetable. Otherwise the timetable changes only on a completion accepted while pending |
| TimetableSlice.LoadedStays | src/store/timetableSlice.js:28-34 | once loaded, loaded after any sequence of actions |
| TimetableSlice.ErrorStays | src/store/timetableSlice.js:36-41 | an error, once set, is never cleared |
| TimetableSlice.LoadedOnlyByFulfilled | src/store/timetableSlice.js:28-34 | the slice becomes loaded only through a `fulfilled` action |
| TimetableSlice.StaleCompletionIgnored | src/store/timetableSlice.js:28-41 | a completion while idle changes nothing |
| TimetableSlice.RequestCycle | src/store/timetableSlice.js:22-34 | from idle, `pending` then `fulfilled` stores the payload, marks loaded and returns to idle |
| TimetableSlice.FailedCycle | src/store/timetableSlice.js:22-41 | from idle, `pending` then `rejected` records "Error" and changes nothing else |
| TimetableSlice.Slice.constructor | src/store/timetableSlice.js:10-15 | the initial state: no title, idle, no error, not loaded |
| TimetableSlice.Slice.UpdateTimetable | src/store/timetableSlice.js:17-19 | the in-place reducer agrees with `Reduce` |
| TimetableSlice.Slice.Pending | src/store/timetableSlice.js:22-26 | the in-place reducer agrees with `Reduce` |
| TimetableSlice.Slice.Fulfilled | src/store/timetableSlice.js:28-34 | the in-place reducer agrees with `Reduce` |
| TimetableSlice.Slice.Rejected | src/store/timetableSlice.js:36-41 | the in-place reducer agrees with `Reduce` |
| SettingsApi.AddDefaults | src/store/settingsApi.js:9-16 | the keys are the defaults' and the stored ones; a stored value wins; a default fills each missing key |
| SettingsApi.DefaultsPresent | src/store/settingsApi.js:9-13 | `timeStep`, `width` and `timetableLayoutVersion` are always present |
| SettingsApi.NoSettingsGivesDefaults | src/store/settingsApi.js:5-16 | with no document or no settings the result is exactly `{timeStep: 900000, width: 100, timetableLayoutVersion: "v1"}` |
| SettingsApi.AddDefaultsIdempotent | src/store/settingsApi.js:9-16 | applying the defaults to their own result changes nothing |
| App.SatisfiedFoldIff | frontend/src/components/App.js:132-136 | the `reduce` is true iff its seed is true and every violation is satisfied |
| App.RulesSatisfied | frontend/src/components/App.js:132-137 | the badge value, characterised by `App.RulesSatisfiedIff` |
| App.RulesSatisfiedIff | frontend/src/components/App.js:132-137 | the badge is green iff every violation is satisfied and `other` is empty |
| App.StoreReport | src/components/App.jsx:85-98 | the newer shell keeps its previous view until the data has loaded; after that, and always in the older shell, it stores the report and the badge value |
| App.RuleEntriesExact | frontend/src/components/App.js:178-183 | a program's rule entries are exactly its unsatisfied violations, and the list is empty iff it has none |
| App.OtherEntriesExact | frontend/src/components/App.js:185-188 | a program's other entries are exactly its structural problems, and the list is empty iff it has none |
| App.Push | frontend/src/components/App.js:181-182 | the entry is appended to the key's list, which is started if missing; other keys are untouched |
| App.CollectViolations | frontend/src/components/App.js:177-184 | after the violations loop the map has a key iff that program has an unsatisfied violation, and holds exactly those, in input order |
| App.ViolationsPerProgram | frontend/src/components/App.js:176-190 | after both loops the map has a key iff that program has entries, and holds its `Entries`: its unsatisfied violations followed by its problems, each in input order (same code at `src/components/App.jsx:124-138`) |
| App.EntriesShape | frontend/src/components/App.js:176-190 | no satisfied violation is listed, every entry is under its own program, and no problem precedes a violation |
| App.EntriesComplete | frontend/src/components/App.js:178-188 | every problem and every unsatisfied violation is listed under its program |
| App.RulesSatisfiedIffNothingListed | frontend/src/components/App.js:132-190 | the badge is green iff no program has any listed entry |
| App.NamesIn | frontend/src/components/App.js:196 | the free-text entries of a people list are exactly its strings |
| App.NamedPeople | frontend/src/components/App.js:195-197 | the flattened strings are exactly the free-text people of some program |
| App.NamesInAppend | frontend/src/components/App.js:196 | `filter` keeps order: the names of two lists in a row are the first list's followed by the second's |
| App.NamesInSingle | frontend/src/components/App.js:196 | one entry contributes its name iff it is a string |
| App.NamedPeopleAppend | frontend/src/components/App.js:195-197 | `flatMap` keeps order: the names of two program lists in a row are the first's followed by the second's |
| App.NamedPeopleSingle | frontend/src/components/App.js:195-197 | one program contributes the free-text names of its people |
| App.Distinct | frontend/src/components/App.js:194-198 | `[...new Set(s)]` has no repeats and the same elements as `s` |
| App.DistinctInFirstOccurrenceOrder | frontend/src/components/App.js:194-198 | the distinct elements come in the order of their first occurrences |
| App.LegacyPeople | frontend/src/components/App.js:192-201 | the legacy people are each free-text person of any program once, with references dropped |
| App.LegacyPeopleInFirstAppearanceOrder | frontend/src/components/App.js:192-201 | of two legacy people, the earlier one first appears earlier in the programs' free-text people, read program by program |
| App.Opens | frontend/src/components/App.js:155-165 | the opening condition of the `dataLoaded` effect, all seven flags in the older shell and also permissions loaded with level NONE in the newer one (`src/components/App.jsx:100-111`); characterised by `App.GateRunIff` and `App.CurrentOpensEarlier` |
| App.GateStep | frontend/src/components/App.js:155-165 | one run of the effect, characterised by `App.GateRunIff` |
| App.GateRunIff | frontend/src/components/App.js:155-165 | after any renders `dataLoaded` is set iff it was set before or some render met the opening condition: all seven flags in the older shell; those, or permissions loaded with level NONE, in the newer one (`src/components/App.jsx:100-111`) |
| App.CurrentOpensEarlier | src/components/App.jsx:100-111 | the newer shell opens whenever the older does, and also for a user with level NONE once permissions have loaded |
| App.DataLoaded.constructor | frontend/src/components/App.js:50 | `dataLoaded` starts false |
| App.DataLoaded.Observe | frontend/src/components/App.js:155-165 | one run of the effect sets the flag per the step and never clears it |
| App.MigrationStep | frontend/src/components/App.js:114-126 | nothing runs before the data has loaded. People are migrated iff migration is on and the state is idle. Programs are migrated iff it is on and people are finished. The state is marked failed iff migration is off |
| App.ShowTimetable | frontend/src/components/App.js:206-212 | the timetable is shown to a viewer once the data has loaded, and in the older shell only after the migration has settled (`src/components/App.jsx:235-237`); characterised by `App.WrapperShowsExactlyOne` and `App.LegacyTimetableAfterMigrationStep` |
| App.ShowLoadingAlert | frontend/src/components/App.js:213-223 | the loading alert while the data is not loaded, or in the older shell while the migration has not settled (`src/components/App.jsx:238-245`); characterised by the same two lemmas |
| App.ShowPermissionAlert | frontend/src/components/App.js:224 | the permission alert for level NONE once the data has loaded (`src/components/App.jsx:246-254`); characterised by `App.WrapperShowsExactlyOne` |
| App.WrapperShowsExactlyOne | src/components/App.jsx:233-255 | `TimetableWrapper` shows exactly one of the timetable (level ≥ VIEW and loaded), the loading alert (not loaded) and the permission alert (level NONE and loaded) |
| App.LegacyTimetableAfterMigrationStep | frontend/src/components/App.js:206-216 | the older shell never shows the timetable and the loading alert together; with migration off, a viewer sees the timetable after the step marks people as failed |

## Left out

- Checker.js and the rule evaluators are not part of this model. Only the built-in overlap check with an empty rule list is modelled, as its tests fix it, so `violations` is always empty there.
- Checker.CheckRules: an empty group list is taken to share no group, so such a program never conflicts. The tests do not fix this, and elsewhere in the core an empty list stands for all groups (`frontend/src/components/Timetable.js:96-99`); the older shell hands the checker raw programs, whose lists may be empty.
- Checker.CheckRules: a program that conflicts with several others gets one entry, not one per conflicting pair. Every test has only two programs, so the tests do not fix this either.
- `groupProgramsToBlocks`, `getTimetableSettings` and the tray layout (`getProgramRects`) are not part of this model. Only the preparation before grouping (`Grid.ProgramsForBlocks`) is modelled.
- Grid.RectOfMatchedGroups: assumes what `getTimetableSettings` is taken to guarantee, that `groupCnt` is at least the number of configured groups; that function is not part of this model.
- Droppables.SettingsGroupsRows: assumes that `getTimetableSettings` passes the group list it is given through as `settings.groups`; that function is not part of this model.
- The date helpers (`getOnlyDate`, `getOnlyTime`) are not part of this model; they are function parameters.
- `new Date(now).getTimezoneOffset()` depends on the host clock and locale; the offset is a parameter.
- Math.ceil over floating point: `Grid.CeilDiv` computes the exact integer ceiling. Floating-point rounding of very large instants is not modelled.
- Import.js is not part of this model. Its behaviour comes from its test suite. A reference to a record that is not in the export is assumed to pass through unchanged.
- Importer.TranslateToIssued: assumes distinct old ids within each kind. With a repeated old id the map keeps the id issued for the last record carrying it (`Importer.IdMap`), which the lemma does not state.
- Rules and users in the export are not modelled, because the import tests never exercise them.
- The order in which `importData` issues calls of different kinds is not modelled; only the per-kind order is.
- Range maps are JavaScript objects; they are modelled as ordered lists of key/value pairs. Two old range ids that map to the same new id would collapse into one key in JavaScript; the list keeps both.
- The network and persistence are outside the model: `client.updateProgram`, `dispatchCommand`, the async thunk around `getTimetable`, the settings query and mutation endpoints, and streaming updates.
- App.ViolationsPerProgram: the JavaScript `Map` keeps its keys in insertion order; the model's map does not, and only lookups by program are modelled.
- App.MigrationStep: the migration routines it starts (`migratePeople`, `migratePrograms`) are not part of this model; only which one is chosen.
- App.DataLoaded.Observe: the React effect scheduling is not modelled; each call stands for one run of the effect with the flags it sees.
- The access levels are not part of this model. `NONE < VIEW < EDIT < ADMIN` are taken as 0 to 3; only their order and that VIEW follows NONE are used.
- Rendering, react-dnd wiring, the `setInterval` clock tick and JSX styling are left out as presentation.
- String ordering with `localeCompare` is locale-dependent and left out.
