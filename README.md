# ipm-proj-b-1920 backend, modelled in Dafny

The backend of a target-acquisition experiment run by student groups. The
`get_sequence` endpoint validates requested dimensions, draws a seed and
returns pseudo-random target coordinates. It also stores the seed under a
salted SHA-256 hash tied to the group read from the HTTP Referer.
`store_results` takes a participant's performance, resolves the hash back to
its sequence and stores the performance and its interactions. The dashboard
maps a group code to the group and lists every performance of that group. It
rebuilds each sequence from its stored seed and attaches the interactions in
id order.

Modules, one per concern of `core.php` and `get_sequence.php`:

- `Json`: values as `json_decode(..., true)` produces them, PHP arrays with
  string keys (`Fields`), `isset`, and integer-to-string conversion.
- `Prng`: the process-wide `srand`/`rand` state as an explicit value (`State`)
  and a class `Rng` holding it.
- `Persistence`: the three SQLite tables and `Database::store`. The tables are
  an immutable value `Tables`; a `Database` object holds it and `Store`
  updates it in place.
- `Http`: `getGroup` as a function of the Referer string, and the two
  response shapes.
- `Sequences`: `SequenceGenerator::generate` and `store`.
- `Performances`: the `Performance` constructor, `getSequenceIdFromHash`,
  `store`, and the `store_results.php` script around them.
- `GroupCodes`: the code/group table and both lookups.
- `Dashboard`: `DashboardData`. Its constructor, `getPerformances` and
  `getInterventions` are a class over the fetched result sets. `fromCode` is
  a method beside it.
- `GetSequence`: the validation loop and the generate-then-store script.

Each loop of the source is a method with a loop, proved against a function
that specifies it. The lemmas prove what the source promises about those
functions.

Behaviour of the code worth knowing:

- `Performance`'s constructor stops at the first missing parameter, by
  throwing. Errors only accumulate in `get_sequence.php`.
- `Performance::store` is not atomic. Rows written before a failing
  interaction stay behind (`StoreNotAtomic`).

Points where the code behaves otherwise than its own messages suggest; the
model follows what the code does:

- `get_sequence.php` accepts 0 although its message asks for a positive
  integer (`ZeroAccepted`).
- The message for a missing hash is `Missing parameter hash'`, with one
  quote, as in the code.

## Model

| member | source | states |
|---|---|---|
| Json.Set | core.php:186 | `$this->row[$key] = v`: an existing key keeps its place, a new key goes at the end |
| Json.SetLookup | core.php:186 | after the assignment the key holds the new value and every other key is unchanged |
| Json.SetAppendsNewKey | core.php:186 | assigning a key that is not yet present appends exactly that entry |
| Json.LookupAppend | core.php:186 | with distinct keys, looking up in an array extended by one entry sees that entry or the old array |
| Json.LookupFound | core.php:182 | a key is found exactly when it is among the array's keys, and the value found is one of its entries |
| Json.Isset | core.php:182 | definition of `isset($data[$key])`: the key is present and its value not null; used at core.php:189, 194 and get_sequence.php:10, and stated by `FirstMissingSpec`, `ValidateAccepts` and `NoErrors` |
| Json.Member | core.php:182 | definition of `$data[$key]`: an object's entry for the key, nothing for any other value; `LookupFound` states when it is found and `MemberWellFormed` that it is decoded |
| Json.WellFormed | core.php:253 | definition of what `json_decode` produces: integers within PHP's 64-bit range, distinct keys in every object; `MemberWellFormed` and `ItemsWellFormed` show it is inherited |
| Json.MemberWellFormed | core.php:196 | a member of a decoded object is itself a decoded value |
| Json.NatToStringRoundTrip | core.php:147 | the decimal rendering of a natural number reads back as that number |
| Json.IntToStringInjective | core.php:147 | distinct integers render as distinct strings |
| Prng.Seed | core.php:123 | definition of `srand($seed)`: the new state depends on the seed alone; `Rng.Srand` and `Sequences.Generate` state its use |
| Prng.Next | core.php:121 | `rand()` yields a value in `[0, getrandmax()]` |
| Prng.Range | core.php:129-130 | `rand(lo, hi)` yields a value between the two bounds, whichever order they are given in |
| Prng.Rng.Rand | core.php:121 | the generator advances by one step and returns that step's value |
| Prng.Rng.Srand | core.php:123 | seeding makes the state a function of the seed alone |
| Prng.Rng.RandRange | core.php:129-130 | a bounded draw advances the state by one step and lies between the bounds |
| Persistence.Tables.Put | core.php:62-88 | replacing one table leaves the other two unchanged |
| Persistence.InsertAppendsOneRow | core.php:62-88 | an accepted insert appends one row whose id exceeds all earlier ids, leaves the other tables alone and keeps ids increasing |
| Persistence.InsertRejected | core.php:77-83 | an insert SQLite cannot prepare changes nothing and yields no id |
| Persistence.RowValuesContents | core.php:77-85 | the stored row has every column of the table, the given value for each given column and NULL for the rest |
| Persistence.Columns | core.php:20-59 | definition: the columns of each `CREATE TABLE`, other than `id`, in order; `ColumnsDistinct` and `FullRow` state their use |
| Persistence.Insertable | core.php:73-79 | definition of when `prepare` succeeds for plain column names: a non-empty list of the table's columns; `PrepareBuilt` connects it to the built statement |
| Persistence.ValidRows | core.php:24 | definition of what `AUTOINCREMENT` guarantees: ids positive, increasing in insertion order and at most the last id handed out; `InsertAppendsOneRow` preserves it |
| Persistence.Valid | core.php:20-59 | definition: every table satisfies `ValidRows`; `InsertAppendsOneRow`, `StoreEffectFrame` and `ViewKeysAscending` use it |
| Persistence.Insert | core.php:62-88 | definition of the effect of `store`; `InsertAppendsOneRow`, `InsertRejected`, `RowValuesContents` and `Database.Store` state it |
| Persistence.ColumnsDistinct | core.php:20-59 | no table declares a column twice |
| Persistence.FullRow | core.php:62-88 | data naming every column exactly once is accepted and stored value for value |
| Persistence.UnquoteQuote | core.php:69 | a column name survives quoting |
| Persistence.PlaceholderInjective | core.php:70 | distinct columns get distinct placeholders |
| Persistence.Quoted | core.php:69 | definition: `'"' . $column . '"'` for each key, in order; `UnquotedQuoted` shows the names come back |
| Persistence.Placeholders | core.php:70 | definition: `':' . $column` for each key, in order; `PlaceholderInjective` and `BindingsLookup` show that each key gets its own placeholder |
| Persistence.Unquoted | core.php:77-79 | definition: the identifier SQLite reads from each quoted name, list item by list item; `UnquotedQuoted` states its meaning |
| Persistence.UnquotedQuoted | core.php:69-79 | reading the quoted names back item by item gives exactly the keys that were quoted |
| Persistence.Prepare | core.php:77-79 | definition of SQLite's `prepare` on the column and placeholder lists; `PrepareBuilt` states when it yields a statement |
| Persistence.PrepareBuilt | core.php:77-79 | the built statement parses exactly when the data is non-empty and names only columns of the table |
| Persistence.Bindings | core.php:81-83 | definition of the bindings the `bindValue` calls leave; `BindingsLookup` states their meaning |
| Persistence.BindingsLookup | core.php:81-83 | a placeholder is bound exactly when its column is a key of the data, and then to that key's value |
| Persistence.ValueForNames | core.php:81-85 | a column receives the value bound to its placeholder if the statement names it, NULL otherwise |
| Persistence.Execute | core.php:85 | definition of `execute` on a prepared insert; `ExecuteStoresData` states what it stores |
| Persistence.ExecuteStoresData | core.php:77-85 | executing the prepared and bound statement stores exactly the given value or NULL per column |
| Persistence.ColumnLists | core.php:68-75 | the first loop builds the quoted column list and the placeholder list from the keys, in order |
| Persistence.BindValues | core.php:81-83 | the second loop binds every placeholder to its entry's value |
| Persistence.Database.constructor | core.php:20-59 | a new database has three empty tables |
| Persistence.Database.Store | core.php:62-88 | the new state and id are those of `Insert`: one row appended with a fresh id, or no change and no id when prepare fails |
| Http.CorrectHost | core.php:237-244 | definition: the Referer starts with `http://` or `https://` and the course host; `GetGroup` states its use |
| Http.MarkerValue | core.php:248 | definition of `(int) $matches[1]` for the three digits of a marker; `GroupFromFirstMarker` states its use |
| Http.FindMarker | core.php:246 | the leftmost position at or after the start where `~ipm` and three digits match, or none |
| Http.GetGroup | core.php:235-249 | null exactly for a foreign host; otherwise a group in `0..999` |
| Http.GroupFromFirstMarker | core.php:246-248 | the group is the three digits after the first `~ipm` marker |
| Http.NoMarkerIsGroupZero | core.php:246-248 | the right host with no marker gives group 0, because `(int) null` is 0 |
| Http.GroupHasSource | core.php:235-249 | every group read off a Referer is 0 or the digits of some marker in it |
| Sequences.Coordinates | core.php:119-136 | definition of the pairs `generate` returns for a seed; `CoordinatesShape` and `Generate` state its meaning |
| Sequences.HashInput | core.php:147 | definition of the string `store` hashes, salt then seed then group; `HashInputSeedInjective`, `HashInputGroupInjective` and `HashInputAmbiguous` state its meaning |
| Sequences.Step | core.php:128-131 | one loop iteration draws x, then y, each between 0 and its dimension minus 1 |
| Sequences.Draws | core.php:127-132 | the loop appends one pair per remaining iteration |
| Sequences.DrawsBounds | core.php:127-132 | every pair the loop appends lies within the bounds |
| Sequences.CoordinatesShape | core.php:119-136 | `generate` returns `length` pairs (none for a negative length), within the grid when both dimensions are at least 1 |
| Sequences.ZeroWidthColumns | core.php:129 | with width 0, `rand(0, -1)` makes every x equal to -1 or 0 |
| Sequences.Generate | core.php:119-136 | the result depends only on the generator and the seed; the shared state is re-seeded from the first value drawn |
| Sequences.HashInputSeedInjective | core.php:147 | for a fixed group, distinct seeds give distinct hash inputs |
| Sequences.HashInputGroupInjective | core.php:147 | for a fixed seed, distinct groups give distinct hash inputs |
| Sequences.HashInputAmbiguous | core.php:147 | seed 1 with group 23 and seed 12 with group 3 give the same hash input |
| Sequences.SequenceRow | core.php:150-158 | the stored data names exactly the columns of `generated_sequences` |
| Sequences.Store | core.php:139-162 | with no group it returns null and writes nothing; otherwise it returns `sha256(salt.seed.group)` and appends one row holding it |
| Sequences.SequenceRowValues | core.php:150-158 | the appended row holds the group, time, seed, hash and the three dimensions |
| Performances.RequiredKeysFacts | core.php:172-179 | the six required keys are distinct columns of `performance`, and `sequence_id` is a column not among them |
| Performances.Message | core.php:183-210 | definition of the exception messages as written, `Missing parameter '<key>'`, `Missing parameter hash'` with its one quote and `Cannot find hash <hash>`; `FirstMissingKeyReported` and `Record` state their use |
| Performances.PhpString | core.php:210 | definition of PHP's string conversion of the hash inside `"Cannot find hash $hash"`: `1` or empty for booleans, `Array` for arrays |
| Performances.SequenceIdFromHash | core.php:200-212 | definition of the hash lookup; `SequenceIdFromHashSpec` states its meaning |
| Performances.Validate | core.php:170-198 | definition of the constructor's checks; `ValidateAccepts`, `ValidatedRow`, `FirstMissingKeyReported`, `HashResolvedBeforeInteractions` and `New` state its meaning |
| Performances.HashMatches | core.php:203 | definition of `WHERE "hash" = :hash`: SQL equality, never true for a NULL; `SequenceIdFromHashSpec` states its use |
| Performances.FirstMatch | core.php:202-211 | the first sequence row whose hash matches, or none |
| Performances.SequenceIdFromHashSpec | core.php:200-212 | an unknown hash throws `Cannot find hash`; otherwise the id of the first row with that hash is returned |
| Performances.FirstMissing | core.php:181-184 | where the required-keys loop stops: the first key that is not set, or none; `FirstMissingSpec` states its meaning |
| Performances.FirstMissingSpec | core.php:181-187 | the key the loop stops at is not set and every earlier key is; when it does not stop, every key is set |
| Performances.Picked | core.php:181-187 | the row holds the required keys in their order |
| Performances.PickedAppend | core.php:186 | copying one more key appends its value |
| Performances.New | core.php:170-198 | the constructor either throws the error `Validate` names or builds the validated performance |
| Performances.PickedStep | core.php:186 | copying a set key that is not yet in the row extends the row by exactly that key |
| Performances.CopyRequired | core.php:181-187 | the loop stops at the first missing key; if none is missing it copies every key in order |
| Performances.FirstMissingKeyReported | core.php:181-184 | the first missing key is the one reported, whatever is wrong later |
| Performances.HashResolvedBeforeInteractions | core.php:189-197 | an unknown hash is reported even when `interactions` is missing too |
| Performances.ValidateAccepts | core.php:170-198 | validation succeeds exactly when the six keys, the hash and the interactions are set and the hash was issued |
| Performances.ValidatedRow | core.php:170-198 | the row holds the six values in order, then the id of the first sequence with that hash; the interactions are kept as sent |
| Performances.ValidatedRowInsertable | core.php:170-198 | a validated row has distinct keys that are all columns of `performance` |
| Performances.InteractionItems | core.php:225 | definition of the items `foreach` visits: a list's items, an object's values, nothing for a scalar; `ItemsWellFormed`, `StoreItemsCompletes` and `StoreEffectFrame` state their use |
| Performances.Indexed | core.php:225-228 | definition: a list item's entries under keys `"0"`, `"1"`, ...; `TagSpec` shows the keys are distinct and `NatToStringInjective` why |
| Performances.Tag | core.php:226 | definition of `$interaction['performance_id'] = $id` on each kind of value; `TagSpec` states its meaning |
| Performances.StoreItems | core.php:225-229 | definition of the interaction loop; `StoreItemsFrame`, `StoreItemsCompletes` and `StoreItemsRow` state its meaning |
| Performances.StoreEffect | core.php:221-230 | definition of `store`; `StoreEffectUnfold`, `StoreEffectFrame`, `StoreEffectCompletes` and `Store` state its meaning |
| Performances.TagSpec | core.php:226 | an item can be tagged exactly when it is an array, null or false; the tagged item has distinct keys and `performance_id` set to the id |
| Performances.ItemsWellFormed | core.php:225 | every item of decoded interactions is itself a decoded value |
| Performances.Store | core.php:221-230 | the new state and outcome are those of `StoreEffect`: the parent row, then one row per interaction, until one fails |
| Performances.StoreItemsFrame | core.php:225-229 | the interaction loop only appends to `interactions`, at most one row per item |
| Performances.StoreItemsCompletes | core.php:225-229 | the loop completes exactly when every item is storable, and then it appends one row per item |
| Performances.StoreItemsTagged | core.php:225-229 | tagging is pure, so tagging every item first and then inserting gives the same tables and outcome as the loop |
| Performances.StoreItemsRow | core.php:225-229 | the k-th appended row holds the k-th item tagged with the performance id, so the rows follow the items in order |
| Performances.StoreEffectUnfold | core.php:221-230 | `store` first appends the `performance` row, which cannot fail for an insertable row, then runs the interaction loop with the new id |
| Performances.StoreEffectFrame | core.php:221-230 | the performance row is always appended; `generated_sequences` is untouched and `interactions` is only appended to, at most one row per item |
| Performances.StoreEffectCompletes | core.php:221-230 | the store completes exactly when every item is storable, and then there is one interaction row per item |
| Performances.StoredRowTagged | core.php:226-228 | every stored interaction row has `performance_id` equal to the new id |
| Performances.StoreNotAtomic | core.php:221-230 | for any request that passes validation, interactions `[null, 7]` leave the performance row and the first interaction written, and the script dies |
| Performances.FailsAtSecondItem | core.php:221-230 | for any insertable performance row, interactions `[null, 7]` end in a fatal error after the parent row and one interaction row |
| Performances.ValidatedInteractions | core.php:195-197 | a validated performance keeps the request's `interactions` value as given |
| Performances.Record | store_results.php:7-15 | a validation error is answered with its message and writes nothing; otherwise the rows are stored, then an empty success is sent unless a fatal error ends the script |
| GroupCodes.GetGroup | core.php:339-346 | a known code gives its group; an unknown code throws `Cannot find the code "<code>"` |
| GroupCodes.Search | core.php:339-346 | the first group at or after the start with this code, or none |
| GroupCodes.Code | core.php:285-337 | definition: the table of 51 codes; `LeadOfCode` and `CodesDistinct` state that no two coincide |
| GroupCodes.GetCode | core.php:348-357 | definition of `getCode`; `GroupOfCodeOfGroup` states its meaning |
| GroupCodes.LeadOfCode | core.php:285-337 | every code starts with the three characters recorded for its group |
| GroupCodes.CodesDistinct | core.php:285-337 | no two groups share a code, so `array_flip` loses nothing |
| GroupCodes.CodeOfGroupOfCode | core.php:339-357 | `getCode(getGroup(c)) == c` for every known code |
| GroupCodes.GroupOfCodeOfGroup | core.php:339-357 | `getCode` succeeds exactly for groups 0 to 50 and then `getGroup(getCode(g)) == g`; any other group throws `Cannot find the group "<group>"` |
| GroupCodes.KnownCodes | core.php:339-346 | `getGroup` succeeds exactly for the codes in the table |
| Dashboard.Joins | core.php:402-403 | definition of the join condition: the sequence row's id is the `sequence_id` and its group is the one asked for |
| Dashboard.Fetch | core.php:387-399 | definition of the columns the join selects; `JoinQueryRows` states their source |
| Dashboard.View | core.php:360-450 | definition of the dashboard's contents for a group; `ViewKeys`, `ViewEntries`, `ViewKeysAscending` and `ViewInteractions` state its meaning |
| Dashboard.Reseeded | core.php:414-415 | definition of the generator state after `n` calls of `generate`; `DashboardData.constructor` and `FromCode` state its use |
| Dashboard.SequenceFor | core.php:400-403 | the sequence row a performance joins with is one whose id is its `sequence_id` and whose group is the one asked for; none if no row qualifies |
| Dashboard.JoinQuery | core.php:386-405 | the join has at most one row per performance |
| Dashboard.JoinHead | core.php:400-403 | a performance contributes one row, carrying its id, exactly when it joins |
| Dashboard.JoinQueryRows | core.php:386-405 | every row of the join is the fetch of a performance row with its joined sequence row |
| Dashboard.JoinQueryIds | core.php:386-405 | an id is in the join exactly when some performance row with that id joins |
| Dashboard.JoinQueryAscending | core.php:407-419 | with performances in id order the join's ids strictly increase, so no two rows write the same key |
| Dashboard.EmptyGroup | core.php:400-405 | a group that was issued no sequence has no performances |
| Dashboard.Entry | core.php:407-419 | definition of the entry the loop body adds for a fetched row: its shown columns, no interactions, the sequence `generate` rebuilds; `ViewEntries` states its meaning |
| Dashboard.AsInt | core.php:411-415 | definition of the integer PHP sees for a fetched INTEGER column (see Left out for other column types) |
| Dashboard.EntriesOf | core.php:407-419 | definition of the entries the `while` builds, one per fetched row; `ViewEntries` states their contents and `GetPerformances` that the loop builds them |
| Dashboard.EntryKeys | core.php:425 | definition of `array_keys($this->performances)`; `ViewKeys` and `ViewKeysAscending` state what the keys are |
| Dashboard.InIds | core.php:437 | definition of `"performance_id" IN (<ids>)`; nothing matches an empty list; `InteractionQuery` and `InterventionsOfQuery` state its use |
| Dashboard.InteractionQuery | core.php:427-438 | every row returned belongs to a listed performance |
| Dashboard.Filled | core.php:442-448 | definition of the entries after every queried row is handled; `FilledNothing`, `FilledStep` and `ViewInteractions` state its meaning |
| Dashboard.AddTo | core.php:447 | definition of `[$performance_id]['interactions'][] = $row`; `FilledStep` states that only the row's own entry grows |
| Dashboard.ShownInteraction | core.php:442-445 | definition of a fetched interaction row split into its `performance_id` and the columns shown |
| Dashboard.InterventionsOf | core.php:427-447 | definition of the rows that go to one performance; `InterventionsOfQuery` states its meaning |
| Dashboard.FilledNothing | core.php:442-448 | with no interaction rows the entries are unchanged |
| Dashboard.FilledStep | core.php:442-448 | handling one more row appends it to its own performance's list |
| Dashboard.ViewKeys | core.php:360-450 | the dashboard lists a performance exactly when it was recorded against a sequence of the group |
| Dashboard.ViewEntries | core.php:407-419 | each entry shows its row's columns, and its sequence is `generate` run on the stored seed and dimensions |
| Dashboard.ViewKeysAscending | core.php:384-419 | the entries are keyed by performance id in ascending order |
| Dashboard.OwnRows | core.php:427-438 | a performance's stored interaction rows, in table order |
| Dashboard.Shown | core.php:445-447 | definition of the rows as shown, without `performance_id`; `ShownAppend` and `ViewInteractions` state its meaning |
| Dashboard.OwnRowsAscending | core.php:438 | a performance's interaction rows keep ascending id order |
| Dashboard.ShownAppend | core.php:445-447 | showing one more row appends it |
| Dashboard.InterventionsOfQuery | core.php:423-448 | a listed performance gets all of its rows in order from the query; an unlisted one gets none |
| Dashboard.ViewInteractions | core.php:423-448 | every entry lists exactly its own stored interactions, in table order, without `performance_id` |
| Dashboard.ViewInteractionsAscending | core.php:423-448 | on a valid database every entry's interactions are its own rows in ascending id order, as `ORDER BY "id"` returns them |
| Dashboard.DashboardData.constructor | core.php:371-382 | the entries are the group's view; the generator is re-seeded once per entry |
| Dashboard.DashboardData.GetPerformances | core.php:384-420 | the loop adds one entry per joined row, in order, rebuilding each sequence with `generate` |
| Dashboard.DashboardData.GetInterventions | core.php:423-448 | the loop appends every queried interaction row to its performance, in id order |
| Dashboard.FromCode | core.php:362-367 | an unknown code throws before any query and leaves the generator alone; otherwise the result is the view of the code's group and the generator is re-seeded once per entry |
| GetSequence.Accepted | get_sequence.php:10-12 | definition of a key that passes: set, `is_int` and not below 0; `KeyError` and `NoErrors` state its use |
| GetSequence.MissingMessage | get_sequence.php:11 | definition of `Missing parameter "<key>"`; `AllMissing` and `BadValues` state its use |
| GetSequence.InvalidMessage | get_sequence.php:13 | definition of `Parameter "<key>" must be a positive integer`; `FloatRejected` and `BadValues` state its use |
| GetSequence.GeneratorOf | get_sequence.php:23-27 | definition of the generator built from the three validated values; `Handle` states its use |
| GetSequence.KeyError | get_sequence.php:10-14 | a key yields no error exactly when it holds a non-negative integer |
| GetSequence.AcceptedInRange | get_sequence.php:10-14 | on decoded input an accepted value is an integer between 0 and `PHP_INT_MAX` |
| GetSequence.FloatRejected | get_sequence.php:12-13 | a number PHP decodes as a float (`5.0`, `1e2`, an integer literal outside 64 bits) gets the integer message |
| GetSequence.Errors | get_sequence.php:7-15 | definition of the error list after the loop; `ErrorsOfThree`, `ErrorsBound`, `ErrorsReported` and `NoErrors` state its meaning |
| GetSequence.ErrorsOfThree | get_sequence.php:9-15 | the three checks run in order, each adding at most its own error |
| GetSequence.Validate | get_sequence.php:7-15 | the loop collects the errors of every key, in order |
| GetSequence.ErrorsBound | get_sequence.php:9-15 | there are at most as many errors as keys, so 0 to 3 |
| GetSequence.ErrorsReported | get_sequence.php:9-15 | a message is among the errors exactly when some key produced it, so errors accumulate |
| GetSequence.NoErrors | get_sequence.php:9-17 | there is no error exactly when every key is accepted |
| GetSequence.ZeroAccepted | get_sequence.php:12 | width, height and length 0 are accepted |
| GetSequence.AllMissing | get_sequence.php:9-11 | an empty request reports all three keys missing, in order |
| GetSequence.BadValues | get_sequence.php:9-14 | a negative width and a missing length both get reported, each with its own message |
| GetSequence.Handle | get_sequence.php:7-32 | on errors, the error list is returned and nothing is drawn or stored; otherwise one drawn seed gives the coordinates and the stored row, `generate` runs before `store`, and the generator has the validated values |
| GetSequence.IssuedIsRebuilt | get_sequence.php:21-31 | the stored row's seed and dimensions rebuild exactly the coordinates that were returned |

## Left out

- Reading the request body and the Referer header, sending the response,
  and `exit` are not modelled. Decoded JSON and the Referer string are
  parameters, and the response is the method's result. A missing Referer
  header (a PHP notice) is not modelled.
- PHP's `rand` is a Mersenne Twister. `Prng.Next` is a fixed linear
  congruential step in its place. Every property proved uses only that the
  step is a function of the state and that its value is bounded.
- `hash('sha256', ...)` is a function parameter and `time()` an integer
  parameter. The model shows which string is hashed, not the digest.
- The random seed drawn in `get_sequence.php` is not modelled as
  distinct across requests. Hash collisions between groups are possible
  in principle (`HashInputAmbiguous`). `getSequenceIdFromHash` then takes
  the first row.
- Sequences.Generate: the state after `generate` is re-seeded from the value
  drawn (`srand(rand())`), which is not the state it started from. The model
  states this new state exactly instead of claiming a restore.
- SQLite type affinity is not modelled. `group` is a TEXT column, and stored
  values and comparisons are taken as the JSON values bound. Identifiers are
  compared case-sensitively.
- Persistence.Insertable: an explicit `id` key, or any key that is not a
  column, counts as a failed `prepare`. SQLite would accept an `id` column.
  Keys are taken to be plain column names; see the next three lines for keys
  that are not.
- Persistence.Unquoted: `implode(',', ...)` and the statement text
  `INSERT INTO t (...) VALUES (...)` are not modelled. The model reads the
  quoted names back one list item at a time, so it assumes SQLite splits the
  text where `implode` joined it. That holds only for keys without `"`, `,`,
  `)`, `;` or `--`.
- Persistence.UnquotedQuoted: the round trip is proved for the list of
  names, not for the joined text. A key containing `"` or `,` does not come
  back from the text as itself.
- Persistence.PrepareBuilt: a key can rewrite the statement.
  An interaction with the key `x") VALUES (1)--` prepares
  `INSERT INTO interactions ("x") VALUES (1)`. The failed `bindValue` calls
  only return false, and one row with `x` = 1 and `performance_id` NULL is
  inserted; the loop goes on. The model counts that key as not a column, so
  the store ends with a fatal error instead. Only interaction keys come from
  the request; the `performance` row always has the seven fixed keys.
- Binding an array (an interaction whose entry is itself a list) is not
  converted as PHP's `bindValue` would; the value is stored as given.
- GetSequence.KeyError: on a value `json_decode` cannot produce, such as an
  `Int` beyond 64 bits, it accepts like `is_int` would on an integer.
  `AcceptedInRange` states the bound for decoded input, where PHP's float
  is `Num` and rejected (`FloatRejected`).
- Performances.PhpString: a non-integral number in the `Cannot find hash`
  message keeps its JSON text instead of PHP's float formatting.
- Dashboard.AsInt: a fetched column that is not an integer (text, real)
  is read as 0 when it is passed to `SequenceGenerator`. PHP would apply
  its own numeric conversion.
- The join is taken to scan `performance` in id order and look each row up
  in `generated_sequences`, which is SQLite's plan for this query. SQL does
  not promise this order.
- `Database::query` is modelled only for the three queries the core issues.
  `Database::init` (the file check and connection) is not modelled.
  `Performance::fromRequest` is modelled inside `Performances.Record`.
- Concurrency between requests and SQLite transactions are not modelled.
