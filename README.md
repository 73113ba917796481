# A verified model of the CRG roller-derby scoreboard core

The CRG scoreboard server keeps the live state of a roller-derby game and
pushes it to any number of display and control clients. This project models
its core in Dafny and proves what that core promises.

The core has two halves:

- A hierarchical key/value state store. Paths look like
  `Scoreboard.Team(1).Skater(42).Position`, and subscriptions and updaters
  address them through patterns with `(*)` wildcards and a trailing `.*`.
  The store keeps a global state number that stamps every change.
  Listeners receive the entries changed since they last caught up.
  Updaters turn the text a client sends into typed values, and batched
  updates are applied in (group priority, name) order. A saver keeps a
  copy of part of the state to be written to disk.
- The game engine built on the store. It has clamped counters, five game
  clocks, and a master clock that ticks every 100 ms and reports
  expirations. The scoreboard itself is a state machine (jam, lineup,
  timeout, intermission) that records a snapshot for every state and can
  undo the last one. It also holds two teams with their skaters, box trips
  and jams.

Beside these the model covers the league and person registry, the display
settings and the two JavaScript clock formatters.

Each source file is one module, written in the source's own form:

| module | file | source |
|---|---|---|
| `Pattern` | pattern.dfy | statemanager/pattern.go |
| `WSClient` | ws_client.dfy | html/javascript/WS.js (`patternMatch`, `processUpdate`, `triggerCallback`) |
| `Utils` | utils.dfy | utils/utils.go |
| `TypedStore` | typed_store.dfy | statemanager/statemanager.go, state/statemanager.go |
| `HolderStore` | holder_store.dfy | state/state.go, state/state_string.go, state/state_int64.go, state/state_bool.go, state/state_time.go |
| `Ordering` | ordering.dfy | `Less` of state/updater.go and statemanager/updater.go |
| `StateUpdater` | state_updater.dfy | state/updater.go |
| `SMUpdater` | sm_updater.dfy | statemanager/updater.go, statemanager/command.go |
| `ListenerCore` | listener_core.dfy | the listener shared by state/listener.go and statemanager/listener.go |
| `StateListeners` | state_listeners.dfy | state/listener.go |
| `ManagerListeners` | manager_listeners.dfy | statemanager/listener.go |
| `Saver` | saver.dfy | statemanager/saver.go |
| `MinMax` | min_max_number.dfy | scoreboard/min_max_number.go |
| `Clocks` | clock.dfy | scoreboard/clock.go |
| `MasterClocks` | master_clock.dfy | scoreboard/master_clock.go |
| `Snapshots` | snapshots.dfy | scoreboard/state_snapshot.go |
| `GameRules` | game_rules.dfy | scoreboard/scoreboard.go, as functions on values |
| `Scoreboards` | scoreboard.dfy | scoreboard/scoreboard.go and the scoreboard's parts of jam.go, state_snapshot.go and master_clock.go |
| `Skaters` | skaters.dfy | scoreboard/skater.go, scoreboard/box_trip.go |
| `Teams` | teams.dfy | scoreboard/team.go, with the skater operations that go through the team |
| `Jams` | jams.dfy | scoreboard/jam.go |
| `Leagues` | leagues.dfy | leagues/person.go, leagues/league.go |
| `Settings` | settings.dfy | server/settings.go |
| `TimeFormat`, `JsonTimeFormat` | time_format.dfy | html/javascript/time.js, cmd/scoreboard/html/json/time.js |
| `GoBase`, `GoStrconv` | go_base.dfy, go_strconv.dfy | the parts of Go's `strings`, `strconv` and `time` packages the core calls |

Code that works by changing state is modelled with classes, fields,
`modifies` clauses and loops with invariants. Examples are the stores, the
listeners, the registries, the clocks, the scoreboard and the teams. Each
such method is proved against a function on values that describes its
effect. For example, every scoreboard transition is proved against the
`GameRules` function of the same name through `View()`. Round trips,
invariants and orderings are then proved as lemmas about those functions.

The Go source has two revisions of the store: the older `statemanager`
package and the newer `state` package. They cannot coexist, so they are
separate modules. The scoreboard depends only on the values a store would
publish; its store writes are not modelled.

## Model

| member | source | states |
|---|---|---|
| Pattern.WildcardIndex | statemanager/pattern.go:57 | the result is -1 or the position of a `(*)`, and no `(*)` starts before it (`strings.Index` for the wildcard) |
| Pattern.NewPatternMatcher | statemanager/pattern.go:34-43 | the matcher is blank exactly for the empty pattern, simple exactly for a non-empty pattern with no `(*)` and no `.*` suffix, and always reports the text it was built from |
| Pattern.Matcher.Matches | statemanager/pattern.go:45-54 | the answer is `Accepts(value)`: always true for the blank matcher, equality or `pattern + "."` prefix for the simple one, `WildcardMatch` for the complex one |
| Pattern.ComplexMatches | statemanager/pattern.go:54-100 | the loop that strips one `(*)` per pass returns exactly `WildcardMatch(pattern, value)`, the pass-by-pass definition |
| Pattern.EmptyPatternMatchesAll | statemanager/pattern.go:35-45 | the empty pattern accepts every value |
| Pattern.SimplePatternIsSubtree | statemanager/pattern.go:39-50 | a pattern without wildcards or `.*` suffix accepts exactly itself and the values starting with it plus `.` |
| Pattern.DotStarIsChildren | statemanager/pattern.go:85-97 | a wildcard-free `q.*` accepts exactly the values starting with `q.`, so never `q` itself |
| Pattern.WildcardStep | statemanager/pattern.go:56-80 | consuming a `(*)`: a match holds iff the value agrees up to and including the `(`, holds a `)` after it, and the rest after the first such `)` matches the rest of the pattern after `(*)` |
| Pattern.WildcardNeedsPrefixAndParen | statemanager/pattern.go:62-77 | a value shorter than the text before `(*)`, or with no `)` after it, is rejected |
| Pattern.PatternRoundTrip | statemanager/pattern.go:46-53 | `Pattern()` returns the exact text the matcher was built from |
| Pattern.ConsumeWildcard | statemanager/pattern.go:56-80 | `a(id)r` against `a(*)b` reduces to `r` against `b` for any id without `)` |
| Pattern.TeamWildcardMatches | statemanager/pattern.go:82-92 | `Scoreboard.Team(*)` accepts `Scoreboard.Team(id)` followed by nothing or by a dotted tail, and nothing else of that shape |
| Pattern.TeamWildcardChildren | statemanager/pattern.go:95-97 | `Scoreboard.Team(*).*` accepts `Scoreboard.Team(id)+tail` iff the tail starts with `.` |
| Pattern.TeamWildcardRowTeam | statemanager/pattern_test.go:11 | test row: `Scoreboard.Team(*)` matches `Scoreboard.Team(1)` |
| Pattern.TeamWildcardRowChild | statemanager/pattern_test.go:12 | test row: `Scoreboard.Team(*)` matches `Scoreboard.Team(2).Name` |
| Pattern.TeamChildrenRowTeam | statemanager/pattern_test.go:13 | test row: `Scoreboard.Team(*).*` rejects `Scoreboard.Team(1)` |
| Pattern.TeamChildrenRowChild | statemanager/pattern_test.go:14 | test row: `Scoreboard.Team(*).*` matches `Scoreboard.Team(2).Name` |
| Pattern.TeamChildrenTable | statemanager/pattern_test.go:15 | test row: `Scoreboard.Team(1).*` matches `Scoreboard.Team(1).Name` |
| Pattern.TeamChildrenOther | statemanager/pattern_test.go:16 | test row: `Scoreboard.Team(1).*` rejects `Scoreboard.Team(2).Name` |
| Pattern.PlainTable | statemanager/pattern_test.go:21-23 | test rows: the empty pattern matches a team colour path; `ScoreBoard` matches `ScoreBoard` and `ScoreBoard.State` |
| Pattern.KeyedPatternMatches | statemanager/pattern_test.go:17-18 | the two-wildcard colour-key pattern accepts `Scoreboard.Team(t).Color(operator).Name.Key(k)` followed by nothing or a dotted child, for every t and k without `)` |
| Pattern.KeyedPatternNeedsOperator | statemanager/pattern_test.go:19 | the colour-key pattern rejects every value whose `Color` id does not begin like `operator` (so `Color(overlay)` values) |
| Pattern.KeyedRowOverlay | statemanager/pattern_test.go:20 | test row: the colour-key pattern rejects `Scoreboard.Team(1).Color(overlay)` |
| Utils.ParseIDs | utils/utils.go:29-41 | the scanning loop returns `IDs(k)`, the ids group after group (text between a `(` and the next `)`) |
| Utils.ScanFindsIDs | utils/utils.go:31-39 | the character scan with an open/closed flag computes the same list as the group-by-group definition |
| Utils.NoParenNoIDs | utils/utils.go:31-40 | a path without `(` yields no ids |
| Utils.UnclosedContributesNothing | utils/utils.go:33-40 | a trailing `(` with no `)` after it contributes nothing |
| Utils.IDsSegment | utils/utils.go:33-37 | a group `a(x)` contributes exactly `x`, even when `x` holds another `(` (an open group is not restarted) |
| Utils.TwoSegments | utils/utils.go:29-41 | two complete groups yield exactly their two ids, in order |
| Utils.DocumentedExample | utils/utils.go:26-28 | `Scoreboard.Team(1).Skater(abc123).Name` yields `["1", "abc123"]` |
| Utils.BaseDir.SetBaseFilePath | utils/utils.go:11-14 | the base becomes the joined elements |
| Utils.BaseDir.Path | utils/utils.go:16-24 | the result is the base joined with exactly the segments not starting with `.`, in order |
| Utils.Kept | utils/utils.go:18-21 | a string is kept iff it is one of the segments and does not start with `.` |
| Utils.DotSegmentIgnored | utils/utils.go:19 | appending a segment starting with `.` leaves the kept list unchanged |
| Utils.JoinPath | utils/utils.go:20 | joining with an empty element gives the other; otherwise the result is `a/` followed by `b` |
| WSClient.PatternMatch | html/javascript/WS.js:336-391 | the client loop returns `ClientMatch(value, pattern)`: true for the empty pattern, otherwise the pass-by-pass client definition |
| WSClient.ClientPass | html/javascript/WS.js:345-368 | one pass of the client loop; a pass that continues strictly shortens the pattern |
| WSClient.ClientEmptyPatternMatchesAll | html/javascript/WS.js:340-343 | `patternMatch(value, "")` holds for every value |
| WSClient.ClientNeedsPrefixAndParen | html/javascript/WS.js:351-364 | a value shorter than the text before the first `(*)`, or holding no `)` anywhere, is rejected |
| WSClient.ClientTailAgreesWithServer | html/javascript/WS.js:370-389 | with no `(*)` and no bare trailing `*`, the client answers exactly as the server's matcher |
| WSClient.ClientStarDiffers | html/javascript/WS.js:385-388 | with a bare trailing `*` the client accepts `Ab` for `A*` while the server's simple matcher rejects it |
| WSClient.ClientAgreesWithServer | html/javascript/WS.js:345-368 | when every `)` of the pattern closes a `(*)`, the client loop and the server's complex matcher agree on every value |
| WSClient.ServerAcceptsLiteralId | statemanager/pattern.go:73-79 | the server accepts `T(1).S(2).N` for `T(1).S(*).N`, since it searches for `)` after the wildcard's position |
| WSClient.ClientRejectsLiteralId | html/javascript/WS.js:361-367 | the client rejects the same value, because it resumes after the first `)` anywhere in the value |
| WSClient.ClientCutsAtFirstParen | html/javascript/WS.js:361-367 | the client's first pass cuts the value after the `)` of `T(1)` |
| WSClient.Fired | html/javascript/WS.js:109-124 | the calls `triggerCallback` makes: at most one per registration, each with the key, value and the state the callback sees |
| WSClient.FiredExactly | html/javascript/WS.js:112-118 | a callback is invoked for a key iff some registration carries it (non-null) and its path matches the key |
| WSClient.FiredBatch | html/javascript/WS.js:138-145 | the calls of one trigger loop concern only keys of the batch whose nullness is the loop's, with the batch value |
| WSClient.WS.TriggerCallback | html/javascript/WS.js:109-124 | appends exactly `Fired(callbacks, k, v, state)` to the calls, leaves state and registrations unchanged, and reports whether any callback ran |
| WSClient.WS.ProcessUpdate | html/javascript/WS.js:130-146 | the state becomes old state overridden by the batch before any callback; the calls are the null-key batch followed by the non-null batch, all seeing the new state |
| WSClient.WS.TriggerAll | html/javascript/WS.js:138-145 | one trigger loop appends exactly the `FiredBatch` calls for its nullness |
| WSClient.BatchOrder | html/javascript/WS.js:131-145 | in a batch, the calls for null values are exactly the first ones, and every callback sees its own key already holding its value |
| TypedStore.Value | statemanager/statemanager.go:86-103 | the entry reads as empty exactly when it is marked empty or carries none of the four type tags, and an empty reading has text ""; the same member models state/statemanager.go:73-90 |
| TypedStore.ValueOfHeld | statemanager/statemanager.go:90-98 | an entry holding `v` reads back as `v`'s typed rendering, not empty |
| TypedStore.ValueParsesBack | statemanager/statemanager.go:93-96 | a non-empty int64 or bool entry's rendering parses back to the stored value |
| TypedStore.Entry.Store | statemanager/statemanager.go:161-166 | the stored entry holds `v`, carries the given stamp and keeps its name |
| TypedStore.Store.constructor | statemanager/statemanager.go:37-71 | a new store has no entries, state number 1 and no pending change |
| TypedStore.Store.StateUpdateTyped | statemanager/statemanager.go:155-217 | the entries become `Put(old, k, v, stateNum)`; `stateUpdated` is raised iff the write changes something; never an error; the same member models state/statemanager.go:142-205 |
| TypedStore.Store.StateDelete | statemanager/statemanager.go:140-153 | the entries become `DeleteSubtree(old, k, stateNum)`; `stateUpdated` is raised iff some entry lies in the subtree; no entry is created; the same member models state/statemanager.go:127-140 |
| TypedStore.Store.StateUpdate | statemanager/statemanager.go:108-138 | nil deletes the subtree and raises the updated flag exactly when some entry lay in it; a supported type writes through `Put` and raises the flag exactly when the write changes something; any other type returns ErrUnknownType and changes neither the entries nor the flag; the same member models state/statemanager.go:95-125 |
| TypedStore.PutCreates | statemanager/statemanager.go:155-169 | a first write to an absent key creates a non-empty entry of the new type holding `v`, stamped with the global number, and counts as a change; the same member models state/statemanager.go:142-156 |
| TypedStore.PutSameIsNoOp | statemanager/statemanager.go:161-209 | writing the value and type an entry already holds changes no entry and raises nothing; the same member models state/statemanager.go:148-196 |
| TypedStore.PutOtherReplaces | statemanager/statemanager.go:161-182 | writing another type or value re-types the entry, stores and stamps it, and it then reads as the new value |
| TypedStore.PutReadsBack | statemanager/statemanager.go:155-217 | after a write the key reads as the value's rendering, the key set gains only `k`, and every other entry is unchanged |
| TypedStore.PutIdempotent | statemanager/statemanager.go:161 | a second identical write is absorbed: same entries, no change reported |
| TypedStore.DeleteExactlySubtree | statemanager/statemanager.go:144-151 | a delete empties and stamps exactly `k` and the keys starting with `k.`; every other entry is unchanged; the same member models state/statemanager.go:131-138 |
| TypedStore.DeleteSparesSibling | statemanager/statemanager.go:145 | a key `k` + `X` (X not starting with `.`) is outside `k`'s subtree |
| TypedStore.DeletedReadsEmpty | statemanager/statemanager.go:87-148 | a deleted key reads as ("", true) |
| TypedStore.IndexZeroIsPrefix | statemanager/statemanager.go:145 | `strings.Index(key, p) == 0` is the prefix test |
| GoStrconv.ParseInt | state/state_int64.go:35 | `strconv.ParseInt(s, 10, 64)`: the value is an int64, a syntax error returns 0, a range error the nearest bound |
| GoStrconv.FormatIntRoundTrip | statemanager/statemanager.go:94 | every int64 rendered by `FormatInt` parses back without error |
| GoStrconv.ParseIntSyntax | state/state_int64.go:35 | a syntax error is reported exactly when the text is not an optionally signed, non-empty digit string |
| GoStrconv.ParseBool | state/state_bool.go:35 | `strconv.ParseBool`: the six accepted spellings per value, otherwise a syntax error with false |
| GoStrconv.FormatBoolRoundTrip | statemanager/statemanager.go:96 | `FormatBool` output parses back to the same boolean |
| GoStrconv.DigitsValue | statemanager/statemanager.go:94 | the decimal digits of n denote n |
| HolderStore.ParseAs | state/state_int64.go:35 | the parse a holder of each kind applies keeps the kind; a string holder takes the text as it is with no error |
| HolderStore.RenderParsesBack | state/state_int64.go:21-23 | what a holder renders, read by its own parser, is what it holds (int64 in range; time when the codec round-trips) |
| HolderStore.StoredAsWritten | state/state_int64.go:34-41 | as written, a typed holder stores the parse result only when parsing fails; a string holder always stores the text |
| HolderStore.Stored | state/state_int64.go:34-41 | the evidently intended reading: the parsed value is stored exactly when parsing succeeds |
| HolderStore.StoredAsWrittenInverted | state/state_int64.go:34-41 | as written "5" is dropped and "x" stores 0 for int64, "true" is dropped and "yes" stores false for bool; the corrected reading stores 5 and refuses "x" |
| HolderStore.StoredReadsRendering | state/state_bool.go:21-23 | with the test corrected, every rendered value is stored back unchanged |
| HolderStore.StateStore.constructor | state/init.go:20-21 | a new store has no records, state number 1 and no pending change |
| HolderStore.StateStore.GetState | state/state.go:127-134 | returns the existing record, or inserts and returns a fresh value-less record with stateNum 0; nothing else changes |
| HolderStore.StateStore.SetStateTyped | state/state.go:136-158 | the key's record ends up holding `v` in a holder of `v`'s kind, stamped with the global number and `stateUpdated` raised; every other record keeps its holder and value |
| HolderStore.StateStore.SetRecord | state/state.go:74-120 | setting an existing record holds `v`, stamps it, and leaves every other record's holder and value alone |
| HolderStore.StateStore.Delete | state/state.go:30-40 | every record of `k`'s subtree loses its value and is stamped; all others keep value and stamp; no record is created; the flag is raised iff the subtree is non-empty |
| HolderStore.StateStore.DeleteRecord | state/state.go:36 | one record loses its value and is stamped; the others are untouched |
| HolderStore.State.constructor | state/state.go:130 | a new record has the key's name, no value and stamp 0 |
| HolderStore.State.SetUpdated | state/state.go:122-125 | the record takes the global number and `stateUpdated` is raised; nothing else changes |
| HolderStore.State.Delete | state/state.go:42-46 | the value is dropped (the holder is not released), the record is stamped and the flag raised |
| HolderStore.State.Value | state/state.go:52-61 | "" without a holder; otherwise the cached text, refreshed from the holder when the cache stamp differs from the record's stamp |
| HolderStore.State.SetTyped | state/state.go:74-120 | a holder of the same kind is set in place; otherwise the old holder is released and a fresh one installed; the record is always stamped and the flag raised, even for an unchanged value (no deduplication) |
| HolderStore.State.Set | state/state.go:67-72 | as written: a value-less record first gets a string holder; the text then goes through the holder's as-written `SetFromString`, and no error comes back |
| HolderStore.State.SetCorrected | state/state.go:67-72 | with the holder's test corrected: the parsed value is stored and stamped, or the parse error is returned and nothing changes |
| HolderStore.ValueHolder.constructor | state/state_string.go:13-17 | a new holder points at its record, holds `v` and stamps the record |
| HolderStore.ValueHolder.Empty | state/state.go:69 | the bare string holder holds "" and stamps nothing |
| HolderStore.ValueHolder.Set | state/state_string.go:23-30 | a released holder returns ErrStateInvalid and changes nothing; a live one stores the value and stamps its record; the same member models state/state_int64.go:25-32, state/state_bool.go:25-32, state/state_time.go:25-32 |
| HolderStore.ValueHolder.SetFromStringAsWritten | state/state_int64.go:34-41 | as written: a well-formed integer returns nil without storing and a parse failure stores the zero result, always nil; the bool (state/state_bool.go:34-41) and time (state/state_time.go:34-41) holders likewise store only when parsing fails; a string holder's `SetFromString` (state/state_string.go:32-34) is exactly `Set` |
| HolderStore.ValueHolder.SetFromString | state/state_int64.go:34-41 | corrected: the parsed value is stored (or ErrStateInvalid once released), or the parse error comes back and nothing is stored |
| HolderStore.ValueHolder.Release | state/state_string.go:36-38 | the holder is detached from its record and keeps its value |
| HolderStore.ReleasedSetFails | state/state_int64.go:43-45 | after release every set returns ErrStateInvalid and leaves the value unchanged |
| Ordering.RankLessIrreflexive | state/updater.go:209-216 | `Less` (lower group priority first, then the bytewise-smaller name) never puts a pair before itself |
| Ordering.RankLessAsymmetric | state/updater.go:209-216 | `Less` never orders two pairs both ways |
| Ordering.RankLessTransitive | state/updater.go:209-216 | `Less` is transitive |
| Ordering.RankLessTotal | state/updater.go:209-216 | any two distinct (priority, name) pairs are ordered one way |
| Ordering.SortBy | state/updater.go:151 | the sort's output is a permutation of its input and sorted by (priority, name) |
| Ordering.SortedPermutationUnique | state/updater.go:151 | two sorted permutations of a list whose distinct elements have distinct ranks are equal, so any sort gives the order the model uses |
| StateUpdater.Find | state/updater.go:50-66 | an exact name wins; otherwise the result is a pattern updater whose matcher accepts the key, and none means no pattern updater accepts it |
| StateUpdater.FindLookup | state/updater.go:50-66 | the lookup returns nothing iff neither the exact name nor any pattern updater matches; whatever it returns is registered, and a non-pattern updater is only ever found under its own name |
| StateUpdater.Update | state/updater.go:68-119 | a parse failure returns the parse error without calling anything; otherwise the callback of that kind is called with the parsed value, and with the key iff it is a pattern callback; string callbacks always get the text |
| StateUpdater.UpdateRoundTrip | state/updater.go:80-115 | text rendered from a value of the callback's kind reaches the callback as that same value |
| StateUpdater.Registry.FindStateUpdater | state/updater.go:50-66 | the lookup loop returns exactly `Find` for the given map range order |
| StateUpdater.Registry.StateSet | state/updater.go:124-131 | no updater gives ErrUpdaterNotFound and calls nothing; otherwise the result is the found updater's `Update` |
| StateUpdater.Registry.Collect | state/updater.go:140-149 | the first loop collects one updater per key that finds one, in range order, and groups the keys by updater; keys without an updater are skipped |
| StateUpdater.Registry.ApplyEach | state/updater.go:153-158 | the inner loop applies the updater to each of its keys, in order |
| StateUpdater.Registry.StateSetGroup | state/updater.go:139-160 | every application is made, errors included, exactly as `GroupPlan`: the collected updaters sorted by (priority, name), each applied to all keys that found it |
| StateUpdater.GroupOrdered | state/updater.go:151-216 | the applications are made in ascending (priority, name) order of their updaters |
| StateUpdater.GroupRepeats | state/updater.go:145-153 | a key is applied once for every key of the batch that found the same updater, so a pattern updater matched by n keys applies each n times |
| StateUpdater.DedupCount | state/updater.go:140-149 | collecting each updater once keeps exactly one copy of every updater found and none of any other |
| StateUpdater.GroupAppliesOnce | state/updater.go:139-160 | with each updater collected once, every key of the batch that found an updater is applied exactly once |
| StateUpdater.Registry.CollectOnce | state/updater.go:140-149 | the updaters found by the batch, each listed once in order of first finding, and each updater's keys in batch order |
| StateUpdater.Registry.StateSetGroupCorrected | state/updater.go:139-160 | the grouped set with each updater collected once: its applications are exactly `GroupPlanOnce`, so every key is applied once |
| StateUpdater.GroupAppliesExactOnce | state/updater.go:143-149 | a key with no updater is never applied; a key found under its own non-pattern name is applied exactly once |
| StateUpdater.Registry.Register | state/updater.go:162-200 | registering replaces any updater of that name with one built from the name, priority, pattern flag and callback kind |
| StateUpdater.Registry.UnregisterUpdater | state/updater.go:202-205 | the name is removed and nothing else changes |
| SMUpdater.StateSet | statemanager/updater.go:37-90 | no entry gives ErrNotFound; text equal to the entry's current text gives nil with no call; no exact-name updater gives ErrUpdaterNotFound; otherwise the text is parsed as the entry's type, a parse failure returns its error, and a call carries exactly the parsed value |
| SMUpdater.SetToCurrentIsNoOp | statemanager/updater.go:42-45 | right after any write, setting the key to the text it shows calls nothing and returns nil |
| SMUpdater.SetInt64RoundTrip | statemanager/updater.go:58-66 | for an int64 entry, new decimal text reaches the int64 callback as exactly the number it spells |
| SMUpdater.SetParseFailure | statemanager/updater.go:59-62 | text that does not parse as the int64 entry's type returns the parse error and calls nothing |
| SMUpdater.SetWrongKindPanics | statemanager/updater.go:52-57 | an updater registered for another type than the entry's is called through a nil callback field |
| SMUpdater.Registry.RegisterUpdater | statemanager/updater.go:118-136 | registration overwrites any updater of that name; the commands are untouched |
| SMUpdater.Registry.UnregisterUpdater | statemanager/updater.go:138-141 | the name is removed from the updaters only |
| SMUpdater.Registry.CollectSelected | statemanager/updater.go:99-106 | the first loop collects, once each, exactly the updaters registered under a key of the batch |
| SMUpdater.Registry.StateSetGroup | statemanager/updater.go:98-116 | only exact-name updaters are considered; they are applied in ascending (priority, name) order, each via `StateSet` with its own key's text, and every outcome (errors included) is kept |
| SMUpdater.GroupOrderDetermined | statemanager/updater.go:108-152 | the order of application is unique: any two sorted arrangements of the selected updaters are equal |
| SMUpdater.Registry.Command | statemanager/command.go:23-39 | "Set" needs exactly two arguments (else errCommandArguments) and delegates to `StateSet(data[0], data[1])`; an unknown name gives errCommandNotFound; a registered command is called with the data |
| SMUpdater.SetCommandShadowed | statemanager/command.go:27-34 | a command registered under "Set" is never called |
| SMUpdater.Registry.RegisterCommand | statemanager/command.go:43-45 | overwrites any command of that name; updaters untouched |
| SMUpdater.Registry.UnregisterCommand | statemanager/command.go:49-51 | removes the command; updaters untouched |
| ListenerCore.FindSlot | state/listener.go:88-95 | the first live slot built from the pattern, or -1 exactly when no live slot holds it |
| ListenerCore.FirstMatch | state/listener.go:149-163 | the first live slot accepting the key, or none exactly when no live slot accepts it |
| ListenerCore.AsWrittenAgreesWithoutNil | state/listener.go:88-163 | until a slot is blanked, the scans as written find the same slot as the corrected ones |
| ListenerCore.UnregisterLeavesNilSlot | state/listener.go:129-139 | subscribing to one pattern and unsubscribing leaves a single nil slot, so the next search or flush as written calls through nil while the corrected scans find nothing |
| ListenerCore.Registered | state/listener.go:107-116 | each pattern that is not live gets a new slot at the end; the lists stay parallel and never shrink |
| ListenerCore.AppendSlot | state/listener.go:112-115 | appending a pattern not yet live keeps the lists well formed and makes it live |
| ListenerCore.RegisterKeeps | state/listener.go:107-116 | registering keeps the lists well formed (parallel, live slots built from their pattern, no pattern live twice) and leaves the existing slots in place |
| ListenerCore.RegisterActivates | state/listener.go:107-116 | after registering, every given pattern is live |
| ListenerCore.RegisterOne | state/listener.go:107-116 | a listener without patterns that registers one holds exactly that one slot |
| ListenerCore.Unregistered | state/listener.go:129-139 | unregistering never changes the lengths of the lists |
| ListenerCore.UnregisterKeeps | state/listener.go:129-139 | unregistering keeps the lists well formed and each slot either unchanged or blanked |
| ListenerCore.UnregisterSpares | state/listener.go:129-139 | a slot whose pattern is not among those unregistered is untouched |
| ListenerCore.UnregisterDeactivates | state/listener.go:129-139 | after unregistering, no given pattern is live |
| ListenerCore.BlankingDeactivates | state/listener.go:133-138 | blanking a pattern's live slot leaves no live slot for it and revives none |
| ListenerCore.StillLive | state/listener.go:129-139 | a slot still live after unregistering is untouched and its pattern was not unregistered |
| ListenerCore.Diff | state/listener.go:145-171 | the diff holds exactly the entries some live pattern matches that are newer than the listener or first matched by a pattern being registered, each with its current value |
| ListenerCore.Flushed | state/listener.go:142-179 | a current listener with no paths sends nothing; otherwise a non-empty diff is sent holding every selected entry and nothing else, and only a flush without paths advances the listener to the global number |
| ListenerCore.RegisterReplays | state/listener.go:100-160 | registering replays the current value of every entry first matched by a registered pattern, however old, without advancing the listener |
| ListenerCore.CaughtUp | state/listener.go:144-175 | after a flush that sent, a second flush against the same state is skipped, and a later one sends each matched entry stamped since |
| ListenerCore.UnregisteredNotSent | state/listener.go:121-165 | an entry only the unregistered patterns matched is never sent again |
| ListenerCore.Listener.constructor | state/listener.go:28-34 | a new listener stands at state number 0 with no patterns and nothing sent |
| ListenerCore.Listener.FindPatternMatcher | state/listener.go:88-95 | the scan returns `FindSlot` |
| ListenerCore.Listener.MatchIndex | state/listener.go:149-163 | the scan returns `FirstMatch` |
| ListenerCore.Listener.Wanted | state/listener.go:146-165 | an entry is wanted exactly by the `Include` rule |
| ListenerCore.Listener.Select | state/listener.go:145-171 | the map built over all entries equals `Diff` |
| ListenerCore.Listener.Flush | state/listener.go:142-179 | the listener's number and the diffs sent become what `Flushed` gives; the patterns are unchanged; the same member models statemanager/listener.go:135-172 |
| ListenerCore.Listener.RegisterPaths | state/listener.go:100-118 | no paths changes nothing; otherwise the slots become `Registered` and the flush with the paths follows; the same member models statemanager/listener.go:93-111 |
| ListenerCore.Listener.UnregisterPaths | state/listener.go:121-140 | the slots become `Unregistered`, well formed; number and diffs unchanged; the same member models statemanager/listener.go:114-133 |
| ListenerCore.Hub.constructor | state/listener.go:19 | the package starts with no listeners |
| ListenerCore.Hub.NewListener | state/listener.go:24-48 | a fresh listener at state number 0 is appended to the list |
| ListenerCore.Hub.Close | state/listener.go:71-83 | the closed listener leaves the list (its slot taken by the last), every other listener stays, each listed once; a listener not listed changes nothing; the same member models statemanager/listener.go:44-56 |
| ListenerCore.Hub.FlushAll | state/listener.go:181-194 | every listener is flushed without paths against the same state; the same member models statemanager/listener.go:174-187 |
| ListenerCore.SwapRemove | state/listener.go:78-79 | the removal drops exactly the element at the index and moves the last one into its place |
| ListenerCore.SwapRemoveRemoves | state/listener.go:76-81 | with each listener listed once, the closed one is gone and all others remain |
| ListenerCore.SwapRemoveDistinct | state/listener.go:78-79 | removal keeps each listener listed once |
| ManagerListeners.StoreView | statemanager/listener.go:137-162 | what a flush reads holds every entry's stamp and value, under exactly the store's keys |
| ManagerListeners.FlushListeners | statemanager/listener.go:174-187 | after a write, every listener is flushed without paths against the store as it stood, then the global number moves on by one and the flag drops; otherwise nothing changes; listeners keep trailing the global number |
| ManagerListeners.WriteReachesListener | statemanager/listener.go:135-172 | a write since the last round reaches every listener one of whose live patterns accepts the key, carrying the entry's current value, and the listener catches up to the round's number |
| ManagerListeners.OnlyNewerSent | statemanager/listener.go:139-158 | a flush without paths never sends an entry stamped at or before the listener's number |
| StateListeners.RecordView | state/listener.go:144-169 | what a flush reads is the records themselves with their stamps |
| StateListeners.FlushListeners | state/listener.go:181-194 | after a write, every listener is flushed without paths against the records as they stood, then the number moves on by one and the flag drops; otherwise nothing changes |
| StateListeners.StringUpdatesAsWritten | state/listener.go:54-64 | the converter as written sends "" for every key, whatever the record holds |
| StateListeners.StringUpdates | state/listener.go:54-64 | the corrected converter sends each record's shown text under the same keys, and "" for a record without a value |
| StateListeners.ShownIsHeldText | state/listener.go:57-60 | a record holding a string shows that string, so the converter as written loses it |
| Saver.Merged | statemanager/saver.go:74-80 | a nil value removes its key, any other value is stored, and keys outside the batch keep what they had |
| Saver.MergeIdempotent | statemanager/saver.go:74-80 | folding the same batch in twice leaves the copy as folding it in once |
| Saver.SaveRateLimited | statemanager/saver.go:83 | with a positive interval no batch triggers a save before one interval has passed since the last, and every batch from then on does |
| Saver.Saver.constructor | statemanager/saver.go:45-51 | a new saver has its name, interval and version, an empty copy, no listener and no save |
| Saver.Saver.ProcessUpdates | statemanager/saver.go:70-87 | the copy becomes `Merged` of the batch; a save is triggered exactly when the interval is zero or has passed, and then the save time moves to now |
| Saver.Saver.SaveState | statemanager/saver.go:123-142 | the copy as it stands is written, and nothing else changes |
| Saver.Saver.OnTrigger | statemanager/saver.go:110-121 | a wake after Close stops the loop without saving; any other wake saves the copy |
| Saver.Saver.Close | statemanager/saver.go:62-68 | the listener leaves the hub (all others stay), the copy is saved exactly once, and the listener is dropped |
| Saver.LoadFile | statemanager/saver.go:41-106 | with setFromFile the file's contents are applied as one grouped set (an unreadable file gives an empty group); without it nothing is applied |
| Saver.NewSaver | statemanager/saver.go:38-58 | the file is applied first; the new saver's listener, named "Saver(name)", joins the hub subscribed to `base` alone and receives the replay of every matching entry |
| MinMax.Clamp | scoreboard/min_max_number.go:117-121 | the result lies within the bounds when they are ordered, is the value itself when it already does, and is otherwise one of the bounds |
| MinMax.WithNum | scoreboard/min_max_number.go:116-128 | setting the value keeps the bounds, keeps the value in range, and stores an in-range argument unchanged |
| MinMax.WithMin | scoreboard/min_max_number.go:90-101 | the new minimum is stored, a minimum above the maximum drags the maximum up to it, and an in-range counter stays in range with its value clamped into the new bounds |
| MinMax.WithMax | scoreboard/min_max_number.go:103-114 | symmetric to setMin: a maximum below the minimum drags the minimum down, and the value is clamped into the new bounds |
| MinMax.Adjusted | scoreboard/min_max_number.go:66-88 | a negative amount flips the direction; the value moves by the amount and the result is true unless that reaches or passes the bound ahead, where the value stops at that bound and the result is false; the bounds never change and an in-range counter stays in range |
| MinMax.Rounded | scoreboard/min_max_number.go:52-57 | for a value that is not negative, counting up rounds down to the multiple of updateOn at or below it and counting down rounds up to the multiple at or above it |
| MinMax.RoundingStep | scoreboard/min_max_number.go:52-55 | Go's truncating remainder agrees with the mathematical one for values that are not negative, and the countdown correction is zero exactly on multiples |
| MinMax.Display | scoreboard/min_max_number.go:57-62 | the published number is the rounded value clamped into the bounds |
| MinMax.DisplayUnit | scoreboard/min_max_number.go:50-64 | with updateOn 1 the published number is the value itself, negative or not |
| MinMax.Initial | scoreboard/min_max_number.go:43-45 | a new counter is in range whatever its arguments |
| MinMax.InitialBounds | scoreboard/min_max_number.go:25-48 | a counter built with min ≤ max holds exactly those bounds and the clamped start value |
| MinMax.RestoreInPriorityOrder | scoreboard/min_max_number.go:39-41 | Min (priority 1), then Max (2), then PreciseNum (3) restores any consistent saved triple whatever the counter held |
| MinMax.ValueFirstLosesValue | scoreboard/min_max_number.go:39-45 | restoring the value before its bounds can clamp it away, which is why it has the last priority |
| MinMax.MinMaxNumber.constructor | scoreboard/min_max_number.go:25-48 | the counter holds `Initial(min, max, num)` and publishes its display value |
| MinMax.MinMaxNumber.SendNumStateUpdate | scoreboard/min_max_number.go:50-64 | the published number becomes `Display` of the counter; the counter is unchanged |
| MinMax.MinMaxNumber.Adjust | scoreboard/min_max_number.go:66-88 | the counter and result are `Adjusted`, and the number is republished on every path |
| MinMax.MinMaxNumber.SetMin | scoreboard/min_max_number.go:90-101 | the counter becomes `WithMin`; the number is republished exactly when setNum is reached |
| MinMax.MinMaxNumber.SetMax | scoreboard/min_max_number.go:103-114 | the counter becomes `WithMax`; the number is republished exactly when setNum is reached |
| MinMax.MinMaxNumber.SetNum | scoreboard/min_max_number.go:116-128 | the counter becomes `WithNum` and the number is republished |
| MinMax.MinMaxNumber.SetCountDown | scoreboard/min_max_number.go:130-133 | the direction changes, the value does not, and the number is republished |
| MinMax.MinMaxNumber.IncNum | scoreboard/min_max_number.go:135-137 | the value becomes the old one plus one, clamped |
| Clocks.NewClock | scoreboard/clock.go:26-54 | a new clock's number and time are in range and it is not adjustable |
| Clocks.NewClockStarts | scoreboard/clock.go:26-36 | with ordered bounds the number starts at its minimum and the time at its maximum when counting down, its minimum otherwise |
| Clocks.AfterReset | scoreboard/clock.go:82-98 | a reset stops the clock and returns its time to the start bound, keeping direction and adjustability |
| Clocks.ResetRestarts | scoreboard/clock.go:82-98 | after a reset the number is the old one (its minimum after a full reset), plus one exactly when incNumber is set, the time had left its start bound and the number was below its maximum |
| Clocks.AfterTick | scoreboard/clock.go:115-121 | a tick leaves the number alone; expiry stops the clock, otherwise running is unchanged |
| Clocks.TickMoves | scoreboard/clock.go:115-121 | a positive tick without expiry moves the time by exactly that much in the counting direction, staying strictly inside the bounds; on expiry the time stops at the bound it was heading for |
| Clocks.AfterIncTime | scoreboard/clock.go:132-135 | incTime adds a second, stopping at the maximum, whatever the counting direction |
| Clocks.AfterDecTime | scoreboard/clock.go:137-140 | decTime removes a second, stopping at the minimum, whatever the counting direction |
| Clocks.IncDecInverse | scoreboard/clock.go:132-140 | away from both bounds incTime and decTime undo each other |
| Clocks.Clock.constructor | scoreboard/clock.go:26-57 | the new clock is `NewClock` of its arguments, with both counters published |
| Clocks.Clock.SetName | scoreboard/clock.go:63-67 | only the name changes |
| Clocks.Clock.SetCountDown | scoreboard/clock.go:69-74 | the clock's direction and its time's rounding direction change together, and the time is republished |
| Clocks.Clock.SetRunning | scoreboard/clock.go:76-80 | only the running flag changes |
| Clocks.Clock.Start | scoreboard/clock.go:104-107 | the clock runs; nothing else changes |
| Clocks.Clock.Stop | scoreboard/clock.go:109-112 | the clock stops; nothing else changes |
| Clocks.Clock.SetAdjustable | scoreboard/clock.go:123-126 | only the adjustable flag changes |
| Clocks.Clock.Reset | scoreboard/clock.go:82-98 | the clock becomes `AfterReset` of its old state |
| Clocks.Clock.ResetNumber | scoreboard/clock.go:83-94 | the number becomes what `AfterReset` gives |
| Clocks.Clock.Tick | scoreboard/clock.go:115-121 | the clock and the expiry flag become `AfterTick` |
| Clocks.Clock.TickIfRunning | scoreboard/master_clock.go:148-154 | only a running clock ticks, and only it can expire |
| Clocks.Clock.ShiftTime | scoreboard/master_clock.go:282-285 | the time moves back by the offset, neither clamped nor republished |
| Clocks.Clock.IncTime | scoreboard/clock.go:132-135 | the clock becomes `AfterIncTime`, republished |
| Clocks.Clock.DecTime | scoreboard/clock.go:137-140 | the clock becomes `AfterDecTime`, republished |
| MasterClocks.ParseId | scoreboard/master_clock.go:31-102 | a name denotes a clock only if it is that clock's key in the clock map |
| MasterClocks.ParseIdName | scoreboard/master_clock.go:31-102 | every clock is found under its own key |
| MasterClocks.ClockOffset | scoreboard/master_clock.go:250-279 | for times that are not negative the offset lies in [-500, 500] |
| MasterClocks.OffsetAligns | scoreboard/master_clock.go:250-285 | once the slave's time has the offset taken off, its next whole second falls exactly when the master's does |
| MasterClocks.TickForm | scoreboard/master_clock.go:254-263 | the time to the next displayed second is below 1000 ms: the milliseconds past the second counting down, those to the next counting up |
| MasterClocks.RunningExactly | scoreboard/master_clock.go:184-191 | after setRunningClocks exactly the named clocks run, and no number, direction, adjustable flag or time bound has changed |
| MasterClocks.StartedGet | scoreboard/master_clock.go:281-288 | starting a clock changes that clock only: it runs, and only its time value may move, never Period's nor when not synchronising |
| MasterClocks.TimesKept | scoreboard/master_clock.go:184-285 | setRunningClocks never touches Period's time, and touches no time at all unless Period is started |
| MasterClocks.SyncedWithPeriod | scoreboard/master_clock.go:184-285 | starting Period and then another clock shifts that clock's time by its offset against the running Period |
| MasterClocks.TicksToDo | scoreboard/master_clock.go:135-137 | the ticks to do bring the count to the number of whole 100 ms ticks since the start time |
| MasterClocks.CurrentTime | scoreboard/master_clock.go:290-292 | the current time is the start time plus 100 ms per tick done |
| MasterClocks.CaughtUp | scoreboard/master_clock.go:134-292 | once the ticker has caught up, the current time is the last whole tick at or before now |
| MasterClocks.Restored | scoreboard/scoreboard.go:328-333 | undo sets the running flag and writes back time and number through the clamping setNum, so in-range values come back exactly |
| MasterClocks.MasterClock.constructor | scoreboard/master_clock.go:45-116 | the master clock holds the five configured clocks, sharing no object, with tick count 0 and synchronisation on |
| MasterClocks.MasterClock.ResetAll | scoreboard/master_clock.go:119-121 | every clock is fully reset, whatever the map's iteration order |
| MasterClocks.MasterClock.Reset | scoreboard/master_clock.go:118-125 | every clock is fully reset, the start time becomes now and the tick count 0 |
| MasterClocks.MasterClock.SetTicks | scoreboard/master_clock.go:178-182 | only the tick count changes |
| MasterClocks.MasterClock.SetStartTime | scoreboard/master_clock.go:172-176 | only the start time changes |
| MasterClocks.MasterClock.StopId | scoreboard/master_clock.go:214 | one clock stops; the others are untouched |
| MasterClocks.MasterClock.ResetId | scoreboard/master_clock.go:239 | one clock is fully reset; the others are untouched |
| MasterClocks.MasterClock.ResetIdWith | scoreboard/clock.go:82-98 | one clock is reset as `AfterReset` says; the others are untouched |
| MasterClocks.MasterClock.RestoreId | scoreboard/scoreboard.go:328-333 | one clock becomes `Restored`; the others are untouched |
| MasterClocks.MasterClock.TickId | scoreboard/master_clock.go:148-154 | one running clock ticks once and reports whether it ran out; a stopped one is left alone |
| MasterClocks.MasterClock.AdjustableId | scoreboard/master_clock.go:223 | one clock's adjustable flag changes; nothing else |
| MasterClocks.MasterClock.StopAll | scoreboard/master_clock.go:185-187 | every clock stops, nothing else changes |
| MasterClocks.MasterClock.TriggerClockStart | scoreboard/master_clock.go:281-288 | a clock other than Period started while Period runs and synchronisation is on has its time shifted by the offset; the clock then runs |
| MasterClocks.MasterClock.ShiftTime | scoreboard/master_clock.go:284 | one clock's time moves back by the offset, unclamped |
| MasterClocks.MasterClock.RunId | scoreboard/master_clock.go:287 | one clock is set running |
| MasterClocks.MasterClock.StartClock | scoreboard/master_clock.go:193-200 | an unknown name gives errClockNotFound and changes nothing; otherwise that clock is started |
| MasterClocks.MasterClock.SetRunningClocks | scoreboard/master_clock.go:184-191 | all clocks stop, then the named ones start in order |
| MasterClocks.MasterClock.StopClock | scoreboard/master_clock.go:209-216 | an unknown name gives errClockNotFound and changes nothing; otherwise only that clock stops |
| MasterClocks.MasterClock.SetClockAdjustable | scoreboard/master_clock.go:218-225 | an unknown name gives errClockNotFound; otherwise only that clock's flag changes |
| MasterClocks.MasterClock.ResetClock | scoreboard/master_clock.go:234-241 | an unknown name gives errClockNotFound; otherwise only that clock is fully reset |
| MasterClocks.MasterClock.StartCmd | scoreboard/master_clock.go:202-207 | no argument gives errClockNotFound; otherwise startClock on the first |
| MasterClocks.MasterClock.StopCmd | scoreboard/master_clock.go:227-232 | no argument gives errClockNotFound; otherwise stopClock on the first |
| MasterClocks.MasterClock.ResetCmd | scoreboard/master_clock.go:243-248 | no argument gives errClockNotFound; otherwise resetClock on the first |
| MasterClocks.MasterClock.TickClocks | scoreboard/master_clock.go:147-155 | every running clock ticks once, the tick count goes up by one, and the result says whether any clock ran out |
| MasterClocks.NewClocks | scoreboard/master_clock.go:58-97 | the five configured clocks, built by newClock and sharing no object |
| MasterClocks.ConfiguredClocks | scoreboard/master_clock.go:53-105 | Period 1..2 over 30 minutes down, Jam 1..99 over 2 minutes down, Lineup and Timeout 1..99 over 30 minutes up, Intermission 1..2 over 15 minutes down; the full reset after building changes none of them |
| Snapshots.NewSnapshot | scoreboard/state_snapshot.go:85-109 | a new snapshot is in progress, cannot be reverted to, has no end and length 0, and records the game's state, ticks and time, each team's timeouts and reviews and each clock's number, time and running flag |
| Snapshots.LengthIsElapsed | scoreboard/state_snapshot.go:136-140 | for a named state the length is the master clock's time, in milliseconds, between the snapshot's start tick and now; nothing else changes |
| Snapshots.EndRecords | scoreboard/state_snapshot.go:111-121 | ending records the end tick and time and whether undo may return, leaves the snapshot no longer in progress, keeps what it recorded at the start, and gives each clock the time it stands at now as its end time |
| Snapshots.UnendUndoesEnd | scoreboard/state_snapshot.go:111-134 | unending a snapshot that was just ended gives it back as it was, its length brought up to date |
| Snapshots.UnendedIsCurrent | scoreboard/state_snapshot.go:123-134 | an unended snapshot is in progress, cannot be reverted to and records no end |
| Snapshots.RestoreGet | scoreboard/scoreboard.go:328-333 | undo writes each clock back from its own snapshot entry: running flag, end time and number |
| Snapshots.RestoreUndoes | scoreboard/scoreboard.go:328-333 | clocks that kept their bounds are restored exactly to where they stood when the state ended, provided the snapshot still described their running flags and numbers then; the adjustable flag is not restored |
| Snapshots.RestoreTeamUndoes | scoreboard/scoreboard.go:334-338 | writing back a team's recorded timeouts and reviews gives that team back |
| Snapshots.ClockBaseUnique | scoreboard/state_snapshot.go:229-236 | no key starts with two different clock bases, so the scan order over the clock map does not matter |
| Snapshots.FindClock | scoreboard/state_snapshot.go:229-236 | the clock found is one whose base and a dot start the key, and none is found exactly when no clock's does |
| Snapshots.TeamBaseUnique | scoreboard/state_snapshot.go:237-244 | no key starts with both team bases |
| Snapshots.FindTeam | scoreboard/state_snapshot.go:237-244 | the team found is one whose base and a dot start the key, and none is found exactly when neither's does |
| Snapshots.WrittenIsLocal | scoreboard/state_snapshot.go:264-392 | a snapshot updater changes only what it addresses: a clock setter fails with errSnapshotClockNotFound exactly when no clock base starts the key and otherwise changes that one clock; a team setter likewise with errSnapshotTeamNotFound; the others change neither |
| Snapshots.PaddedSnaps | scoreboard/state_snapshot.go:257-260 | padding appends blank snapshots numbered by position until the id is an index, keeping the existing ones |
| Snapshots.PaddedIndexed | scoreboard/state_snapshot.go:54-260 | padding keeps every snapshot's index equal to its place in the list |
| GameRules.TimeoutState | scoreboard/scoreboard.go:242-360 | the state a timeout asks for is always a timeout state: the first argument when it names one, else an official timeout |
| GameRules.ExpiredKeepsTicks | scoreboard/scoreboard.go:129-174 | no transition clocksExpired takes changes the tick count or the start time |
| GameRules.TickOnceCounts | scoreboard/master_clock.go:146-160 | one pass of the ticker's loop counts exactly one tick |
| GameRules.TicksCounted | scoreboard/master_clock.go:134-161 | ticking n times moves the tick count up by exactly n, whatever the clocks and transitions do |
| GameRules.StopJamTakenBack | scoreboard/scoreboard.go:322-326 | stopping a jam that leaves the period running and then undoing it takes the jam back under both the written test and the intended one |
| GameRules.TimeoutInJamAsWritten | scoreboard/scoreboard.go:322-326 | a timeout called during a jam, then undone, passes the written jam test though no jam was added; the intended test rejects it |
| GameRules.PeriodEndInJamAsWritten | scoreboard/scoreboard.go:322-326 | a jam stopped after the period clock ran out, then undone, passes the written jam test though the game left Jam for the end of the period; the intended test rejects it |
| GameRules.RevertUndoes | scoreboard/scoreboard.go:314-352 | reverting a revertible transition out of a settled game gives the game back with each team restored from its own snapshot team; undo as written does so exactly when both teams' counters agree |
| GameRules.ClocksMovedTrans | scoreboard/scoreboard.go:193-312 | moving clocks within their bounds, twice, is moving them within their bounds |
| GameRules.WithStateMoves | scoreboard/scoreboard.go:180-191 | setState changes only the state and the period clock's adjustable flag |
| GameRules.WithResetMoves | scoreboard/clock.go:82-98 | a clock reset keeps every clock's bounds, direction and adjustability |
| GameRules.RunningMoves | scoreboard/master_clock.go:184-191 | setRunningClocks keeps every clock's bounds, direction and adjustability |
| GameRules.SwitchMoves | scoreboard/scoreboard.go:207-310 | setting a state, resetting one clock and choosing the running clocks moves the clocks only within their bounds |
| GameRules.StartedRevertible | scoreboard/scoreboard.go:115-127 | ending the active snapshot with undo allowed, moving clocks and counters, then starting a snapshot is a revertible step |
| GameRules.UndoStartJam | scoreboard/scoreboard.go:193-352 | startJam out of a settled game not in a jam is revertible, and undo afterwards gives the game back (as written only when both teams' counters agree) |
| GameRules.EndOfPeriodRevertible | scoreboard/scoreboard.go:155-168 | endOfPeriod with undo allowed is a revertible step, whether it leads to intermission or to the unofficial final |
| GameRules.UndoStopJam | scoreboard/scoreboard.go:217-352 | stopJam out of a settled jam whose clock moved (or whose period is over) is revertible, and undo gives the game back (as written only when both teams' counters agree) |
| GameRules.UndoTimeout | scoreboard/scoreboard.go:241-352 | a granted timeout is revertible, and undo gives the game back, the used timeout or review included (as written only when both teams' counters agree) |
| GameRules.UndoEndTimeout | scoreboard/scoreboard.go:299-352 | endTimeout is revertible, and undo gives the game back (as written only when both teams' counters agree) |
| GameRules.RefusedTimeoutKeeps | scoreboard/scoreboard.go:249-286 | a refused timeout leaves a settled game exactly as it was: its end and unend cancel |
| GameRules.QuietTickSettled | scoreboard/master_clock.go:146-160 | a tick on which no clock runs out keeps the game settled, so undo still goes back exactly after quiet ticks |
| Scoreboards.FieldTeam | scoreboard/jam.go:75-80 | newJam on one team: every skater sent to the bench, then that team's positions recorded in the new jam, the other team's record and the jam's numbers untouched |
| Scoreboards.NumberedJam | scoreboard/jam.go:64-73 | newJam's jam is a new blank jam numbered period 1, jam 1 when it is the first, else the period number and the jam clock's number plus one |
| Scoreboards.UseTeam | scoreboard/team.go:282-296 | a team's timeout or review is used, and true returned, exactly when its counter is above zero; otherwise nothing changes |
| Scoreboards.RestoreCounters | scoreboard/scoreboard.go:334-338 | undo writes a team's timeouts, official reviews and retained flag back from a snapshot team and leaves its roster alone |
| Scoreboards.RestoreClocks | scoreboard/scoreboard.go:328-333 | undo writes every clock's running flag, time and number back from the snapshot's clocks |
| Scoreboards.DeleteJams | scoreboard/scoreboard.go:100-102 | reset deletes every jam in the list |
| Scoreboards.NewParts | scoreboard/scoreboard.go:51-53 | a new scoreboard's two teams (ids 1 and 2) and its master clock are fresh, valid and disjoint, the clock in sync mode |
| Scoreboards.Scoreboard.constructor | scoreboard/scoreboard.go:50-88 | a new scoreboard is reset: state "", tick count 0, start time now, both teams reset, one snapshot and one jam, the jam active |
| Scoreboards.Scoreboard.SetState | scoreboard/scoreboard.go:180-191 | setState is the GameRules state change: the state written and the period clock adjustable exactly in a timeout state |
| Scoreboards.Scoreboard.SnapshotStateStart | scoreboard/scoreboard.go:115-118 | a snapshot of the game as it stands is appended and becomes the active one |
| Scoreboards.Scoreboard.SnapshotStateEnd | scoreboard/scoreboard.go:120-127 | the active snapshot is ended at the current time and tick count with the given undo flag |
| Scoreboards.Scoreboard.EndOfIntermission | scoreboard/scoreboard.go:170-174 | the period clock is fully reset with its number advanced, and the jam clock fully reset |
| Scoreboards.Scoreboard.PeriodOver | scoreboard/scoreboard.go:160-166 | after period 1 the game goes to Intermission with only the reset intermission clock running; otherwise to the unofficial final with every clock stopped |
| Scoreboards.Scoreboard.EndOfPeriod | scoreboard/scoreboard.go:155-168 | endOfPeriod ends the active snapshot, takes the period-over transition and opens a new snapshot, as GameRules describes |
| Scoreboards.Scoreboard.SnapshotStateUnend | scoreboard/scoreboard.go:251-259 | a refused timeout unends the active snapshot |
| Scoreboards.Scoreboard.SnapshotStateLength | scoreboard/master_clock.go:157 | the active snapshot's length is brought up to the current tick count |
| Scoreboards.Scoreboard.NewJam | scoreboard/jam.go:64-82 | newJam appends a new jam, makes it active, follows the old active jam, takes its place as idx, is numbered from the clocks, benches every skater and records both teams |
| Scoreboards.Scoreboard.AppendJam | scoreboard/jam.go:64-73 | newJam's blank jam is appended, made active and numbered, with nothing recorded yet |
| Scoreboards.Scoreboard.FieldTeams | scoreboard/jam.go:75-80 | both teams are benched and recorded in the active jam, and nothing the game rules see changes |
| Scoreboards.Scoreboard.StartJam | scoreboard/scoreboard.go:193-215 | startJam is the GameRules transition; the active jam takes the clocks' period and jam numbers unless the game was already in a jam |
| Scoreboards.Scoreboard.NumberActiveJam | scoreboard/jam.go:84-87 | updateJam gives the active jam the period and jam numbers the clocks show and keeps its record |
| Scoreboards.Scoreboard.StopJam | scoreboard/scoreboard.go:217-239 | stopJam is the GameRules transition; a new jam is added exactly when the game was in a jam with the period clock running, otherwise jams and rosters stay |
| Scoreboards.Scoreboard.UseFor | scoreboard/scoreboard.go:260-285 | timeout's switch uses the asked team's timeout or review, or refuses an official timeout already running, exactly as GameRules.Refused says |
| Scoreboards.Scoreboard.CallTimeout | scoreboard/scoreboard.go:241-297 | timeout is the GameRules transition; jams and rosters are untouched |
| Scoreboards.Scoreboard.EndTimeout | scoreboard/scoreboard.go:299-312 | endTimeout is the GameRules transition |
| Scoreboards.Scoreboard.ClocksExpired | scoreboard/scoreboard.go:129-153 | clocksExpired is the GameRules transition; a new jam is added exactly when a jam ran out with the period clock running |
| Scoreboards.Scoreboard.TickPass | scoreboard/master_clock.go:146-160 | one pass of the ticker's loop is GameRules.TickOnce |
| Scoreboards.Scoreboard.TickClocks | scoreboard/master_clock.go:147-157 | the running clocks are ticked, the tick counted and the active snapshot's length updated; the result says whether any clock ran out |
| Scoreboards.Scoreboard.Ticker | scoreboard/master_clock.go:134-161 | the ticker runs one pass per whole tick elapsed since the start time beyond those counted |
| Scoreboards.Scoreboard.ResetTeams | scoreboard/scoreboard.go:92-94 | both teams are reset to their default names, colours and counters |
| Scoreboards.Scoreboard.DropAll | scoreboard/scoreboard.go:97-106 | reset deletes every jam and empties the snapshot and jam lists |
| Scoreboards.Scoreboard.Reset | scoreboard/scoreboard.go:90-113 | reset leaves state "", clocks fully reset, tick count 0, teams reset, old jams deleted, then one snapshot and one jam numbered period 1, jam 1 |
| Scoreboards.Scoreboard.RevertSnapshot | scoreboard/scoreboard.go:314-347 | undo goes back only with two snapshots and a revertible one before the last; a jam is taken back when the written test (`intended` false) or the test for leaving Jam for Lineup (`intended` true) holds, which deletes the active jam and panics on a list shorter than two |
| Scoreboards.Scoreboard.JamUndone | scoreboard/scoreboard.go:322-326 | the active jam is deleted, the one before the last becomes active and the list shrinks by the drop; a list shorter than two panics |
| Scoreboards.Scoreboard.WriteBack | scoreboard/scoreboard.go:328-347 | clocks, counters, tick count and state are written back and the snapshot before the last, unended, becomes the active one |
| Scoreboards.Scoreboard.ReactivatePrior | scoreboard/scoreboard.go:343-347 | the last snapshot is dropped and the one before it unended and made active |
| Scoreboards.Scoreboard.Revert | scoreboard/scoreboard.go:314-347 | undo as written: GameRules.Reverted, both teams from the snapshot's first team, and two jams dropped whenever the written jam test holds, including after a timeout in a jam |
| Scoreboards.Scoreboard.RevertCorrected | scoreboard/scoreboard.go:314-347 | undo corrected: each team from its own snapshot team, and a jam taken back only when undo returns from Lineup to Jam, dropping that one jam, so the jam made active is the last one |
| Scoreboards.Scoreboard.Undo | scoreboard/scoreboard.go:314-352 | undo as written, then the ticker catching up from the restored tick count |
| Scoreboards.Scoreboard.UndoCorrected | scoreboard/scoreboard.go:314-352 | the corrected undo, then the ticker |
| Scoreboards.Scoreboard.FindStateSnapshot | scoreboard/state_snapshot.go:246-263 | a key with no id or a non-numeric first id finds nothing and changes nothing; otherwise the list is padded with blank snapshots numbered by place up to that id, which is then in range |
| Scoreboards.Scoreboard.PadSnapshots | scoreboard/state_snapshot.go:257-260 | the padding loop appends blank snapshots numbered by their place until the id is an index, and changes nothing else |
| Scoreboards.Scoreboard.SnapshotUpdate | scoreboard/state_snapshot.go:264-392 | every snapshot updater is SnapshotUpdated: errSnapshotNotFound when the lookup fails, the clock or team lookup's error, and a snapshot set in progress made the active one |
| Scoreboards.SnapshotUpdateKeeps | scoreboard/state_snapshot.go:246-392 | a snapshot updater keeps the list numbered and the active index in it, fails with errSnapshotNotFound exactly when the key has no numeric id, changes no snapshot but the one named, pads only with blanks, and the snapshot set in progress is active afterwards |
| Scoreboards.Scoreboard.BlankJam | scoreboard/jam.go:42-62 | blankJam makes a new jam numbered by the list's length, period and jam 0, following the active jam, appends it and makes it active |
| Scoreboards.Scoreboard.PadJamsAsWritten | scoreboard/jam.go:58-174 | findJam's padding as written adds two places per missing id, each pair holding one blank jam, so the list ends twice as long as asked |
| Scoreboards.Scoreboard.BlankPairAsWritten | scoreboard/jam.go:58-173 | one padding step as written: blankJam's jam appended twice and active |
| Scoreboards.Scoreboard.FindJamAsWritten | scoreboard/jam.go:161-177 | findJam as written: nothing for a missing or non-numeric id; otherwise the jams padded in pairs, so a place an odd distance past the old end holds the jam numbered one lower |
| Scoreboards.Scoreboard.PadJams | scoreboard/jam.go:42-174 | the intended padding: one blank jam per missing place, numbered by its place and following the one before |
| Scoreboards.Scoreboard.FindJam | scoreboard/jam.go:161-177 | the intended findJam: nothing for a missing or non-numeric id; otherwise the list padded to that id, whose jam is numbered by its place |
| Scoreboards.BlankPairAdded | scoreboard/jam.go:58-173 | appending blankJam's jam twice keeps the as-written pairing: places two apart after the old end hold jams numbered two apart |
| Scoreboards.BlankAdded | scoreboard/jam.go:58 | appending one blank jam numbered by its place keeps the list numbered by place |
| Scoreboards.FindJamAsWrittenMisnumbers | scoreboard/jam.go:161-177 | from one jam, findJam as written for id 2 leaves five jams, and place 2 holds the jam numbered 1 |
| Scoreboards.Scoreboard.ReinstatePositions | scoreboard/jam.go:94-121 | each team's skaters are benched and put back where the jam recorded that team, the tracked jammer and pivot ids and the game untouched |
| Jams.PivotRecordedAsJammerAsWritten | scoreboard/jam.go:135-148 | as written a jam fielding jammer "j" then pivot "p" remembers "p" as its jammer and no pivot; corrected it remembers both |
| Jams.Listed | scoreboard/jam.go:76-79 | the skaters a roster walk meets, one per key, in the walk's order |
| Jams.RecordedFacts | scoreboard/jam.go:135-148 | a corrected run of setTeamPosition records exactly the blockers met, and as jammer and pivot one skater met at each position, or what was there when none was |
| Jams.RecordThenReinstate | scoreboard/jam.go:75-80 | recording a roster (corrected) and reinstating it later puts every skater back at the position it held, however the roster moved in between, when at most one skater holds Jammer and one Pivot |
| Jams.ListedIds | scoreboard/jam.go:76-79 | walking skaters keyed by their ids meets the keys' ids in order |
| Jams.RecordedBlocker | scoreboard/jam.go:143-145 | a skater is among the recorded blockers exactly when it is a blocker |
| Jams.RecordedHolder | scoreboard/jam.go:137-142 | with at most one holder of a position, the recorded holder is a skater exactly when that skater holds it |
| Jams.WithRecord | scoreboard/jam.go:123-148 | replacing one team's record in a jam leaves the other team's record alone |
| Jams.Jam.Blank | scoreboard/jam.go:42-62 | blankJam's jam: the given idx and previous jam, period 0, jam 0, nothing recorded, live |
| Jams.Jam.UpdateJam | scoreboard/jam.go:84-87 | updateJam sets the period and jam numbers and keeps the record |
| Jams.Jam.Delete | scoreboard/jam.go:89-92 | delete takes the jam out of the game and keeps its numbers and record |
| Jams.Jam.ClearTeamPositions | scoreboard/jam.go:123-133 | the team's jammer, pivot and blockers are emptied, its star pass and the other team's record kept |
| Jams.Jam.SetTeamPosition | scoreboard/jam.go:135-148 | setTeamPosition as written: a jammer's or a pivot's id goes to the jammer field, a blocker's is appended, a bench skater changes nothing |
| Jams.Jam.SetTeamPositionCorrected | scoreboard/jam.go:135-148 | setTeamPosition corrected: a pivot's id goes to the pivot field |
| Jams.Jam.RecordTeam | scoreboard/jam.go:75-80 | newJam's walk over one roster, in the map's own order, applies setTeamPosition as written to every skater exactly once |
| Jams.EnumerateStep | scoreboard/jam.go:76-79 | one more key walked keeps the walk's order and skaters in step |
| Jams.ListsListed | scoreboard/jam.go:76-79 | the skaters a walk holds are the listed ones |
| Skaters.InJamIdx | scoreboard/box_trip.go:72-87 | setInJamIdx records the idx of the jam at that place, or -1 outside the jams |
| Skaters.NewTripEndsInFirstJamAsWritten | scoreboard/box_trip.go:53-65 | as written a trip just begun keeps the zero value 0 as the jam it left, the idx of the game's first jam |
| Skaters.OutJamIdxRecords | scoreboard/box_trip.go:99-111 | corrected, setOutJamIdx follows setInJamIdx's rule: -1 exactly for a place outside the jams, so a new trip has left no jam |
| Skaters.BlankSkater | scoreboard/skater.go:46-79 | blankSkater: the given id, on the bench, no trips, not in the box |
| Skaters.NewSkater | scoreboard/skater.go:81-93 | newSkater is blankSkater with the given texts and flags |
| Skaters.DescriptionsAgree | scoreboard/skater.go:232-252 | the long and short descriptions list one part per flag set and are empty exactly when no flag is set |
| Skaters.ChosenShape | scoreboard/skater.go:232-252 | the parts listed are one name per flag set, and none is empty when no name is |
| Skaters.NonEmptyJoin | scoreboard/skater.go:232-252 | joining non-empty parts is empty only for no parts |
| Skaters.PaddedTrips | scoreboard/box_trip.go:134-137 | findBoxTrip's padding keeps the trips and adds blank ones up to the id asked for |
| Teams.ScoreSet | scoreboard/team.go:175-186 | a negative score changes nothing; otherwise the score is taken and the last score never rises and ends at its old value or the new score, so a valid pair stays valid with a non-negative jam score |
| Teams.LastScoreSet | scoreboard/team.go:188-199 | the score is untouched and the last score is taken exactly when it lies between 0 and the score, so a valid pair stays valid |
| Teams.IncThenDec | scoreboard/team.go:298-306 | Score.Inc followed by Score.Dec restores both scores |
| Teams.DecThenInc | scoreboard/team.go:298-306 | Score.Dec then Score.Inc restores the score; a last score equal to the score stays one lower; at 0, Dec changes nothing |
| Teams.LastScoreStops | scoreboard/team.go:308-316 | LastScore.Inc stops at the score, LastScore.Dec stops at 0, and an Inc below the score is undone by a Dec |
| Teams.ReviewRetained | scoreboard/team.go:154-163 | the review state changes exactly when no review is left and none retained, or one is left and retained |
| Teams.RetainTwice | scoreboard/team.go:154-163 | retaining twice gives the review count and flag back |
| Teams.BoxSet | scoreboard/skater.go:148-169 | entering the box appends a trip begun in the last jam after the team's star-pass flag and makes it current; leaving writes the last jam into the current trip's out side and closes it; every other trip and every other field is kept |
| Teams.BoxRoundTrip | scoreboard/skater.go:148-169 | entering and leaving the box leaves the skater out of it with exactly one trip more, begun and ended in the last jam, and the older trips intact |
| Teams.PutAt | scoreboard/jam.go:94-121 | one skater's position changes to the one given and nothing else in the roster changes |
| Teams.Benched | scoreboard/jam.go:103-108 | every skater is on the bench and nothing but positions changes |
| Teams.Reinstated | scoreboard/jam.go:94-121 | reinstating a jam's positions changes nothing in the roster but positions |
| Teams.BlockersPut | scoreboard/jam.go:112-119 | putting back the blockers changes nothing but positions |
| Teams.RepositionedValid | scoreboard/jam.go:94-121 | moving skaters keeps every skater's current box trip one of its trips |
| Teams.ReinstatedPositions | scoreboard/jam.go:94-121 | after reinstating, a listed blocker is a blocker, else the jam's pivot is pivot, else its jammer is jammer, and everyone else is benched |
| Teams.BlockersPutPosition | scoreboard/jam.go:112-119 | a skater listed among the blockers ends as a blocker and any other keeps its position |
| Teams.Written | scoreboard/skater.go:95-142 | a plain field write never touches the skater's position or box trips |
| Teams.Team.constructor | scoreboard/team.go:40-102 | a new team has no skaters, no jammer or pivot, and the starting name, colour, scores, three timeouts and one review |
| Teams.Team.Reset | scoreboard/team.go:104-120 | name "Team n", colour Black for team 1 and White otherwise, scores 0, three timeouts, one unretained review, lead "No", no star pass; the roster's keys are kept and, without a skater keyed "", nothing else changes |
| Teams.Team.ResetCounters | scoreboard/team.go:104-118 | the counters and flags take their starting values and the roster, jammer and pivot are untouched |
| Teams.Team.SetName | scoreboard/team.go:165-168 | only the name changes |
| Teams.Team.SetColor | scoreboard/team.go:170-173 | only the colour changes |
| Teams.Team.SetScore | scoreboard/team.go:175-186 | the scores become ScoreSet of the old scores and nothing else changes |
| Teams.Team.SetLastScore | scoreboard/team.go:188-199 | the scores become LastScoreSet of the old scores and nothing else changes |
| Teams.Team.SetTimeouts | scoreboard/team.go:201-205 | only the timeouts change |
| Teams.Team.SetOfficialReviews | scoreboard/team.go:207-211 | only the review count changes |
| Teams.Team.SetOfficialReviewRetained | scoreboard/team.go:213-216 | only the retained flag changes |
| Teams.Team.SetLead | scoreboard/team.go:218-221 | only the lead changes |
| Teams.Team.SetStarPass | scoreboard/team.go:223-226 | only the star-pass flag changes |
| Teams.Team.IncScore | scoreboard/team.go:298-301 | the score is set one higher through setScore |
| Teams.Team.DecScore | scoreboard/team.go:303-306 | the score is set one lower through setScore, so at 0 nothing changes |
| Teams.Team.IncLastScore | scoreboard/team.go:308-311 | the last score is set one higher through setLastScore |
| Teams.Team.DecLastScore | scoreboard/team.go:313-316 | the last score is set one lower through setLastScore |
| Teams.Team.UseTimeout | scoreboard/team.go:282-288 | succeeds exactly when a timeout is left, and then takes exactly one |
| Teams.Team.UseOfficialReview | scoreboard/team.go:290-296 | succeeds exactly when a review is left, and then takes exactly one |
| Teams.Team.RetainOfficialReview | scoreboard/team.go:154-163 | the review count and flag become ReviewRetained of the old ones and nothing else changes |
| Teams.Team.DeleteSkater | scoreboard/team.go:122-132 | fails with skater-not-found when no argument is given or no skater has that key; otherwise exactly that skater is removed |
| Teams.Team.UpdatePositions | scoreboard/team.go:260-280 | the jammer and pivot ids are "" when nobody holds the position and otherwise the id of a skater who does; nothing else changes |
| Teams.Team.CountBlockers | scoreboard/skater.go:215-223 | the count is the number of skaters holding Blocker |
| Teams.Team.PutPosition | scoreboard/skater.go:172-179 | the skater takes the position and the jammer and pivot ids are recomputed exactly when the old or new position is Jammer or Pivot |
| Teams.Team.SetPosition | scoreboard/skater.go:171-230 | the error is PositionRefusal's (in the box, or the blockers full, or the displaced holder's refusal) and a refusal changes nothing; otherwise the skater holds the position, only the displaced holder also moves, the blockers stay within the open room, and the jammer and pivot ids are recomputed when needed |
| Teams.Team.ToBench | scoreboard/skater.go:190-192 | a move to the bench is never refused |
| Teams.Team.Displace | scoreboard/skater.go:193-214 | a move to Jammer or Pivot first moves the current holder away, and a refusal there is the refusal here |
| Teams.Team.AddBlocker | scoreboard/skater.go:216-229 | a move to blocker is refused exactly when the blockers fill the room open to this skater |
| Teams.Team.BenchAll | scoreboard/jam.go:75-80 | every skater out of the box is benched, those in the box keep their positions, and the jammer and pivot ids are recomputed when a jammer or pivot left |
| Teams.Team.BenchOne | scoreboard/jam.go:77 | one skater is benched unless in the box or already benched, with ids recomputed when it was jammer or pivot |
| Teams.Team.SetInBox | scoreboard/skater.go:148-169 | the error is BoxRefusal's (benched and entering, or leaving while not in the box) and changes nothing; otherwise the skater becomes BoxSet of itself and the ids are recomputed when it is jammer or pivot |
| Teams.Team.SetJammer | scoreboard/team.go:228-234 | an unknown key fails with skater-not-found and changes nothing; otherwise the error is PositionRefusal's and success leaves that skater jammer |
| Teams.Team.SetPivot | scoreboard/team.go:244-250 | an unknown key fails with skater-not-found and changes nothing; otherwise the error is PositionRefusal's and success leaves that skater pivot |
| Teams.Team.SetJammerInBox | scoreboard/team.go:236-242 | without a skater under the jammer id it fails with skater-not-found; otherwise it is setInBox on that skater |
| Teams.Team.SetPivotInBox | scoreboard/team.go:252-258 | without a skater under the pivot id it fails with skater-not-found; otherwise it is setInBox on that skater |
| Teams.Team.FindSkater | scoreboard/skater.go:255-268 | a key with fewer than two ids finds nothing and changes nothing; otherwise the second id is the skater's key and a blank skater is created under it when missing |
| Teams.Team.WriteSkater | scoreboard/skater.go:270-346 | a plain write changes only that field of that skater; a position write succeeds exactly when PositionRefusal allows it; a box write is setInBox |
| Teams.Team.SkaterUpdate | scoreboard/skater.go:270-346 | the skater updaters fail with skater-not-found exactly when the key has fewer than two ids; otherwise they pad the roster with a blank skater and apply the write as WriteSkater does |
| Teams.Team.Reinstate | scoreboard/jam.go:103-119 | the roster becomes Reinstated of the old one and nothing else changes |
| Teams.Team.FindBoxTrip | scoreboard/box_trip.go:124-140 | the lookup is TripLookup of the key; a found index pads the skater's trips with blank trips up to it and nothing else changes |
| Teams.BoxRefusal | scoreboard/skater.go:148-155 | no refusal to leave the box is given to a skater in it |
| Teams.Padded | scoreboard/skater.go:255-268 | the roster gains a blank skater under the key when it had none and is otherwise unchanged, staying valid |
| Teams.TripLookup | scoreboard/box_trip.go:124-132 | a lookup is missing exactly when the key has no id or its first id does not parse, and a found index is that parsed id |
| Leagues.FieldNamesPlain | leagues/person.go:34-38 | every field name a path ends with is one plain word |
| Leagues.FieldKeyInjective | leagues/person.go:33-38 | two field paths of a record kind are equal only for the same id and the same field name |
| Leagues.PersonKeyInjective | leagues/person.go:33-38 | no two fields of any two people share a path |
| Leagues.LeagueKeyInjective | leagues/league.go:42-44 | no two fields of any two leagues share a path |
| Leagues.FieldKeyIds | leagues/person.go:100-103 | the ids read back from a record's own field path are exactly the record's id |
| Leagues.AcceptedKeyHasId | leagues/person.go:100-103 | every path a `prefix(*)` pattern accepts has a first id, so findPerson's and findLeague's `ids[0]` cannot fail on a key the updaters receive |
| Leagues.OpensAfter | leagues/person.go:33 | a path that begins with the record prefix and "(" has its first "(" right after the prefix |
| Leagues.PersonKeyAcceptedHasId | leagues/person.go:100-103 | any path a person updater accepts has a first id |
| Leagues.LeagueKeyAcceptedHasId | leagues/league.go:74-77 | any path the league Name updater accepts has a first id |
| Leagues.PatternShape | leagues/league.go:28-34 | each updater pattern is a field path whose id is the wildcard |
| Leagues.PersonPatternSelects | leagues/league.go:30-34 | the updater of a person field accepts a person's path for another field exactly when it is the same field, and hands over the person's id |
| Leagues.TailOfFields | leagues/league.go:30-34 | the dotted field names of two person fields match as a tail exactly when the fields are equal |
| Leagues.LeaguePatternSelects | leagues/league.go:28 | the league Name updater accepts a league's Name path but not its ID path, and hands over the league's id |
| Leagues.Person.constructor | leagues/person.go:27-30 | a new person has every field empty |
| Leagues.League.constructor | leagues/league.go:37-40 | a new league has every field empty |
| Leagues.OtherField | leagues/person.go:33-38 | two different fields of one person live at different paths |
| Leagues.OtherLeagueField | leagues/league.go:42-44 | two different fields of one league live at different paths |
| Leagues.PersonNotLeague | leagues/person.go:33 | people and leagues (leagues/league.go:42) are published under different paths |
| Leagues.PublishedAfterWrite | leagues/person.go:65-97 | a write to another person's path leaves a person's published fields intact |
| Leagues.PersonAfterLeagueWrite | leagues/league.go:62-71 | a write to a league's path leaves every person's published fields intact |
| Leagues.LeaguePublishedAfterWrite | leagues/league.go:62-71 | a write to another league's path leaves a league's published fields intact |
| Leagues.LeagueAfterPersonWrite | leagues/person.go:65-97 | a write to a person's path leaves every league's published fields intact |
| Leagues.BlankWrites | leagues/person.go:40-44 | after blankPerson's five writes the ID path holds the id and every other field path the empty text |
| Leagues.AgreeJoin | leagues/person.go:46 | a person whose fields are all published joins a registry that already agrees with the store |
| Leagues.LeagueAgreeJoin | leagues/league.go:49 | a league whose fields are all published joins a registry that already agrees with the store |
| Leagues.Registry.constructor | leagues/league.go:23 | the registry starts with no people (leagues/person.go:24), no leagues and nothing published |
| Leagues.Registry.WritePerson | leagues/person.go:65-97 | a person setter changes exactly that field, publishes its text at that field's path and nothing else, and never fails |
| Leagues.Registry.SetPersonField | leagues/person.go:65-97 | a setter on a registered person keeps every record's fields agreeing with what is published |
| Leagues.Registry.BlankPerson | leagues/person.go:27-48 | a fresh person with the id and empty other fields replaces whatever was filed under the id; leagues are untouched |
| Leagues.Registry.WriteBlank | leagues/person.go:40-44 | blankPerson's writes leave the person's paths holding the id and empty texts |
| Leagues.Registry.NewPerson | leagues/person.go:51-59 | the new person holds exactly the given id, name, legal name, insurance number and number, filed under the id |
| Leagues.Registry.FindPerson | leagues/person.go:100-110 | the person under the key's first id is returned, an existing one unchanged and otherwise a blank one newly filed |
| Leagues.Registry.PersonUpdate | leagues/person.go:112-146 | the person under the key's first id, created if missing, holds the value in that field, which is published, and the result is nil |
| Leagues.Registry.WriteLeague | leagues/league.go:62-71 | a league setter changes exactly that field, publishes its text at that path and nothing else, and never fails |
| Leagues.Registry.SetLeagueField | leagues/league.go:62-71 | a setter on a registered league keeps every record agreeing with what is published |
| Leagues.Registry.BlankLeague | leagues/league.go:37-52 | a fresh league with the id and an empty name replaces whatever was filed under the id; people are untouched |
| Leagues.Registry.NewLeague | leagues/league.go:54-59 | the new league holds the id and name given; the other arguments are ignored |
| Leagues.Registry.FindLeague | leagues/league.go:74-84 | the league under the key's first id is returned, an existing one unchanged and otherwise a blank one newly filed |
| Leagues.Registry.LeagueUpdate | leagues/league.go:86-99 | the league under the key's first id, created if missing, holds the value in that field, which is published, and the result is nil |
| Leagues.InitializedRoutes | leagues/league.go:27-35 | after Initialize every person field has its own string pattern updater at priority 0 and the league Name updater has priority 1 |
| Leagues.InitializedKeepsOthers | leagues/league.go:27-35 | Initialize replaces no updater outside its six patterns |
| Leagues.PersonPatternNotLeague | leagues/league.go:28-34 | no person pattern is the league Name pattern |
| Leagues.PersonPatternsDiffer | leagues/league.go:30-34 | the five person patterns are pairwise different, so none overwrites another |
| Leagues.Initialize | leagues/league.go:27-35 | the registry of updaters becomes Initialized of the old one |
| Settings.WriteKeysDistinct | server/settings.go:39-43 | no two of initSettings' sixteen writes share a key |
| Settings.NamesDistinct | server/settings.go:27-36 | the eight default names are pairwise different |
| Settings.NotWritten | server/settings.go:39-43 | a key none of the first n writes uses is not among the settings they leave |
| Settings.FreshKey | server/settings.go:39-43 | each write goes to a key no earlier write used |
| Settings.WrittenByHolds | server/settings.go:39-43 | every write's text survives the later writes |
| Settings.WrittenBySize | server/settings.go:39-43 | the first n writes leave exactly n settings |
| Settings.DefaultsStored | server/settings.go:27-43 | every default name is stored with its default text under both "Settings.View." and "Settings.Preview.", sixteen settings in all |
| Settings.SettingsActionTrims | server/settings.go:16-22 | the setting is deleted exactly when the text sent is all space; otherwise what is stored is a piece of the text with no space at either end |
| Settings.SettingsActionStable | server/settings.go:16-22 | sending back the stored text stores the same text again |
| Settings.TrimLeftKeeps | server/settings.go:17 | trimming the left of a text that starts with a non-space leaves it unchanged |
| Settings.TrimRightKeeps | server/settings.go:17 | trimming the right of a text that ends with a non-space leaves it unchanged |
| Settings.SettingsUpdaterRoutes | server/settings.go:44 | the Settings updater catches "Settings" and exactly the keys below it, and passes the key and the raw text to setSettings |
| Settings.SetSettings | server/settings.go:16-23 | never fails; a non-blank text is stored trimmed under the key, adding only that key; a blank one clears every setting in the key's subtree; every other key keeps its value |
| Settings.WriteSetting | server/settings.go:41 | one write adds its key with its text to what the store reflects and adds no other key |
| Settings.StillReflects | server/settings.go:41 | what a single store write promises keeps the store reflecting the writes so far |
| Settings.InitSettings | server/settings.go:26-45 | afterwards the store holds every default under both views and no other new key, and the Settings updater is registered on top of the old updaters |
| Settings.WriteDefaults | server/settings.go:39-43 | the nested loops leave the store holding exactly the sixteen defaults on top of its old keys |
| Settings.WriteStep | server/settings.go:39-43 | the loops' (i, j) write is the (8i + j)-th write |
| Settings.Position | server/settings.go:39-40 | the (8i + j)-th write belongs to view i and default j |
| TimeFormat.PartsOf | html/javascript/time.js:19-30 | the seconds are below 60, the tenths below 10, and the sign is the time's |
| TimeFormat.PartsBound | html/javascript/time.js:25-30 | minutes, seconds and tenths add up to the magnitude less at most 99 ms |
| TimeFormat.DivDiv | html/javascript/time.js:27-30 | peeling seconds then minutes gives the whole minutes of the magnitude |
| TimeFormat.PartsUnique | html/javascript/time.js:25-30 | no other in-range minutes, seconds and tenths meet that bound, so the pieces are determined by the time |
| TimeFormat.TenthsUnique | html/javascript/time.js:25-30 | a count of tenths splits into minutes, seconds and tenths in one way only |
| TimeFormat.Padded | html/javascript/time.js:11-17 | the text grows to two characters with zeros in front and keeps the original at its end |
| TimeFormat.Zeros | html/javascript/time.js:14 | a run of n zeros |
| TimeFormat.ZerosStep | html/javascript/time.js:13-15 | one more zero in front is a run one longer |
| TimeFormat.ShortDropsTenths | html/javascript/time.js:32-35 | the short form is the long form without its "." and tenth |
| TimeFormat.NegativeIsSigned | html/javascript/time.js:20-24 | a negative time reads as its magnitude with a leading "-" |
| TimeFormat.SecondsTwoDigits | html/javascript/time.js:33-35 | the padded seconds are exactly two digits whose value is the seconds |
| TimeFormat.ReadHumanRoundTrip | html/javascript/time.js:19-35 | the long form always reads back as the sign, minutes, seconds and tenths it was made from |
| TimeFormat.SignSplit | html/javascript/time.js:20-24 | a leading "-" is read as the sign when the rest starts with a digit |
| TimeFormat.ReadBody | html/javascript/time.js:35 | minutes, ":", two digits, "." and one digit read back as those pieces |
| TimeFormat.ReadUnsignedAt | html/javascript/time.js:35 | a text whose first ":" is at a known place reads back as the pieces around it |
| TimeFormat.Pad | html/javascript/time.js:11-17 | the loop's result is the padded text |
| TimeFormat.TimeComputerToHuman | html/javascript/time.js:6-36 | the result is the formatted text of the time, long or short |
| TimeFormat.Peel | html/javascript/time.js:19-30 | the sign, minutes, seconds and tenths the loop-free arithmetic leaves are those of PartsOf, with ms the magnitude's milliseconds |
| JsonTimeFormat.TimeComputerToHuman | cmd/scoreboard/html/json/time.js:1-27 | the result is the long form of the other formatter for every input |
| Scoreboards.Scoreboard.RestartClocks | scoreboard/scoreboard.go:210-212 | one clock is reset, then exactly the listed clocks run |
| Scoreboards.Scoreboard.JamStarting | scoreboard/scoreboard.go:201-213 | the clocks and state become JamStarted of the old game: the intermission may end, the jam clock is reset with its number raised, and period and jam run |
| Scoreboards.Scoreboard.JamStopping | scoreboard/scoreboard.go:231-237 | the game enters lineup with the lineup clock reset and running beside the period, and a fresh jam numbered after the old one is appended and made active |
| Scoreboards.Scoreboard.JamOver | scoreboard/scoreboard.go:228-238 | the snapshot ends (revertible when the jam clock moved), lineup begins with a new jam, and a new snapshot starts |
| Scoreboards.Scoreboard.LineupBegins | scoreboard/scoreboard.go:230-237 | lineup begins with a new jam, then a new snapshot starts |
| Scoreboards.Scoreboard.ResetOwned | scoreboard/scoreboard.go:91-95 | the state is not-running, every clock is fully reset, the ticks are 0 and both teams take their starting counters; snapshots and jams are untouched |
| Scoreboards.Scoreboard.Clear | scoreboard/scoreboard.go:91-106 | besides ResetOwned, every old jam is deleted and the snapshot and jam lists are emptied |
| Scoreboards.Scoreboard.Restart | scoreboard/scoreboard.go:107-109 | an emptied scoreboard gets a first snapshot and a fresh first jam, numbered period 1 jam 1 with no previous jam |
| Scoreboards.Scoreboard.RestoreTeams | scoreboard/scoreboard.go:334-338 | team 1 takes its timeouts and reviews from the first snapshot team and team 2 from the other; rosters are untouched |
| Scoreboards.Scoreboard.GoBack | scoreboard/scoreboard.go:322-349 | when a jam is undone it is deleted and the one before becomes active, and the list is cut by `drop`; with fewer than two jams that panics and nothing changes; otherwise the game becomes the reverted one |
| Scoreboards.Scoreboard.Resume | scoreboard/scoreboard.go:339-347 | the ticks and state are written back, the last snapshot is dropped and the one before is un-ended and made active |
| Scoreboards.Scoreboard.RestoreFrom | scoreboard/scoreboard.go:328-338 | the clocks take the snapshot's running flags, end times and numbers, and the teams' counters are written back; rosters are untouched |

## Left out

- Concurrency is not modelled. This covers the global lock and its condition variable, the waiting in `flushListeners`, the per-listener channels and goroutines, the ticker goroutine, and the saver's trigger channel and save loop. One dispatcher wake, one listener flush or one ticker wake is a sequential method instead.
- File and network I/O are not modelled. The saver's file is not written or read: a save appends the copy to `saved`, and loading takes the file's contents as a parameter. The WebSocket transport, the HTTP server, the file watcher and the command line are not part of this model.
- The wall clock is a parameter. `time.Now` is passed in as a `Time`, and RFC 3339 (section 5.6) formatting and parsing are a `TimeCodec` value supplied by whoever builds a store.
- HolderStore.RenderParsesBack: assumes the time codec reads back what it renders. Go's `time.RFC3339` layout drops sub-second digits, so for times with a fraction of a second this does not hold. The same assumption is carried by `HolderStore.StoredReadsRendering` and `StateUpdater.UpdateRoundTrip`.
- Integers are unbounded. `int64` overflow in `adjust`'s `num + adjust`, in the tick count and in the state number is not modelled. Parsing still clamps to the `int64` range as `strconv.ParseInt` does.
- JavaScript numbers are restricted to integers in the time formatters, so fractional milliseconds and `NaN` are not modelled. The `console.log` call in cmd/scoreboard/html/json/time.js is dropped.
- Updater and command callbacks are code the model cannot see. A dispatch that reaches one returns the invocation: which callback, with which argument.
- SMUpdater.Registry.StateSetGroup: since callbacks are not run, every `StateSet` of a group is judged against the store as it was before the group. The source compares against the store as the group's earlier callbacks left it (statemanager/updater.go:42-45).
- Go's map iteration order is unspecified. Where it decides an outcome (which pattern updater is found, the order of a batch's keys, the order of `updatePositions`), the order is a parameter or the contract admits any order.
- Utils.BaseDir.Path: requires every path segment to be non-empty; the source panics on an empty one (utils/utils.go:19). `Utils.JoinPath` does not model `filepath.Clean`.
- Utils.ParseIDs: works on characters, where Go's `range` over a string gives byte offsets. The two agree on ASCII paths.
- Leagues.Registry: keeps one text map, `published`, for what people and leagues publish. The source writes a person's fields through the value-holder store (leagues/person.go:67) and a league's through the typed store (leagues/league.go:64,70).
- Settings.InitSettings: drops the `NewSaver` call that initSettings ends with (server/settings.go:46). The saver itself is modelled in `Saver`.
- The scoreboard's own store writes are not modelled. These are the `StateUpdate` publishes of the scoreboard, its snapshots, teams, skaters, jams and box trips, the `StateDelete` of a deleted jam or snapshot, and `setOutJamIdx`'s unconditional publish of nil. The model keeps the objects' fields, which those writes mirror.
- The registrations of updaters and commands by the clocks, the master clock and the scoreboard are not modelled (scoreboard/clock.go:44-49, scoreboard/master_clock.go:110-111, scoreboard/scoreboard.go:69-83). The operations they register are modelled.
- MasterClocks.MasterClock.SetRunningClocks: takes a sequence of `ClockId` values rather than clock names; every caller passes constants.
- Go panics are modelled as outcomes, not as aborts. Examples are a negative id in findJam, findBoxTrip or findStateSnapshot (`OutOfRange`), undo with fewer than two jams (`UndoPanics`), a snapshot update out of range (`Panics`), and a set of the wrong kind (`SMUpdater.SetWrongKindPanics`). Nothing after the panic is modelled.
- Scoreboards.Scoreboard.PadJamsAsWritten: does not state that the appended jams are fresh objects; the corrected `PadJams` does. The same holds for `Scoreboards.Scoreboard.FindJamAsWritten`.
- Teams.Team.WriteSkater: for a position write, states only that positions alone change and that the skater ends in the position exactly when `PositionRefusal` allows it. The full outcome is `Teams.Team.SetPosition`'s. The same holds for `Teams.Team.SkaterUpdate`.
- Teams.Team.UpdatePositions: states that the jammer and pivot ids name some holder of the position, not which one. The source takes the last one its map iteration meets.
- The browser UI, the DOM and socket parts of WS.js, and the controls and views are not part of this model.

## Findings

| source | as written | input that shows it | evidently intended | confidence | as-written member | corrected member |
|---|---|---|---|---|---|---|
| state/state_int64.go:34-41 | `SetFromString` stores the parse result only when parsing fails, and returns the error when it succeeds. state/state_bool.go:34-41 and state/state_time.go:34-41 have the same inverted test. | `"5"` sent to an int64 record stores nothing; `"x"` stores 0 and returns nil | store the parsed value and return nil; return the parse error and store nothing | high, not executed | HolderStore.ValueHolder.SetFromStringAsWritten | HolderStore.ValueHolder.SetFromString |
| state/state.go:67-72 | `State.Set` calls the holder's inverted `SetFromString`, so a record keeps its old value on good text. | int64 record, `Set("5")` | the value 5 stored and stamped | high, not executed | HolderStore.State.Set | HolderStore.State.SetCorrected |
| state/listener.go:129-139 | `UnregisterPaths` blanks a slot to a nil matcher. The next pattern search or flush that reaches the slot calls a method through nil. | `RegisterPaths(["a"])`, `UnregisterPaths(["a"])`, then any flush | skip or remove the blanked slot | high, not executed | ListenerCore.UnregisterLeavesNilSlot | ListenerCore.FirstMatch |
| state/listener.go:54-62 | `NewStringListener`'s converter sends "" for every record that has a value, and the value of records that have none. | a record holding "x" is delivered as "" | send the value when there is one | high, not executed | StateListeners.StringUpdatesAsWritten | StateListeners.StringUpdates |
| scoreboard/jam.go:141-143 | `setTeamPosition` stores a pivot's id in the jam's `jammer` field. | jammer "j" then pivot "p": the jam records jammer "p" and no pivot | store it in `pivot` | high, not executed | Jams.PivotRecordedAsJammerAsWritten | Jams.Jam.SetTeamPositionCorrected |
| scoreboard/scoreboard.go:334-338 | undo restores both teams' timeouts and reviews from the snapshot's first team. | team 1 with 3 timeouts and team 2 with 2; a revertible transition, then undo: team 2 gets 3 | restore each team from its own snapshot team | high, not executed | Scoreboards.Scoreboard.Revert | Scoreboards.Scoreboard.RevertCorrected |
| scoreboard/scoreboard.go:322-325 | undoing a jam makes the second-to-last jam active but cuts the list by two, so the active jam is no longer in the list. | in lineup after jam j0 stopped, jams are [j0, j1]; undo makes j0 active and leaves the list empty | cut the list by one | medium, not executed | Scoreboards.Scoreboard.Revert | Scoreboards.Scoreboard.RevertCorrected |
| scoreboard/jam.go:171-174 | findJam's padding appends `blankJam`'s result, and `blankJam` has already appended it, so each new jam is listed twice and the list outruns the ids. This holds with the gc compiler, which evaluates the call `blankJam(sb)` before it reads `sb.jams` for the append; the Go specification leaves that order unspecified, and with the opposite order each jam would be listed once. | one jam, key "Jam(2)": five jams, places 1 and 2 the same jam with idx 1, place 4 with idx 3 | one new jam per missing id, numbered by its place | medium (depends on gc's evaluation order), not executed | Scoreboards.FindJamAsWrittenMisnumbers | Scoreboards.Scoreboard.FindJam |
| scoreboard/box_trip.go:60-111 | newBoxTrip calls `setOutJamIdx(-1)`, and unlike `setInJamIdx` that leaves the field at its zero value 0 for an index outside the jams. | a trip started in any jam reads as having ended in the jam with idx 0 | record -1, as `setInJamIdx` does | medium, not executed | Skaters.NewTripEndsInFirstJamAsWritten | Skaters.OutJamIdxRecords |
| state/updater.go:143-153 | the grouped set appends a key's updater to the collected list once for every key that found it, then applies each collected updater to all its keys, so a pattern updater matched by n keys is called n² times. | a pattern updater matched by two keys of one batch: each key is applied twice | collect each updater once and apply every key once | high, not executed | StateUpdater.GroupRepeats | StateUpdater.Registry.StateSetGroupCorrected |
| scoreboard/scoreboard.go:322-326 | undo takes back a jam when the state is not Jam and the last snapshot's is Jam. That also holds after a timeout called during a jam or a jam stop that ended the period, which add no jam, so undo deletes the jam in progress. | a settled game in Jam, a timeout taken, then undo | take back a jam only when undo goes from Lineup back into Jam | medium, not executed | GameRules.TimeoutInJamAsWritten | Scoreboards.Scoreboard.RevertCorrected |
