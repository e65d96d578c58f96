# FAMEPy verification model

FAMEPy binds a one-shot native time-series library and moves data in and out of it: Python values and
nested workspaces become FAME objects and come back, commands are expanded before they run, and a FAME
database can be migrated into a DataEcon file that records every missing observation. This project models
that logic in Dafny and proves the properties its documentation and tests rely on. The native library and
the DataEcon file are environments: a calendar that may answer or fail, a set of options, calls that end
well, with a status or with an interrupt, and a store of objects by path that refuses to replace anything.

| component | files | main results |
|---|---|---|
| calendar conventions | `Calendar`, `Frequencies` | year/period numbering and its inverse, the periods each year has, the next period |
| text of name-lists | `NameLists` | the parser accepts exactly the grammar, printing and parsing invert each other |
| exact numbers | `ExactNumbers`, `DoubleBits` | an integer is accepted exactly when it is a binary64 value, and its stored bits denote it |
| values | `Carriers`, `Values`, `ValueTrips`, `Acceptance` | writing and reading give the documented normal form under every policy; exactly what is accepted, stored and read |
| INPUT expansion | `Command`, `Expansions`, `Includes` | termination, depth and size bounds, finality of the expansion, and exactly when it succeeds |
| workspaces | `Names`, `Flatten`, `Writing`, `Resolve`, `Wildcards`, `Placing`, `PlaceOrder`, `RoundTrip` | cycles, order, collisions, and rebuilding a workspace from its names |
| runtime and handles | `Runtime`, `Handles`, `Interrupts` | one initialization and one finalization per process; tracked handles are the open keys; which interrupts lead to a closed key |
| listing | `Selection`, `ListingRun` | the native narrowing refines the metadata filter; cleanup and failures on every path |
| migration layout | `Labels`, `DataEcon`, `Layout`, `Reader`, `LayoutTrips`, `Restoring`, `Strictness` | every stored object reads back; exactly what the strict reader accepts |
| migration runs | `Migrating`, `MigrationTrips`, `Conversions`, `PartialWrites`, `Planning`, `PlannedRuns`, `Protocol`, `MigrationRun` | whole migrations, plans without shared destinations, the claim and rename protocol |

Code that changes state is a class or a method with loops, proved against specification functions
(`Expand`, `Unfold`, `Step`, `Run`, `Convert`, ...); the lemmas are about those functions, over all inputs and
all runs. Errors are results, a raised exception that ends an operation is a constructor of an error type,
and a native failure is an outcome chosen by the environment. `dafny verify dfyconfig.toml` checks everything.

Where the code does not keep what one would expect of it, the model follows the code, gives a concrete
input, and proves exactly when the property holds:

* A listing without native narrowing can stop at a name too long for the buffer that the narrowed one never
  sees (`Selection.DiffersOnLongNames`, `Selection.LongNameExample`).
* The first failure of a listing is lost exactly when a later cleanup call fails in a way its handler does not
  contain, and every reset is attempted exactly when none but the last fails so, although the docstring of
  `listdb` promises both without condition (`ListingRun.FirstLostIff`, `ListingRun.EveryResetIff`,
  `ListingRun.CleanupPromiseIff`, `ListingRun.InterruptedReset`).
* The strict reader looks for undeclared masks only beside nonempty series; a mask beside a scalar, a
  name-list or an empty series is accepted (`Restoring.UndeclaredMask`, `Restoring.StrayMaskExample`).
* An empty date series of unknown first date is accepted under any value label and can be stored again
  exactly if the label names a frequency (`Restoring.AcceptedRestores`, `Restoring.UnknownLabelExample`).
* A workspace whose keys are free of the glue need not survive flattening: names are upper-cased, and a key
  can then run past a branch beside it. It survives exactly when no name runs past a branch that is matched
  before its own (`RoundTrip.WorkspaceRebuiltIff`); a glue character serves all such workspaces exactly when
  it is no upper-case letter (`RoundTrip.GlueServesIff`, `RoundTrip.GlueInOtherCaseMisleads`).
* An exception that is no library status can make the session name a closed key: exactly those that fall
  between a successful close and its bookkeeping, or in a finalization that has already closed a key
  (`Interrupts.InterruptedRunIff`, `Interrupts.MisusedIff`, `Interrupts.InterruptRepeatsClose`).
* The library has a key open that the session cannot reach exactly when such an exception fell between the
  opening of a key unknown to the session and its registration (`Interrupts.KeyLostIff`,
  `Interrupts.HarmlessKeyLostIff`, `Interrupts.LostKeyExample`).
* If the library grants a second work database, such an exception lets two be open at once exactly if it falls
  between registering the first one and remembering it (`Interrupts.SecondWorkIff`,
  `Interrupts.SecondWorkExample`).
* An object whose storing fails part way does not read back, with one exception: a missing number, Boolean or text
  whose category could not be set is left readable as a normal value, because its kind is set before
  (`PartialWrites.FailedObjectsReadIff`, `PartialWrites.ScalarPartlyIff`).
* A migration run that is interrupted between creating its claim and entering the guarded block, or while
  releasing, leaves an empty destination that every later run refuses, although the docstring of `migrate`
  says that a stopped run releases its claim (`Protocol.LeftBehindIff`, `Protocol.NoClaimLeftBehind`,
  `Protocol.ClaimLeaks`).

## Model

| member | source | states |
|---|---|---|
| Calendar.YearBoundary | src/famepy/bridge/_frequencies.py:199-212 | 31 December is the day before the next 1 January, and a year is 365 or 366 days long |
| Calendar.CountIsBusinessNumber | src/famepy/bridge/_frequencies.py:205-208 | the difference of two business-day numbers is the number of weekdays between the dates |
| Calendar.YearUnique | src/famepy/bridge/_frequencies.py:211-233 | a day lies in exactly one year |
| Frequencies.WeekOfContains | src/famepy/bridge/_frequencies.py:272-278 | the week made from a day contains it and ends on the requested weekday |
| Frequencies.BusinessDayInverse | src/famepy/bridge/_frequencies.py:263-271 | a business moment and its date determine each other |
| Frequencies.BusinessYear | src/famepy/bridge/_frequencies.py:199-208 | the business-day count of a year, computed from its first and last business day, is its number of weekdays, and at least one |
| Frequencies.PeriodsInvert | src/famepy/bridge/_frequencies.py:215-282 | the year and period of a moment lead back to that moment, and only for the moment itself, at every calendar frequency |
| Frequencies.AcceptedPeriods | src/famepy/bridge/_frequencies.py:240-282 | the accepted periods of a year are exactly 1..N: weekdays for business, 53 weeks exactly when a week ends on day 365 or 366, otherwise 52 |
| Frequencies.NextPeriod | src/famepy/bridge/_frequencies.py:215-282 | the moment after (y, p) is (y, p+1) or (y+1, 1), and which one follows from the number of periods |
| Frequencies.UnitHasNoPeriod | src/famepy/bridge/_frequencies.py:223-224 | a case moment has no year and period |
| Frequencies.IndexRoundTrip | src/famepy/bridge/_frequencies.py:299-342 | a moment survives the trip through its library index, whatever numbering a consistent library uses |
| NameLists.NamelistMembers | src/famepy/_data.py:84-109 | the parsing loop returns the members of the text, or refuses it |
| NameLists.ParserIsGrammar | src/famepy/_data.py:84-109 | a text yields a member list exactly when it is braces around those members, padded by blanks and separated by commas |
| NameLists.PrintParses | src/famepy/bridge/_values.py:190-192 | the printed text of valid members parses back to them, in order |
| NameLists.AcceptedTextNormalizes | src/famepy/bridge/_values.py:167-195 | every accepted text determines one list, whose printed form parses back to it |
| NameLists.UpperPrintParses | src/famepy/bridge/_values.py:493-495 | the upper-cased text a write stores reads back as the upper-cased members |
| ExactNumbers.ExactFloat64 | src/famepy/bridge/_values.py:312-324 | an integer array is converted exactly when every element is a binary64 value, and then unchanged |
| ExactNumbers.RoundTripIsRepresentable | src/famepy/bridge/_values.py:345-358 | rounding to nearest even changes nothing exactly for 53-bit significands times a power of two below the overflow limit |
| ExactNumbers.ArrayElement | src/famepy/bridge/_values.py:312-324 | the range check and the conversion back accept exactly the representable elements, at both signednesses and at the edges 2^63 and 2^64 |
| ExactNumbers.ScalarAccepted | src/famepy/bridge/_values.py:345-358 | an integer scalar of any size is accepted exactly when it is a binary64 value, and stored unchanged |
| ExactNumbers.EdgesRefused | src/famepy/bridge/_values.py:315-318 | the largest signed and unsigned 64-bit integers are refused, the powers of two beside them accepted |
| DoubleBits.EncodeDenotes | src/famepy/bridge/_values.py:312-324 | the stored bit pattern of an accepted integer denotes exactly that integer and is no NaN |
| Carriers.ClassifyBySentinel | src/famepy/_data.py:306-341 | three overwriting passes give each element the code of its sentinel; strings take the first match |
| Carriers.CodeNamesSentinel | src/famepy/_data.py:306-355 | with distinct sentinels a code is given exactly to the sentinel it names, and normal to everything else |
| Values.ToFameInSteps | src/famepy/bridge/_values.py:458-554 | the stepwise conversion with its in-place marking agrees with the specification of `to_fame` |
| Values.ConvertInSteps | src/famepy/bridge/_values.py:533-554 | buffers marked in place and index buffers filled one by one give the specified carrier or the first error |
| Values.MarkInPlace | src/famepy/bridge/_values.py:533-538 | exactly the NaN observations of the owned buffer become the NC sentinel |
| Values.IndexDates | src/famepy/bridge/_values.py:544-549 | the index buffer holds each moment's index and NC for None; the first failing conversion is the error |
| Values.MomentsOf | src/famepy/bridge/_values.py:708-714 | the moment list has None at missing positions and the converted moment elsewhere, or the first error |
| Values.TextsOf | src/famepy/bridge/_values.py:715-718 | the text list has None at missing positions and the decoded text elsewhere, or the first error |
| Values.ObservationsOf | src/famepy/bridge/_values.py:699-718 | classification, in-place blanking and the collecting loops agree with the specified series |
| Values.AsciiIsStrict | src/famepy/_text.py:70-120 | the ASCII codec decodes what it encoded |
| ValueTrips.RoundTrip | src/famepy/bridge/_values.py:458-718 | for every accepted value without sentinel encodings, every missing, empty and text policy, reading what was written gives the documented normal form or its documented refusal |
| ValueTrips.ScalarTrip | src/famepy/bridge/_values.py:476-496 | the scalar cases: NaN as missing, exact integers as floats, name-lists upper-cased, text through its codec |
| ValueTrips.BufferTrip | src/famepy/bridge/_values.py:533-540 | numeric and Boolean series keep every normal value bit for bit |
| ValueTrips.DateTrip | src/famepy/bridge/_values.py:541-549 | date series keep their moments, with None exactly where None was written |
| ValueTrips.TextTrip | src/famepy/bridge/_values.py:550-554 | string series read back as the decoding of what was encoded, with None exactly where None was written |
| ValueTrips.EmptyTrip | src/famepy/bridge/_values.py:503-532 | an empty series reads back empty: with its own first date under the reference policy, only with a supplied one otherwise |
| ValueTrips.MissingInPlace | src/famepy/bridge/_values.py:672-718 | under every policy a series that reads back keeps kind, first date and length and is missing exactly where NaN or None was written, unless it is the one read as empty, which keeps kind and first date |
| ValueTrips.OnlyOneMissingIsEmpty | src/famepy/bridge/_values.py:694-695 | under every missing policy a nonempty series is identified with an empty one exactly under the reference policy, when it is a single missing observation and no string |
| Acceptance.ToFameAcceptsIff | src/famepy/bridge/_values.py:382-554 | a value is accepted exactly when its integers are binary64 values, its texts encode without NUL, its list text parses, its dates have 64-bit indices and its observations fit behind its first date |
| Acceptance.ToFameStores | src/famepy/bridge/_values.py:533-554 | what is stored of a series is its kind, its frequencies, its first index and its length, NC at exactly the missing positions, and the exact native encoding at the others |
| Acceptance.EmptyStored | src/famepy/bridge/_values.py:503-532 | an empty series is stored as one NA observation at its date under the reference policy, strings excepted, otherwise without observations at the NC index |
| Acceptance.ScalarStored | src/famepy/bridge/_values.py:476-496 | a scalar is stored as its exact encoding, a NaN as NC, list text as its members upper-cased |
| Acceptance.CleanIff | src/famepy/bridge/_values.py:533-554 | the hypothesis of the round trip holds exactly when no observation that is not missing is stored as a sentinel |
| Acceptance.SeriesReadsIff | src/famepy/bridge/_values.py:672-718 | a series is read exactly when its frequencies are supported, its first index is a date, and it stands for an empty one or its sentinels are allowed and everything else decodes; the missing-value refusal is exact |
| Acceptance.SeriesShows | src/famepy/bridge/_values.py:672-718 | what is read has the kind, first date and length of the carrier, NaN or None at exactly the sentinels, and the exact value everywhere else |
| Acceptance.EmptyReadsIff | src/famepy/bridge/_values.py:685-690 | a carrier without observations is read exactly when a first date of its frequency is supplied |
| Acceptance.ScalarReadsIff | src/famepy/bridge/_values.py:609-658 | a scalar is read exactly when its frequency is supported and it is an allowed sentinel or decodes; the missing-value refusal is exact |
| Acceptance.ScalarShows | src/famepy/bridge/_values.py:633-658 | a scalar that is read is the exact value of its kind, and a sentinel the canonical NaN or nothing |
| Command.ExpandInput | src/famepy/_command.py:121-143 | one pass over the bytes with a shared byte budget computes the specified expansion and total, or the first error |
| Command.ExpandStatement | src/famepy/_command.py:87-119 | one INPUT statement passes its checks in order and is replaced by its expanded file between newlines |
| Expansions.ChainsAreShortAndDistinct | src/famepy/_command.py:101-104 | in a successful expansion no chain of nested includes repeats a file or exceeds the depth limit |
| Expansions.SizeBound | src/famepy/_command.py:111-119 | the result is no longer than the command plus the bytes of the included files, which is what the budget counts |
| Expansions.WithinBudget | src/famepy/_command.py:111-113 | once anything is included the total respects the byte limit |
| Expansions.ExpansionIsBounded | src/famepy/_command.py:60-76 | from a fresh budget the result is at most the command plus the byte limit, or the command itself |
| Expansions.PartsAlign | src/famepy/_command.py:121-143 | every statement that is no INPUT survives verbatim with its delimiter and in order; every INPUT becomes its file |
| Expansions.FlatIsScanned | src/famepy/_command.py:121-143 | with balanced quotes in what was included a scan of the expansion finds exactly the kept statements and those of the files, none of them INPUT |
| Expansions.ExpansionIsFinal | src/famepy/_command.py:33-143 | if the command and every file it includes are quote-balanced, the expansion is balanced, has no INPUT statement, and expanding it again, with any files, changes nothing |
| Includes.ExpandsIff | src/famepy/_command.py:87-119 | an expansion succeeds exactly when every INPUT statement of its include tree names a regular file without NUL bytes that it does not stand in, within the depth and the byte limit |
| Includes.ExpandFailsIff | src/famepy/_command.py:87-119 | the error is the first requirement that the first failing statement, in reading order, misses |
| Includes.CycleIff | src/famepy/_command.py:99-102 | a cycle is answered exactly when the first failing statement names a file it stands in |
| Includes.BodyIsNormalized | src/famepy/_command.py:119-119 | an included file contributes its bytes with every line ending as one newline and the last one dropped |
| Includes.BodyHasNoReturn | src/famepy/_command.py:119-119 | no carriage return of an included file survives |
| Includes.QuotesHideDelimiters | src/famepy/_command.py:121-143 | a statement does not end inside a closed quotation |
| Includes.InputIff | src/famepy/_command.py:33-37 | an INPUT statement is exactly optional blanks, the word in any case and a blank, with no newline anywhere |
| Flatten.Flattening.FlattenInto | src/famepy/bridge/_workspace.py:558-578 | the recursion appends the leaves of the unfolded container or reports a cycle, and restores the stack either way |
| Flatten.CycleReported | src/famepy/bridge/_workspace.py:558-578 | a cycle is reported exactly when some walk from the container meets a container twice |
| Flatten.EveryLeafOnceInOrder | src/famepy/bridge/_workspace.py:565-576 | the result lists every root-to-leaf path exactly once, in order, shared containers included |
| Flatten.ValuesOnceInOrder | src/famepy/bridge/_workspace.py:558-578 | flattening lists exactly the values the containers hold along every path of positions, each once and in order, under the keys joined on the way |
| Writing.FlattenAll | src/famepy/bridge/_workspace.py:542-547 | the containers are flattened one after the other, or a cycle is reported |
| Writing.RootsInTurn | src/famepy/bridge/_workspace.py:542-547 | the names of several containers are those of each, one after the other, and one that contains itself refuses all |
| Writing.FlattenNames | src/famepy/bridge/_workspace.py:525-555 | a list is accepted exactly when it has no cycle, valid names, and no two names equal up to case |
| Writing.Database.WriteRaw | src/famepy/_data.py:668-681 | one write creates or replaces one object; a failing one leaves everything, has lost the old object, or leaves the new one partly filled |
| Writing.Database.WriteFame | src/famepy/bridge/_workspace.py:650-719 | a strict write stops at the first failure, a report attempts every object and lists what succeeded |
| Writing.WritesKeepEarlier | src/famepy/bridge/_workspace.py:653-662 | no write of a call deletes or changes an object an earlier write of the same call made |
| Writing.WritesKeepOthers | src/famepy/bridge/_workspace.py:653-662 | objects under other names are untouched, whatever fails |
| Writing.OneWrite | src/famepy/_data.py:668-681 | a write succeeds exactly when the library does and it may replace or nothing is in the way; what is in the way of one that may not replace stays |
| Writing.WroteIff | src/famepy/bridge/_workspace.py:650-719 | a write of a call succeeds exactly when the library does and, unless it may replace, no object had its name before the call |
| Writing.WithoutReplacing | src/famepy/bridge/_workspace.py:650-719 | a call that may not replace leaves every object that was there |
| Writing.CollisionLosesObject | src/famepy/bridge/_workspace.py:547-555 | without the collision check a replacing write would lose the first of two names that differ in case |
| Resolve.FindDestination | src/famepy/bridge/_workspace.py:212-256 | the loops over the collect entries compute the specified key path |
| Resolve.ResolveNames | src/famepy/bridge/_workspace.py:304-323 | a list is resolved exactly when every name has a path and no path equals or leads through another |
| Wildcards.WildcardTakesIff | src/famepy/bridge/_workspace.py:240-252 | a wildcard entry takes exactly the names with a part before their first glue and something after it; the key is what `namecase` makes of that part |
| Wildcards.WildcardRefusesIff | src/famepy/bridge/_workspace.py:205-242 | it refuses exactly those whose first part `namecase` gives no key, and passes exactly those without a first part or with nothing after it |
| Wildcards.NamedTakesIff | src/famepy/bridge/_workspace.py:244-252 | any other entry takes its upper-cased name and glue off a longer name, and is the key |
| Wildcards.FirstMatchDecides | src/famepy/bridge/_workspace.py:239-254 | the first entry that takes or refuses the name decides |
| Wildcards.PathTakesApart | src/famepy/bridge/_workspace.py:229-256 | every key path takes its name apart at upper-cased glues into the parts its keys come from |
| Wildcards.GlueNeededIff | src/famepy/bridge/_workspace.py:233-234 | a missing glue is refused exactly for a specification with entries |
| Wildcards.PrefixTakenIff | src/famepy/bridge/_workspace.py:229-232 | the prefix with its glue is taken off exactly the names that start with it |
| Placing.Workspace.Place | src/famepy/bridge/_workspace.py:326-334 | placing in the mutable workspace has exactly the effect of the specified placement; a path that leads through a value is refused and changes nothing |
| Placing.Workspace.Child | src/famepy/bridge/_workspace.py:329-333 | the workspace under a key is the existing one, or a new one when the key is absent or None |
| PlaceOrder.PlacedLookup | src/famepy/bridge/_workspace.py:326-334 | on a path nothing else uses, the descent meets no value and placing changes that path alone |
| PlaceOrder.PlacedRefusedIff | src/famepy/bridge/_workspace.py:329-334 | a path is refused exactly when a value that is not None is stored at one of its proper prefixes |
| PlaceOrder.PlacedElsewhere | src/famepy/bridge/_workspace.py:326-334 | placing stores the value at its path and changes no path that is neither prefix nor extension of it |
| PlaceOrder.PlaceAllHolds | src/famepy/bridge/_workspace.py:304-334 | placing resolved values overwrites nothing and every path looks up exactly its value, None included |
| PlaceOrder.SameLookups | src/famepy/bridge/_workspace.py:326-334 | workspaces without empty parts are equal when they hold the same values at the same paths |
| PlaceOrder.AnyOrder | src/famepy/bridge/_workspace.py:304-334 | the order in which values are placed does not matter |
| RoundTrip.NamesAreJoinedKeys | src/famepy/bridge/_workspace.py:566-574 | a flattened name is the joined key path of its leaf |
| RoundTrip.NamesLeadBackIff | src/famepy/bridge/_workspace.py:159-256 | with the branch names as collect entries every upper-cased leaf name is read as its own key path exactly when no name runs past a branch beside it that would be matched first |
| RoundTrip.LeavesApart | src/famepy/bridge/_workspace.py:304-323 | the key paths of a workspace's leaves never get in each other's way |
| RoundTrip.AsMembersHold | src/famepy/bridge/_workspace.py:326-334 | a workspace holds exactly its leaves at their key paths |
| RoundTrip.ReadingJoins | src/famepy/bridge/_workspace.py:212-256 | whatever key path a name is read as, joining its keys gives the name back |
| RoundTrip.WorkspaceRebuiltIff | src/famepy/bridge/_workspace.py:159-578 | for every glue and prefix, flattening a workspace of lower-case keys without empty parts and placing the resolved values in any order rebuilds it exactly when no name runs past a branch that would be matched first |
| RoundTrip.WorkspaceRebuilt | src/famepy/bridge/_workspace.py:159-578 | keys free of a glue that is no upper-case letter always survive, with any prefix |
| RoundTrip.GlueServesIff | src/famepy/bridge/_workspace.py:249-251 | a glue character serves every workspace of keys free of it exactly when it is no upper-case letter |
| RoundTrip.GlueInOtherCaseMisleads | src/famepy/bridge/_workspace.py:249-251 | with glue "X" the key "axb" beside a branch "a" is read as the key "b" inside it |
| Runtime.Process.Initialize | src/famepy/_runtime.py:259-300 | every refusal precedes any native call, and the whole effect is the specified transition |
| Runtime.Process.Consume | src/famepy/_runtime.py:288-300 | once ownership is taken the session ends initialized, failed, or torn down |
| Runtime.Process.Teardown | src/famepy/_runtime.py:302-320 | one finalization is attempted and its outcome is the final state |
| Runtime.Process.Finalize | src/famepy/_runtime.py:328-362 | every tracked database is closed, then the library is finalized once; an interrupted close stops before that |
| Runtime.Process.Operation | src/famepy/_runtime.py:374-393 | a data call is made only by an initialized session |
| Runtime.Process.DefaultSession | src/famepy/_runtime.py:471-497 | a library can be chosen only while none is loaded and none was used |
| Runtime.Process.InitChli | src/famepy/_runtime.py:500-526 | the process initializes only through its default session, and never twice |
| Runtime.Process.CloseChli | src/famepy/_runtime.py:542-550 | whatever the process initialized is finalized |
| Runtime.StepKeeps | src/famepy/_runtime.py:161-550 | every operation of any session, whatever the library answers, keeps the process consistent and only moves forward |
| Runtime.RunKeeps | src/famepy/_runtime.py:161-550 | consistency holds after every run of any number of sessions |
| Runtime.OneShot | src/famepy/_runtime.py:259-362 | over every run there is at most one `cfmini` and one `cfmfin`, and data calls only between a successful one and the other |
| Runtime.RunsMoveForward | src/famepy/_runtime.py:57-57 | terminal states are never left, the owner never changes once set, and made calls stay made |
| Runtime.InitAnswer | src/famepy/_runtime.py:259-300 | an initialization answers true exactly when the session is then initialized: it was before, or no refusal applied and both native steps succeeded |
| Runtime.InitCalls | src/famepy/_runtime.py:259-320 | a refused or repeated one makes no native call; otherwise the calls are `cfmini`, the sentinels if that succeeded, and `cfmfin` exactly if these failed, and they decide the phase |
| Runtime.FinalizeAnswer | src/famepy/_runtime.py:328-362 | a finalization answers false exactly when a close is interrupted, which leaves the session initialized, or `cfmfin` fails, which breaks it; otherwise it closes everything in order and finalizes last |
| Runtime.OperateAnswer | src/famepy/_runtime.py:374-393 | a data call reaches the library exactly on an initialized session, and is answered as the library does |
| Runtime.ChooseAnswer | src/famepy/_runtime.py:471-497 | the default stays unless a library is named; a new one needs a library that is found, no finished owner and no loaded default; a refusal changes nothing |
| Runtime.InitDefaultAnswer | src/famepy/_runtime.py:500-526 | `init_chli` answers true exactly when the default session is then initialized, unless it was before and a library was named |
| Runtime.CloseAnswer | src/famepy/_runtime.py:542-550 | `close_chli` fails exactly as the owner's finalization does, and after a success no session is initialized |
| Handles.StepKeeps | src/famepy/_database.py:99-202 | every step of every thread keeps handles, tracking table, work handle and open keys in agreement, with failures as statuses |
| Handles.RunKeeps | src/famepy/_database.py:99-202 | the agreement holds in every interleaving |
| Handles.TrackedAreOpen | src/famepy/_database.py:149-202 | between operations the tracked handles are exactly the open keys, and at most one work database is open |
| Handles.NothingAfterwards | src/famepy/_runtime.py:341-350 | after finalization no handle is usable and nothing is tracked |
| Handles.FailedCloseStaysTracked | src/famepy/_database.py:183-201 | a refused close leaves the handle open, tracked, and its key open |
| Interrupts.NoClosedKey | src/famepy/_database.py:99-105 | no native call names a key that is closed, or follows the finalization, in any run whose interrupts do not fall between a successful close and the session's forgetting the key |
| Interrupts.MisusedIff | src/famepy/_database.py:99-202 | after any run with any interrupts, a native call on a closed key can follow exactly when the finalization under way has a closed key to close, or the session trusts a closed key or one key through two handles |
| Interrupts.InterruptedRunIff | src/famepy/_database.py:199-201 | an interrupt makes such a call possible exactly if it falls between a successful close and its bookkeeping, or in a finalization that has closed a key |
| Interrupts.KeyLostIff | src/famepy/_database.py:149-152 | after any run with any interrupts, while the session runs, the library has a key open that the session cannot reach exactly when some interrupt fell between an opening and its registration, of a key the session did not know otherwise |
| Interrupts.HarmlessKeyLostIff | src/famepy/_database.py:149-152 | as long as no interrupt makes the session trust a closed key, a key is lost exactly when some interrupt fell between an opening and its registration |
| Interrupts.LostKeyExample | src/famepy/_database.py:149-152 | an interrupt right after the native open loses the key |
| Interrupts.SecondWorkIff | src/famepy/_database.py:161-169 | when the library grants every open, an interrupt lets two work databases be open at once exactly if it falls between registering one and remembering it |
| Interrupts.SecondWorkExample | src/famepy/_database.py:161-169 | a run with an interrupt before the work database is remembered opens a second one |
| Interrupts.InterruptRepeatsClose | src/famepy/_runtime.py:342-347 | with two databases, an interrupt in the second close of a finalization lets the next finalization close the first key again |
| Handles.Session.OpenDb | src/famepy/_database.py:149-152 | a handle is returned exactly when the session runs and the library opens; it is the new one, open and tracked under the new key, and every other handle is as before |
| Handles.Session.WorkDb | src/famepy/_database.py:155-169 | an open work handle is returned itself; otherwise the new one is, exactly when the library opens, and remembered |
| Handles.Session.CloseDb | src/famepy/_database.py:180-202 | an accepted close closes and forgets exactly this handle and key; a refused one changes nothing, and closing twice is harmless |
| Handles.Session.UseDb | src/famepy/_database.py:99-105 | a call is admitted exactly on an open handle of a running session |
| Handles.FinalizeEnds | src/famepy/_runtime.py:328-362 | an uninterrupted finalization ends with no handle usable, nothing tracked and the lock free; the keys still open are none if the library finalized, else those whose close failed |
| Selection.FrequencyFilter | src/famepy/_wildcard.py:92-113 | an empty request is no filter, one unknown value refuses all, otherwise the codes are exactly those requested |
| Selection.PriorStateIrrelevant | src/famepy/_wildcard.py:209-217 | what the library selects after the options are set depends only on the filters, not on the options before |
| Selection.NarrowingIsSafe | src/famepy/_wildcard.py:116-134 | narrowing only removes objects, and never one whose frequency was requested |
| Selection.NarrowedIsFiltered | src/famepy/_wildcard.py:221-243 | when the un-narrowed listing succeeds, the narrowed one returns exactly its objects with a requested frequency |
| Selection.ListingHoldsMatches | src/famepy/_wildcard.py:204-243 | a successful narrowed listing holds exactly the objects, in order, that have a requested class, type and frequency |
| Selection.FailsAtFirstLongName | src/famepy/_wildcard.py:225-230 | a listing that fails reports the length of the first selected name that does not fit |
| Selection.NarrowingKeeps | src/famepy/_wildcard.py:116-134 | beside scalars, narrowing keeps exactly the series of a requested frequency family when every requested code has one, exactly the case series for the case code alone, and everything otherwise |
| Selection.SucceedsWhenNamesFit | src/famepy/_wildcard.py:225-230 | a listing succeeds exactly when every selected name fits the buffer |
| Selection.DiffersOnLongNames | src/famepy/_wildcard.py:225-243 | one of the two listings fails alone exactly when names too long for the buffer are only among the objects narrowed away |
| Selection.LongNameExample | src/famepy/_wildcard.py:225-230 | a long-named monthly series stops the un-narrowed listing and not the one for daily series |
| ListingRun.Library.ListObjects | src/famepy/_wildcard.py:204-264 | on every path the cursor is freed if it was opened, the resets follow in order, the propagating failure is the specified one, and a success is the specified listing with every option back at ON |
| ListingRun.Library.ListDb | src/famepy/_wildcard.py:148-265 | a listing that returns holds exactly the objects of a requested class, type and frequency, in the library's order; a library that answers every call lists whenever the selected names fit |
| ListingRun.Library.ListBody | src/famepy/_wildcard.py:208-243 | options, cursor and entries stop at the first failed call; the cursor is held exactly when it was opened |
| ListingRun.Library.ChooseItem | src/famepy/_wildcard.py:210-217 | an option is set to exactly the chosen words, or the first refused call ends it |
| ListingRun.Library.ReadCursor | src/famepy/_wildcard.py:219-243 | the cursor loop returns the requested entries, scalars re-queried, or stops at the first failure |
| ListingRun.Library.NormalizeOptions | src/famepy/_wildcard.py:137-145 | every reset is attempted after statuses, only a failure that is no status ends the loop, and without failures every option is ON without selections |
| ListingRun.WalkIsListing | src/famepy/_wildcard.py:221-243 | walking the cursor of the selected objects gives the specified listing |
| ListingRun.EveryResetIff | src/famepy/_wildcard.py:137-145 | every reset is attempted exactly when none but the last fails without a status, whatever happens to the release of the cursor |
| ListingRun.CleanupPromiseIff | src/famepy/_wildcard.py:244-263 | the whole cleanup is attempted and the first failure propagates exactly when no reset before the last fails without a status and no cleanup call overrides an earlier failure |
| ListingRun.FirstLostIff | src/famepy/_wildcard.py:249-263 | the first failure is replaced exactly when a later cleanup call is interrupted, or a later reset fails without a status |
| ListingRun.InterruptedReset | src/famepy/_wildcard.py:137-145 | an interrupted second reset skips three resets and replaces the first failure |
| Labels.LabelNames | src/famepy/migration/_layout.py:110-118 | every supported frequency is found again from its label |
| Labels.DecimalParses | src/famepy/migration/_layout.py:496-500 | a first date or count written as decimal text reads back as the number |
| DataEcon.RunLeavesOthers | src/famepy/migration/_layout.py:247-259 | writer calls, however far they got, leave every other path as it was |
| DataEcon.File.SetAttributes | src/famepy/migration/_layout.py:247-250 | attributes are set one by one until a call fails |
| Layout.WriteScalar | src/famepy/migration/_layout.py:262-296 | the calls made for a scalar are the specified ones, up to a refusal or failure |
| Layout.WriteSeries | src/famepy/migration/_layout.py:299-364 | object, mask and attributes are written in this order, up to a refusal or failure |
| Layout.WriteEmptySeries | src/famepy/migration/_layout.py:367-410 | the calls made for an empty series are the specified ones, up to a refusal or failure |
| Layout.PlaceInPlace | src/famepy/migration/_layout.py:331-339 | exactly the missing positions of the buffer are overwritten by the placeholder |
| Layout.StoredForm | src/famepy/migration/_layout.py:331-356 | the stored form has the placeholder at every missing position and the value elsewhere |
| LayoutTrips.PathsApart | src/famepy/migration/_layout.py:100-107 | the object and the mask of one name are four different paths from those of another |
| LayoutTrips.ReadLocal | src/famepy/migration/_layout.py:735-775 | a description depends only on the catalog's attributes, the object and its mask |
| LayoutTrips.ScalarReads | src/famepy/migration/_layout.py:516-565 | a stored scalar reads back as its value, or as its missing category and no value |
| LayoutTrips.SeriesReads | src/famepy/migration/_layout.py:646-732 | a stored series reads back with first date, labels, values and categories; without a mask it loses only the categories |
| LayoutTrips.EmptyReads | src/famepy/migration/_layout.py:568-643 | an empty series reads back empty with its labels, and with a first date only if one was given |
| Restoring.AcceptedIsConsistent | src/famepy/migration/_layout.py:425-775 | anything accepted is consistent: labels match carriers, a declared mask starts with the object, has its length and marks a position, series have no undeclared mask, missing positions hold placeholders, the carrier is what is stored, and an empty one has the stored first date exactly when its mode declares one |
| Restoring.UndeclaredMask | src/famepy/migration/_layout.py:478-493 | adding a mask nothing declares makes the reader refuse exactly the nonempty series |
| Restoring.StrayMaskExample | src/famepy/migration/_layout.py:516-565 | a number with a stray mask beside it is accepted |
| Restoring.AcceptedRestores | src/famepy/migration/_layout.py:262-410 | an accepted object can be stored again exactly when its value label names a frequency, and then has the same description, NaN payloads at missing positions aside |
| Restoring.UnknownLabelExample | src/famepy/migration/_layout.py:616-643 | an empty date series is accepted under a value label that names nothing, and cannot be stored again |
| Strictness.ReadsIff | src/famepy/migration/_layout.py:425-775 | the reader accepts exactly the objects of a sound catalog whose attributes are those of their form, no more and no fewer, and whose stored data agree with them |
| Strictness.CatalogSoundIff | src/famepy/migration/_layout.py:425-458 | a catalog passes exactly with the layout version, a known status and counts that are digits, complete once the run is over, and consistent with the status |
| Strictness.MaskSoundIff | src/famepy/migration/_layout.py:461-493 | a mask is accepted exactly when it is declared, starts and ends with its series, holds categories and marks a position, or is neither declared nor there |
| Strictness.ScalarShows | src/famepy/migration/_layout.py:516-565 | an accepted scalar has the category its attribute names, and a value exactly when it names none |
| Migrating.Store | src/famepy/migration/_migrate.py:571-613 | a converted object is stored by the writer of its form, under the loss policy |
| Migrating.ConvertBooleans | src/famepy/migration/_migrate.py:547-551 | the owned copy has False at missing positions and the raw codes elsewhere |
| MigrationTrips.ScalarIsExpected | src/famepy/migration/__init__.py:181-203 | a converted scalar is the one the independent description gives, category or value |
| MigrationTrips.SeriesIsExpected | src/famepy/migration/__init__.py:129-180 | a converted series, stored, is the one the independent description gives |
| MigrationTrips.EmptyIsExpected | src/famepy/migration/__init__.py:115-128 | a converted empty series is the one the independent description gives, with or without a supplied first date |
| Conversions.SeriesConvertsIff | src/famepy/migration/_migrate.py:500-568 | a series of observations converts exactly when its missing ones can be kept, its frequencies are supported, its first index is a date and its normal observations decode; it is a loss exactly when they cannot be kept |
| Conversions.EmptyConvertsIff | src/famepy/migration/_migrate.py:528-541 | an empty series converts exactly when its frequencies are supported |
| Conversions.ScalarConvertsIff | src/famepy/migration/_migrate.py:500-527 | a name-list converts exactly when its text parses, any other scalar exactly when its frequency is supported and it is a missing value that can be kept or decodes |
| MigrationTrips.ExpectedKeeps | src/famepy/migration/__init__.py:94-250 | the exact migration of a series keeps every normal value bit for bit, its category at every position, its first date and its frequencies; the lossy policy loses only the categories of floating series |
| MigrationTrips.ScalarKeeps | src/famepy/migration/__init__.py:181-203 | the exact migration of a scalar keeps its value bit for bit, or its category where it is missing, and the label of its dates; the lossy policy leaves a NaN for a missing float |
| MigrationTrips.ConvertedIsStorable | src/famepy/migration/_migrate.py:571-613 | what converts has a representation, except a first date of another frequency or moments beyond 64 bits |
| MigrationTrips.StoredUnlessFailing | src/famepy/migration/_migrate.py:765-789 | an object with a representation is stored exactly when the file does not fail before its last call |
| MigrationTrips.ObjectReadsBack | src/famepy/migration/_migrate.py:500-613 | a stored object reads back as its exact migration |
| MigrationTrips.OthersReadTheSame | src/famepy/migration/_layout.py:247-410 | storing one object, or failing halfway, changes neither what another reads as nor the catalog |
| MigrationTrips.EveryObjectReadsBack | src/famepy/migration/_migrate.py:746-750 | for any objects with distinct destinations every stored one reads back as its exact migration, whatever failed before, between or after |
| PartialWrites.FailedObjectsReadIff | src/famepy/migration/_migrate.py:746-750 | in any migration an object that was not stored does not read, except exactly a missing number, Boolean or text whose category the failing call was to set, which reads as a normal value |
| PartialWrites.ScalarPartlyIff | src/famepy/migration/_layout.py:262-296 | the same for one scalar, wherever its calls stop |
| PartialWrites.SeriesPartly | src/famepy/migration/_layout.py:299-364 | a nonempty series whose calls stop before the last does not read |
| PartialWrites.EmptyPartly | src/famepy/migration/_layout.py:367-410 | an empty series whose calls stop before the last does not read |
| Planning.KeptIffStorable | src/famepy/migration/_migrate.py:301-418 | an entry is kept exactly when the object is supported, its destination usable and its first date fits; it is skipped only when unsupported and the options say so |
| Planning.DecisionIff | src/famepy/migration/_migrate.py:301-418 | every action, destination and reason is given exactly for the first rule the object breaks; what is skipped is unsupported and asked to be skipped |
| Planning.FirstdateIsFirst | src/famepy/migration/_migrate.py:143-147 | the first date of a name is that of the first option under the name in any case |
| Planning.CollectInfos | src/famepy/migration/_migrate.py:448-451 | overlapping patterns list each object once, at its first listing |
| Planning.FindCollisions | src/famepy/migration/_migrate.py:456-482 | one pass with the last object of each destination refuses an entry as a collision exactly when another entry that was not refused has its destination; other decisions stand |
| Planning.StoredAreApart | src/famepy/migration/_migrate.py:456-482 | no two stored entries of a plan share a destination |
| Planning.SortedNames | src/famepy/migration/_migrate.py:451-451 | the names are listed once each in code-point order |
| Planning.DefaultNeverCollides | src/famepy/migration/_migrate.py:120-120 | lower-casing distinct library names never collides |
| PlannedRuns.PlanMigration | src/famepy/migration/_migrate.py:445-483 | the plan decides on the first listing of every name, by ascending name, and then marks the collisions |
| PlannedRuns.PlannedJobsAreGood | src/famepy/migration/_migrate.py:429-483 | the kept entries of any plan have distinct plain destinations that meet neither each other nor the masks in a new archive |
| PlannedRuns.PlannedMigrationReadsBack | src/famepy/migration/_migrate.py:714-762 | for any listing, options and failures, every object a planned migration stored reads back as its exact migration |
| Protocol.StepKeeps | src/famepy/migration/_migrate.py:633-762 | every event of every run keeps the protocol invariant and changes the destination only as its claimant may |
| Protocol.ContentStays | src/famepy/migration/_migrate.py:651-668 | in every interleaving no run removes or overwrites a destination with content, or an empty file it did not create |
| Protocol.OneClaimant | src/famepy/migration/_migrate.py:651-659 | at most one run holds the claim, and the destination then is its zero-byte file |
| Protocol.OnlyClaimantChanges | src/famepy/migration/_migrate.py:662-668 | only the run that created the claim replaces or unlinks it |
| Protocol.ReportedArchiveStays | src/famepy/migration/_migrate.py:753-762 | a run that returned a report left its own finished archive, which stays whatever any run does later, and its status is complete exactly when everything planned was stored and nothing skipped |
| Protocol.LeftBehindIff | src/famepy/migration/_migrate.py:728-761 | a step leaves a claim behind exactly when its run dies, or is interrupted before the guarded block or inside the release |
| Protocol.ClaimHeldIff | src/famepy/migration/_migrate.py:728-761 | after any run a claim is still going to be replaced or released exactly when no step of the run abandoned one |
| Protocol.NoClaimLeftBehind | src/famepy/migration/_migrate.py:759-761 | once every run is over a claim is left exactly when a claimant was killed or interrupted there |
| Protocol.ClaimLeaks | src/famepy/migration/_migrate.py:728-734 | an interrupt right after the exclusive creation leaves the destination claimed, and the next run is refused |
| Protocol.EveryMarkPasses | src/famepy/migration/_layout.py:438-458 | whatever fails and whenever, the catalog passes the layout check exactly from the moment layout and status are set, and complete is visible only with every planned object stored and none skipped |
| MigrationRun.Destinations.Migrate | src/famepy/migration/_migrate.py:725-762 | a whole run, wherever an exception strikes it, has exactly the effect of the protocol's steps; it reports exactly when nothing struck, complete exactly when every object was stored and none skipped, and the destination is untouched, the archive, released, or still claimed as the fault decides |
| MigrationRun.Destinations.StoreObjects | src/famepy/migration/_migrate.py:742-757 | the object loop counts what was stored and ends complete exactly when everything was and nothing was skipped; an error outside the containment ends it incomplete, one after the status is decided keeps the status |
| MigrationRun.Destinations.Seal | src/famepy/migration/_migrate.py:755-757 | the final marks are set on the way out of an error too, until one of them fails |
| MigrationRun.Destinations.Finish | src/famepy/migration/_migrate.py:758-762 | the archive replaces the claim, and an error before or right after the rename leaves no report |
| MigrationRun.Destinations.LetGo | src/famepy/migration/_migrate.py:662-668 | the release removes a zero-byte claim, never an archive, and an interrupt inside it leaves the claim |

## Left out

- Native bindings: ctypes marshalling, the ABI table, library discovery, probing and diagnostics are foreign calls and I/O.
- The validation campaign, benchmarks, Julia and release scripts: process control and report gates.
- NumPy dtype, contiguity and ownership checks, and the wording of errors: errors are constructors, several messages share one.
- The regular-expression engine and path resolution of INPUT: an INPUT statement is a predicate on its bytes, a name resolves through a given function, a file is its bytes.
- `fame()`: redirecting, capturing and restoring native output around a command.
- Extended error text and fork inheritance of sessions.
- Unicode case mapping: names are ASCII in the library; `str.lower` and `str.upper` are modelled on ASCII letters.
- UTF-8: a strict codec given as a parameter; ASCII is modelled in full.
- `NameList` given a string: members are parsed with the blanks of the byte parser; the wider white space of `str.strip` is not modelled.
- The optional spellings of a collect specification that `_normalize_collect` accepts; entries are modelled in their normal form.
- The argument listing and duplicate removal at the start of `resolve_names`; the model starts from the list of distinct names.
- `_place` descends with a loop; the model recurses along the path, with the same mutable workspaces.
- Reading and writing of objects by `do_read` and `fill_object`, which only move checked fields.
- Handles.StepKeeps: native failures are statuses; runs with interrupts are the subject of `Interrupts`. An interrupt between two assignments that forget the tables at the end of a finalization, where no native call can follow on their account, is not a place of its own.
- Labels.DecimalParses: `str.isdigit` also accepts digits outside ASCII; only ASCII digits are modelled.
- Attributes outside the layout's prefix, and catalogs other than as paths with attributes: the reader ignores both.
- Restoring.AcceptedIsConsistent: assumes what the file format guarantees of payloads (supported frequencies, 64-bit moments).
- Strictness.ReadsIff: assumes the same of payloads.
- PartialWrites.FailedObjectsReadIff: a failed job stops between two calls; a call that fails after it took effect is not modelled.
- Layout errors of unknown and of known but unsupported frequency labels are one refusal.
- ListingRun.Library.ListBody: an interrupt after the library has opened the cursor and before the guarded block is entered, which leaks the cursor, is no outcome of a call.
- Aliases in listings: the option is set and reset, its effect on the selection is not modelled.
- Protocol.ContentStays: other programs that write to the destination path are not modelled, nor is a clash of partial names beyond the check for it.
- `list_migrated`, `migration_status`, `describe` as JSON and the plan and report summaries: listings of what the modelled members already determine.
