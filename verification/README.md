# go-txnpure, modelled in Dafny

go-txnpure is a runtime detector. It decides when a side effect (an HTTP call, a mail, an enqueue, a write on
another connection) ran while a database transaction was open in the same scope, and which declared exemption
covers it. This project models its decision logic and proves what its documentation and tests promise.

`dafny verify dfyconfig.toml` checks everything.

| module | what it models |
|---|---|
| `Types`, `Counts`, `Keys` | reports and identities; exact-call counts; the sorted listing of identities |
| `Classify`, `Targets` | the statement scanners, the classifier and the write-target extractor |
| `Attribution`, `Interleaving` | one session's calls; any number of sessions interleaving at the atomic add |
| `Governance`, `Executions`, `Declarations`, `RegionRuns`, `Forms` | one in-transaction event against the three exemption tiers; a whole scope execution and its finish; which declaration an account keeps; what a region counts and reports; the three ways to declare an exemption |
| `Schedule` | concurrent events, one step at a time, in any interleaving |
| `Contexts`, `Verdicts`, `Matching` | which scope and region a context resolves to; what each kind of call reports, as functions; what matched statements come to, match by match |
| `Detectors`, `Sessions`, `Drivers`, `Fleets` | the objects and their methods, each proved against those functions; many session objects together |
| `Scripts` | whole programs: prepared and direct execution, and what a checkpoint says after a run |
| `ThrottleKeys`, `Throttle`, `Baselines` | the throttling and the baseline reporters |

The same state is modelled twice on purpose. Code that updates fields in place is a class whose methods are proved
against specification functions (`Verdicts`, `Governance`, `Attribution`, `Throttle.LetThrough`,
`Baselines.Marked`); the promises about runs are proved about those functions. Concurrency is modelled on values,
as step machines: `Interleaving` splits `openTx` and `closeTx` at the atomic add, `Schedule` splits one event into
count, note, region add, decide, note and emit.

What a model takes as a parameter: the classifier and the checkers (any pure functions), the answers of the wrapped
driver, the clock readings, the call site of an unscoped begin, and which optional reports a reporter takes.

Where the code and its prose differ, the model follows the code:

- The maximum of a list of counts starts from 0 (allow.go:150-158), so counts below 1 cover nothing and count as a
  maximum of 0. "Permanently stale" is not literal: an identity declared with `[0]` that sees events yields
  violations and no stale report, and a region declared with `[0]` that sees none is clean
  (`Executions.GrowthAndShrinkage`, `Forms.FormsPartOnNoEvents`).
- An identity without events has no account and is never reported at the finish; a counted region is always checked.
- A region's counter moves only when the call-site option did not cover (`Governance.TierResolution`).
- A block comment ends at the first closing pair in the text, the search starting inside the opening one, so slash,
  star, slash is a complete comment. `Classify.BlockCommentIsBlank` says exactly which comments are skipped as a
  whole.
- Closing a wrapped connection does not end its transaction; counters drain when `EndTx` is the last call of each
  session (`Interleaving.CountersDrain`).
- Throttle keys join their parts with NUL, and `ThrottleKeys.KeyIsExclusive` says exactly which identities share a
  window with another one.

## Model

| member | source | states |
|---|---|---|
| `Counts.MaxCount` | allow.go:150-158 | The loop returns the largest count that is at least 0, and 0 when there is none. |
| `Counts.ContainsCount` | allow.go:160-167 | The loop answers whether the total is among the declared counts. |
| `Counts.GrowthAndShrinkageSurface` | allow.go:138-167 | For one declaration: some call is declined iff the total exceeds the maximum; nothing at all is said iff the total is declared. |
| `Classify.Characters` | classify.go:278-280 | Identifier characters are the ASCII letters, the digits and the underscore; blanks are space, tab and the two line ends; names also hold the dot. |
| `Keys.LessIsStrictTotalOrder` | allowlist.go:99-110 | The comparison of identities is total, irreflexive, asymmetric and transitive. |
| `Keys.LessIsByScopeKindName` | allowlist.go:99-110 | Identities are ordered by scope, those of one scope by kind, those of one kind by name. |
| `Keys.BeforeIsLexicographic` | allowlist.go:99-110 | Strings are compared by the first byte that differs, a prefix before its extensions. |
| `Keys.ListingIsUnique` | allowlist.go:99-110 | A set of identities has one sorted duplicate-free listing, so results do not depend on map iteration order. |
| `Keys.SortKeys` | allowlist.go:99-110 | Sorting collected keys gives that listing of their set. |
| `Classify.StripLeading` | classify.go:202-227 | The two-level loop terminates and returns the text without its leading blanks. |
| `Classify.BlanksAreSkipped` | classify.go:200-227 | Any run of whitespace, line comments and closed block comments in front is stripped entirely. |
| `Classify.StrippedRemovesOnlyBlanks` | classify.go:202-227 | Conversely only such blanks are removed, or everything when a comment never closes. |
| `Classify.StrippedIsIdempotent` | classify.go:202-227 | Stripping twice is stripping once. |
| `Classify.StrippedIsSuffix` | classify.go:202-227 | The result is the end of the text. |
| `Classify.LineCommentIsBlank` | classify.go:209-216 | A line comment with its newline is one blank iff no newline comes earlier. |
| `Classify.BlockCommentIsBlank` | classify.go:217-224 | A closed block comment is one blank iff its body starts with no slash and holds no earlier closing pair. |
| `Classify.IdentRunLen` | classify.go:229-237 | The loop returns the length of the longest identifier prefix. |
| `Classify.TokenIs` | classify.go:150-168 | The allocation-free comparison is equality up to ASCII letter case. |
| `Classify.ContainsWriteToken` | classify.go:299-318 | The single pass answers whether some maximal identifier run is a write keyword. |
| `Classify.CteScanMatchesReference` | classify.go:282-318 | The length-first keyword test agrees with upper-casing and comparing, at every identifier run. |
| `Classify.ClassifierMatchesReference` | classify_internal_test.go:34-74 | On every text the first-byte dispatch classifies as the plain upper-case-and-look-up reference does. |
| `Targets.KindByLeadingWord` | classify.go:50-63 | However spaced, commented and cased, the leading word decides the kind, keyword by keyword; a rollback not followed by TO rolls back; WITH writes iff a writing identifier follows. |
| `Targets.OtherLeadingWord` | classify.go:50-63 | A statement led by any other word is nothing in particular. |
| `Targets.ReadName` | classify.go:257-276 | The loop reads the quoted or bare name a text starts with. |
| `Targets.TargetImpliesWrite` | classify.go:173-198 | A statement with a target is classified as a write. |
| `Targets.TargetIsPieceOfQuery` | classify.go:173-198 | A target is a contiguous piece of the statement, exactly as written when quoted and lower-cased when not, and never longer. |
| `Targets.LeadingBlanksAreInvisible` | classify.go:64-67 | Prepending any run of blanks changes neither classification nor target. |
| `Targets.SlashStarSlashIsSkipped` | classify.go:217-222 | Slash, star, slash in front of any statement changes neither, since it is taken as a complete comment. |
| `Targets.ClassifierIgnoresCase` | classify.go:64-168 | Changing the case of ASCII letters anywhere does not change the classification. |
| `Targets.TargetIgnoresCase` | classify.go:173-276 | Nor an unquoted target; a quoted one changes in letter case only. |
| `Targets.TargetAfterKeyword` | classify.go:173-198 | However spaced, commented and cased, the table after verb and keyword (INSERT INTO, DELETE FROM, …) is the target. |
| `Targets.TargetAfterVerb` | classify.go:183-198 | The same for UPDATE, COPY and TRUNCATE without TABLE. |
| `Targets.QuotedTargetAfterKeyword` | classify.go:259-276 | For either quote character and any name not holding it, the quoted table after verb and keyword is the target exactly as it stands between the quotes; without the closing quote there is no target. |
| `Targets.QuotedTargetAfterVerb` | classify.go:183-198 | The same for UPDATE, COPY and TRUNCATE without TABLE. |
| `Targets.NoTarget` | classify.go:173-198 | Without its keyword a verb has no target, and verbs that name no table never have one. |
| `Targets.OpNameIsTarget` | driver.go:82-89 | A write is reported under its target, or as "write" without one. |
| `Targets.RollbackToIsNoEnd` | classify.go:139-148 | However spaced, commented and cased, a rollback ends the transaction unless the next word is TO: savepoint forms do not. |
| `Attribution.FieldsFollowHistory` | session.go:60-125 | After any calls the fields say inside iff some call opened a transaction that is still open, attributed to that call's scope: repeated BEGINs are ignored, a driver-level begin replaces, an end closes. |
| `Attribution.CallsByKind` | session.go:60-125 | After any history COMMIT, ROLLBACK and the end of a transaction close; BEGIN opens in its scope iff nothing is open; a driver-level begin always opens; a write, any other statement and an unknown kind leave the fields as they were. |
| `Interleaving.CountersAreExact` | session.go:103-125 | In every state any interleaving reaches, with the add a step of its own, every counter is the number of sessions whose calls that took effect leave a transaction open in that scope. |
| `Interleaving.CountersStayInRange` | session.go:113-125 | A counter is never negative and never above the number of sessions. |
| `Interleaving.CountersDrain` | session.go:94-98 | When the last call of every session ended its transaction, every counter is 0, whatever ran before. |
| `Interleaving.QuietCountersFollowCalls` | session.go:60-125 | With no session inside a call, counters are what the calls, read session by session in program order, say. |
| `Interleaving.IdleSessionFollowsItsCalls` | session.go:60-125 | Interleaving does not disturb a session's own fields. |
| `Interleaving.CheckpointSeesOpenTransactions` | check.go:101-113 | The counter a checkpoint loads is positive iff some session's opening call is still in force in the scope, and is the number of such sessions. |
| `Interleaving.WriteSeesOtherSessions` | session.go:133-155 | At any moment a write computes the number of other sessions open in its scope; it consults the exemptions iff there is one and calls its region stale iff nothing is open. |
| `Governance.EveryEventIsCountedOnce` | allow.go:92-110 | An event adds one to its own identity's account and touches no other, whatever the tiers decide. |
| `Governance.TierResolution` | check.go:122-154 | An event is reported iff every tier present is counted and exceeded; the region's counter moves iff the option did not cover, and an entry is marked used iff it covers and no earlier tier does. |
| `Governance.OwnEntryDecides` | allowlist.go:66-81 | An entry for the scope itself decides whatever entry there is for any scope: it covers and alone becomes used, or its counts end the allowed calls reported and no entry changes; its counts are what the account remembers. |
| `Governance.AnyScopeEntryDecides` | allowlist.go:66-81 | Without one, the entry under "*" decides in the same way. |
| `Governance.NoEntryDecides` | check.go:122-154 | Without either, or when the option or the region covers, no entry changes, and the event is reported with the counts of option and region iff not covered by them. |
| `Executions.GrowthAndShrinkage` | allow.go:138-216 | Whatever else runs, n events of an operation pinned by one declaration report exactly calls maximum+1 to n, and the whole finish of the run reports the operation once iff n is at most the maximum and undeclared, else not at all; silence iff n is declared. Only the operation with empty kind and name shares its finish reports with the regions. |
| `Executions.DeclarationPinsIdentity` | check.go:122-154 | The account such a run leaves holds n and the declaration, and the calls reported are those past the maximum. |
| `Executions.EventsAreCounted` | allow.go:97-110 | In any run the account of an identity is its number of events, and exists iff there was one. |
| `Executions.FinishReportsEachIdentityOnce` | allow.go:189-200 | The sorted pass reports a listed identity exactly as its account demands and any other not at all. |
| `Executions.ShortfallsInOrder` | allow.go:188-200 | The finish reports identities in the order of scope, kind and name. |
| `Executions.FinishAbout` | allow.go:174-216 | What a whole finish says under an operation is what the account of its identity demands, and nothing of the regions unless kind and name are empty. |
| `Declarations.LastDeclarationWins` | allow.go:112-126 | Over any run an account holds the counted declaration its events consulted last, and none when they consulted none. |
| `RegionRuns.RegionCountsItsEvents` | check.go:131-139 | Over any run a region counts exactly its own events that no call-site option covered, whatever their operations and whatever the other tiers do. |
| `RegionRuns.RegionCoversUpToMaximum` | check.go:131-139 | The event that asks a region as the m-th is covered by it iff m is at most its maximum. |
| `RegionRuns.OriginsOfViolations` | check.go:122-154 | The reports traced to their events are the violations of the run, in order. |
| `RegionRuns.RegionGrowthAndShrinkage` | allow.go:54-61 | For any mix of operations and options under a counted region the Allowlist does not cover, asked n times: exactly its events numbered maximum+1 to n are reported, the finish reports it in its place iff n is at most the maximum and undeclared, and nothing is said iff n is declared. |
| `Forms.FormsDecideIdentically` | allow_test.go:584-647 | Option, region and Allowlist entry with the same counts report the same violations with the same numbers, and the same at the finish, the region's without an operation. |
| `Forms.FormsPartOnNoEvents` | allow.go:183-211 | Without events the identity forms are silent and a counted region is silent iff it declares 0. |
| `Schedule.NumbersAreHandedOutOnce` | allow.go:92-110 | In any interleaving of any events every identity's and every region's counter hands out each number from 1 up to exactly one event. |
| `Schedule.EachReportsOnce` | check.go:186-203 | In any interleaving of any events the log holds one report of every thread that is done with reporting, and no other. |
| `Schedule.ScheduleIndependence` | check.go:122-154 | When n concurrent events consult one counted declaration, in every interleaving numbers 1..n go to one event each, the threads in the log are exactly the holders past the maximum, once each, so max(0, n - maximum) in all, the calls reported for an identity are exactly maximum+1 to n, and the account is that of n events. |
| `Schedule.AloneIsSequential` | check.go:122-154 | The step machine run without interruption is the sequential rule. |
| `Contexts.NoScopeNoRegion` | allow.go:37-48 | Without a scope no region can be opened. |
| `Contexts.InnermostWins` | allow.go:73-81 | A context resolves to the innermost scope, whatever regions lie between, and to the innermost region opened since; a nested scope inherits none. |
| `Verdicts.GateIsExact` | check.go:165-179 | The gate is closed iff the option-less checkpoint would report nothing and change nothing. |
| `Verdicts.CheckpointSays` | check.go:84-114 | Without a scope the checkpoint is reported unscoped iff that is asked for. With nothing open, exactly one stale report per in-code exemption present, the option's first, and no other trace. With something open, exactly one violation, with the number open, the call's number and the exceeded counts in tier order, iff every tier present is counted and exceeded. |
| `Verdicts.WriteSays` | session.go:133-155 | With other transactions open a write is one event under its target or "write", carrying their number; otherwise it is silent, but for a stale region when nothing at all is open. |
| `Verdicts.MatchFirstReportLater` | check.go:232-278 | Matching the checkers first and reporting later gives the same accounts and reports as reporting each match as it is found. |
| `Verdicts.NothingToSay` | check.go:238-242 | With nothing open and no region, matched operations leave no trace, so not running the checkers is sound. |
| `Matching.MatchesInOrder` | check.go:249-253 | The matches are those of the checkers one by one, in their order. |
| `Matching.MatchesInTransaction` | check.go:275-277 | With something open each identity's account grows by the matches naming it and the region's by all of them, and a match is reported, in order, with the number open and its own call number, iff region and entry, as far as present, are past at its turn. |
| `Matching.EveryMatchIsReported` | check.go:249-253 | Without exemptions the reports are one violation per match, in checker order. |
| `Matching.MatchesOutsideTransaction` | check.go:269-274 | With nothing open the reports are one stale report per match with the region's reason, and no account changes. |
| `Matching.CheckersReport` | check.go:232-254 | Running the checkers on a statement says exactly that of its matches. |
| `Detectors.AllowInTransactionHere` | allow.go:37-48 | The scope never changes; the new region is in force and registered for the finish iff counted. |
| `Detectors.Scope.BumpCall` | allow.go:97-110 | Counts the event for its identity and returns its number. |
| `Detectors.Scope.NoteDeclared` | allow.go:116-126 | Remembers a counted declaration, the last one winning. |
| `Detectors.Allowlist.Add` | allowlist.go:49-59 | Replaces the identity's entry by an unused one. |
| `Detectors.Allowlist.Decide` | allowlist.go:66-81 | The entry for the scope itself, else the one under "*", decides with its own counts and reason; a covering entry alone becomes used, else nothing changes. |
| `Detectors.Allowlist.UnusedEntries` | allowlist.go:86-97 | The listing of the entries never used, in whatever order the map yields them. |
| `Detectors.LastExemptionApplies` | check.go:50-57 | Among the options the last exemption given is in force, whatever stands between or behind. |
| `Detectors.AppliedCheckConfig` | check.go:159-165 | The loop finds it, and none when no exemption is given. |
| `Detectors.Detector.Emit` | check.go:200-202 | Every reporter that takes a report receives it once, after what it had. |
| `Detectors.TakenByKind` | check.go:200-202 | A reporter takes every violation, and each optional kind of report iff it has the method for it. |
| `Detectors.Detector.ContextShows` | allow.go:73-81 | What a method reads through its context is the resolved scope's name, counter and accounts and the resolved region's declaration and counter. |
| `Detectors.Detector.AskTiers` | check.go:122-152 | Bumping, noting and asking in place leaves the accounts, the region and the Allowlist as the rule of one event says. |
| `Detectors.Detector.DecideAndReport` | check.go:122-154 | One event changes the accounts as the rule says and delivers the rule's violation, if any. |
| `Detectors.Detector.Check` | check.go:84-114 | A checkpoint reports each in-code exemption as stale when nothing is open, else is one event; the counters stay. |
| `Detectors.Detector.CheckNeeded` | check.go:174-179 | The heap read agrees with the gate on what the context shows. |
| `Detectors.Detector.RoundTrip` | roundtripper.go:41-49 | The gated request does what the ungated checkpoint does. |
| `Detectors.Detector.RunStatementCheckers` | check.go:232-254 | The loop reports every match, in order, as the specification does. |
| `Detectors.Detector.ReportStatementOps` | check.go:260-278 | So does the loop over prepared matches. |
| `Detectors.Detector.StartScope` | detector.go:160-180 | A fresh scope with nothing open, reported as nested iff detection is on and an outer scope is present. |
| `Detectors.Detector.FinishScope` | detector.go:189-205 | Only the first call reports: the shortfalls, then the transactions still open. |
| `Detectors.DeclaredIn` | allow.go:182-188 | Collecting from the map in any order and sorting gives the unique listing of the declared identities. |
| `Detectors.IdentityPass` | allow.go:189-200 | Checking them one by one gives the shortfalls of that listing. |
| `Detectors.RegionPass` | allow.go:201-211 | The loop over the regions gives their shortfalls in creation order. |
| `Sessions.Session.OpenTx` | session.go:103-111 | Enters a transaction, adding one to the context's scope or reporting it unscoped. |
| `Sessions.Session.CloseTx` | session.go:116-125 | Leaves the transaction, taking one from its scope at most once. |
| `Sessions.Session.BeginTx` | session.go:89-92 | Fields and both counters concerned move as the call means, the same scope or two different ones. |
| `Sessions.Session.EndTx` | session.go:98 | Ends whatever is open, and nothing when nothing is. |
| `Sessions.Session.ReportIfCrossConn` | session.go:133-155 | A write does what the verdict on the counter and on its own attribution says. |
| `Sessions.Session.ObserveKind` | session.go:60-72 | COMMIT and ROLLBACK close what is open and take one from its scope; BEGIN opens in the context's scope and adds one there iff nothing is open; anything else moves neither fields nor counters. Accounts and reports follow the statement's kind. |
| `Sessions.Session.Observe` | session.go:46-55 | The whole observation, the checkers reading the counter the statement leaves. |
| `Drivers.WrappedConn.WrapStmt` | driver.go:113-121 | What is kept at prepare time is the classification and the matches of the query. |
| `Drivers.WrappedStmt.Observe` | driver.go:274-279 | Executing a prepared statement satisfies the very contract of observing its query directly. |
| `Drivers.WrappedStmt.ExecContext` | driver.go:300-307 | Observed unless the connection was bad. |
| `Drivers.WrappedConn.BeginTx` | driver.go:137-157 | Nothing changes when the driver refuses; otherwise the open transaction is replaced and the reused object handed out. |
| `Drivers.WrappedConn.ExecContext` | driver.go:159-173 | Observed unless the attempt is skipped or retried elsewhere, in which case nothing changes. |
| `Drivers.WrappedTx.Finish` | driver.go:251-261 | The transaction ends and its scope's counter follows whatever the driver answers. |
| `Fleets.Step` | session.go:74-125 | On the objects themselves, one call of one session keeps every scope's counter equal to the number of sessions attributed to it and moves that session only. |
| `Fleets.Run` | fuzz_test.go:190-214 | After any sequence of calls on any number of sessions and scopes every session object is where its calls put it and every counter is exact. |
| `Fleets.Drain` | fuzz_test.go:216-225 | Ending every session, repeatedly if one likes, brings every counter to 0. |
| `Scripts.PreparedAndDirectAgree` | driver.go:110-121 | For any script on any sessions with any contexts, statements prepared on first use and reused end in the same world with the same ordered reports as direct execution. |
| `Scripts.ScriptFollows` | session.go:60-125 | After any script every session is where its own calls put it. |
| `Scripts.ScriptKeepsCounters` | session.go:103-125 | After any script every scope's counter is the number of sessions attributed to it. |
| `Scripts.CheckpointAfterScript` | check.go:101-113 | After any script an uncovered checkpoint reports one violation with the number of sessions whose calls left a transaction open in its scope, and nothing when there is none. |
| `Scripts.RegionCheckpointAfterScript` | check.go:101-139 | After any script a checkpoint under an uncounted region is suppressed and counted for it iff a transaction is left open in its scope, and else reports it stale. |
| `Scripts.MatchedStatementAfterScript` | check.go:232-254 | After any script a matched statement reports nothing when it leaves no transaction open in its scope, and otherwise what its matches come to, carrying the number of sessions the script and the statement leave inside one. |
| `Scripts.WriteAfterScript` | session.go:133-155 | After any script a write without exemptions reports a violation under its target iff another session is left inside a transaction in its scope, with the number of those. |
| `Scripts.RunIsStatement` | session.go:46-55 | A statement run in a script leaves the accounts and reports its observation specifies. |
| `ThrottleKeys.KeyIsExclusive` | throttle.go:126-128 | An identity shares its key with no other iff its three parts are NUL-free. |
| `ThrottleKeys.KeysSpelledOut` | throttle.go:126-201 | The key of each kind of report, written out. |
| `ThrottleKeys.KeysTellApart` | throttle.go:126-201 | On parts free of NULs two reports of one kind share a key iff they have the same subject: identity, operation, both names, scope, or call site. |
| `Throttle.MapHoldsTracked` | throttle.go:110-116 | The map tracks exactly the first keys to appear, up to the cap, and never grows beyond it. |
| `Throttle.EveryKeyIsAlone` | throttle.go:106-124 | In any mix of keys a tracked key is let through and counted exactly as a limiter that sees only its own reports; a key beyond the cap always passes. |
| `Throttle.KeysAreIndependent` | throttle.go:106-124 | Without a cap, dropping all other keys' reports changes neither verdicts nor counts of a key. |
| `Throttle.PassedAreSpaced` | throttle.go:118-121 | Reports that pass are at least the interval apart. |
| `Throttle.HeldBackIsTooSoon` | throttle.go:118-123 | A report held back comes within the interval of the last one that passed. |
| `Throttle.RateIsBounded` | throttle.go:26-30 | A span of length T sees at most T / interval + 1 reports pass, wherever it starts. |
| `Throttle.NothingIsLost` | throttle.go:203-211 | For every key, passed plus the suppressed count returned is what was received, and a key is omitted iff nothing of it was suppressed. |
| `Throttle.WindowMap.Admit` | throttle.go:106-124 | The in-place decision is the specified one for the history of the map. |
| `Throttle.WindowMap.Bounded` | throttle.go:10-18 | The call-site map never tracks more than 1024 keys; the others track every key they were asked about. |
| `Throttle.WindowMap.Snapshot` | throttle.go:246-256 | The loop returns the non-zero suppression counts. |
| `Throttle.ThrottlingReporter.Receive` | throttle.go:130-202 | A report not taken leaves no trace, a non-positive interval forwards everything, otherwise the map of the report's kind decides and the other five stay; the first report of a subject is always forwarded. |
| `Throttle.ThrottlingReporter.SuppressedIn` | throttle.go:209-244 | The counts returned complete, for every key, what passed to what was received. |
| `Baselines.FilterIsExact` | baseline.go:183-188 | Over any stream exactly the reports whose identity is not baselined pass, in order. |
| `Baselines.UsageFollowsStream` | baseline.go:87-95 | Filtering adds and loses no entry and marks exactly those the stream violates. |
| `Baselines.UnusedAreUnseen` | baseline.go:97-111 | What is unused after a stream is what was unused before and not violated in it. |
| `Baselines.RatchetHolds` | baseline.go:25-38 | A baseline built from violations swallows a run whole iff the run shows no other identity, and has nothing unused iff the run shows them all. |
| `Baselines.Baseline.Add` | baseline.go:64-72 | A new identity is unused, one already there keeps its usage. |
| `Baselines.Baseline.Covers` | baseline.go:87-95 | Membership, marking the entry. |
| `Baselines.Baseline.Entries` | baseline.go:75-84 | The sorted listing of the identities. |
| `Baselines.Baseline.UnusedEntries` | baseline.go:100-111 | The sorted listing of the unused ones. |
| `Baselines.BaselineFromViolations` | baseline.go:53-59 | The identities of the violations, all unused, whatever the order and repetition. |
| `Baselines.SaveAndLoad` | baseline.go:117-157 | Saving the listing and loading it gives the same identities, all unused. |
| `Baselines.BaselineReporter.Receive` | baseline.go:183-218 | Only violations are filtered; other reports pass when taken. |
| `Baselines.BaselineReporter.ReceiveAll` | baseline.go:183-188 | A stream received report by report leaves what the two stream laws say. |

## Left out

- Rendering of reports, log output and assertion helpers (reporter.go): formatting only.
- Stacks, timestamps and attributes (stack.go): metadata that decides nothing; the throttle's clock is a sequence of integers.
- JSON and file access in `Save` and `LoadBaseline`: library code; a saved file is its sorted list of identities.
- `database/sql` pooling, retries and fallbacks, nulldb.go: the model starts from the outcome of one attempt.
- The grpc and HTTP transports beyond the gated checkpoint, the examples, internal/benchgate.
- Capture of the caller's slice of counts in `AllowInTransaction`: counts are values here.
- Widths of Go integers and saturation of durations: counters and clock readings are unbounded.
- Bytes: a Go string is a sequence of characters standing for its bytes; library upper- and lower-casing is modelled on ASCII letters, the only ones an identifier holds.
- Sessions.Session.OpenTx: the atomic add is one assignment here; what other goroutines may do around it is in `Interleaving`, on values.
- Detectors.Detector.DecideAndReport: no interleaving with other events here; that is in `Schedule`, on values.
- Throttle.WindowMap.Admit: one call at a time, as under the reporter's lock; its history is kept in ghost fields.
- Keys.SortKeys: an insertion sort stands for the library's sort; the result is unique, so the algorithm does not matter.
- Drivers.WrappedTx.Finish: commit and rollback are one method, since they differ only in the driver call.
- Throttle.ThrottlingReporter.Receive: the six report methods are one, by the kind of report.
- Detectors.Detector.FinishScope: called with counted regions only, which is all that is ever registered.
