# Halyard, verified

A Dafny model of the parts of the Halyard web framework whose correctness is not visible from any one
function: how a signal is written by several threads at once and from inside its own use, which routes a
server can hold and what they mean, how owners are cleaned up, how a waiting task is woken, and how
suspense and error boundaries stream and swap their views. `dafny verify dfyconfig.toml` checks all of it.

The model follows the code. Where the code keeps state and changes it, the model is a class whose methods
are proved against functions; where several parties take turns, it is a machine of atomic steps, and the
theorems are about every run of it.

## Main results

Signals (`Reentry`, `WriterTurn`, `WriterTurnSafety`, `WriterTurnTheorems`, `WriterTurnMeaning`, `LostUpdates`)

- In every run of any number of threads, the committed value is the fold of all commits in the order of the
  writer turn, and an outermost update commits what its closure makes of the value committed at that moment.
- Each deferred write is in exactly one place, in order, and the whole queue is handed over once.
- No thread waits for its own turn; at most one holds it; the record counts exactly the live accesses,
  whatever the order in which guards are dropped.
- The documentation of the traits (`halyard_reactive_graph/src/traits.rs:63-64`) says that updates of one
  signal serialize and none is lost. The code gives that to a commit made in the tenure of the turn in which
  its copy was made, and to no other: an update inside a read, one whose closure ends the use that had the
  turn, and one of a thread whose record is gone can overwrite another thread's commit. The model proves
  both directions, with a run for each loss.

Routes (`RouteText`, `RoutePath`, `RouteGrammar`, `RouteMatch`, `RouteRegistry`, `AxumPath`, `RouteListing`,
`PathMacro`, `MacroRoutes`, `MacroPaths`)

- The reader accepts exactly the paths of a grammar, as the tokens they spell, and refuses the others with the
  error of the place where they go wrong.
- Two paths conflict exactly if they are ambiguous, so in any registry a request has one best route.
- A list of routes is admitted in full exactly if every two go together, so in any order or none.
- What the printer writes the parser reads back as the same segments; and a route of `path!` is accepted by
  the router exactly if no name is empty and no more than 25 parameters are present. It is printed with two
  slashes in a row exactly if a literal that ends in a slash has another after it: `path!("/a/" "/b")` becomes
  the path `/a//b`.

Owners and wake-ups (`OwnerForest`, `OwnerRuntime`, `OwnerRuns`, `Channel`, `StrongRead`)

- Cleanup runs in post-order, functions before nodes; under every interleaving and re-entry each cleanup function
  runs at most once, and exactly once when an owner above it is cleaned or dropped.
- `pause` and `resume` set the flag on exactly the live owners below.
- A parked receiver with something to see has been woken or is being woken, also if the sender is dropped in
  the middle of a poll.
- A strong read decides on its own attempt's evidence alone. It misses a cycle exactly if another strong
  read comes back after the refusal.

Views (`Streaming`, `ErrorBoundary`, `BoundaryView`, `Suspense`, `ConstConcat`)

- The error boundary's flattening keeps what the stream means, every poll gives exactly the next part of the
  page, and each swap of views keeps the place and the siblings. Errors are shown exactly while one is not
  cleared, if and only if there is a shared context to give them ids.
- The text of an out-of-order chunk is written in order, whatever it is, exactly if at most one of its chunks
  is ready: the loop that writes it goes backwards (`halyard_tachys/src/ssr/mod.rs:446-488`).
- Suspense never sticks: if nothing is scheduled and the sender has not fired, there are tasks to wait for.
- A template is the concatenation of its parts exactly if that has at most 4095 bytes and no zero.

## Model

| member | source | states |
|---|---|---|
| Reentry.EnterKeepsExact | halyard_reactive_graph/src/reentry.rs:210-242 | starting an access of any kind keeps the record exact: an entry exists iff an access is alive, and depth and the write-lock, snapshot and computing counts are the live accesses of each kind |
| Reentry.ExitKeepsExact | halyard_reactive_graph/src/reentry.rs:244-263 | ending any live access, in any order, keeps the record exact; the entry goes exactly when no access of the value is left |
| Reentry.SwapRemove | halyard_reactive_graph/src/reentry.rs:244-263 | removing an entry by moving the last one into its place lists the same record without that value, ids still distinct |
| Reentry.ThreadRecord.constructor | halyard_reactive_graph/src/reentry.rs:36-40 | a thread starts with an empty record that is valid |
| Reentry.ThreadRecord.Position | halyard_reactive_graph/src/reentry.rs:228-242 | the linear search finds the entry of a value iff the record has one |
| Reentry.ThreadRecord.StateHere | halyard_reactive_graph/src/reentry.rs:184-199 | depth and the write-lock, snapshot and computing counts shown are the live accesses of each kind, and the turn is the entry's; nothing if the record cannot be reached |
| Reentry.ThreadRecord.Enter | halyard_reactive_graph/src/reentry.rs:228-242 | one more live access, counted in the entry, no other entry changed, the record still exact |
| Reentry.ThreadRecord.Exit | halyard_reactive_graph/src/reentry.rs:244-272 | the queue and the turn are handed over exactly when the last access of the value ends, and stay in the entry until then |
| Reentry.ThreadRecord.RecordWrite | halyard_reactive_graph/src/reentry.rs:424-467 | a started write is recorded with the turn in a fresh entry, or not at all if the record cannot be reached |
| Reentry.ThreadRecord.ResumeWrite | halyard_reactive_graph/src/reentry.rs:469-506 | the handed-over writes are put ahead of any in the entry, which has the turn again |
| Reentry.ThreadRecord.TakePending | halyard_reactive_graph/src/reentry.rs:509-519 | the whole queue is taken out and the entry is otherwise unchanged |
| Reentry.ThreadRecord.PutPending | halyard_reactive_graph/src/reentry.rs:521-545 | writes go back ahead of those deferred since, iff the thread is using the value; otherwise they are given back and nothing changes |
| WriterTurnSafety.ReadKeeps | halyard_reactive_graph/src/reentry.rs:353-388 | taking a read guard keeps the invariant of its thread: turn, record, copies and deferred writes agree |
| WriterTurnSafety.ExitKeeps | halyard_reactive_graph/src/reentry.rs:244-272 | ending any access keeps the invariant, whether the queue is kept, flushed or given up |
| WriterTurnSafety.BeginKeeps | halyard_reactive_graph/src/reentry.rs:424-445 | a thread comes to wait for the turn only when nothing of it uses the value |
| WriterTurnSafety.AcquireKeeps | halyard_reactive_graph/src/reentry.rs:338-351 | taking the turn keeps the invariant: the turn is this thread's exactly while its record holds it |
| WriterTurnSafety.SnapshotKeeps | halyard_reactive_graph/src/signal/commit.rs:356-419 | the copy a started update works on is the committed value, and stays so until it commits |
| WriterTurnSafety.CommitKeeps | halyard_reactive_graph/src/signal/commit.rs:213-240 | committing now or deferring first keeps the invariant |
| WriterTurnSafety.GuardKeeps | halyard_reactive_graph/src/signal/commit.rs:460-487 | a write guard inside another use keeps the invariant |
| WriterTurnSafety.DeferGuardKeeps | halyard_reactive_graph/src/signal/commit.rs:538-571 | dropping such a guard defers its value and keeps the invariant |
| WriterTurnSafety.FinishKeeps | halyard_reactive_graph/src/signal/commit.rs:356-419 | an update inside another use defers its result and keeps the invariant |
| WriterTurnSafety.TakeKeeps | halyard_reactive_graph/src/signal/commit.rs:130-160 | taking the queue out while user code runs keeps the invariant |
| WriterTurnSafety.PutKeeps | halyard_reactive_graph/src/signal/commit.rs:130-160 | putting it back keeps the invariant |
| WriterTurnSafety.FlushTurnKeeps | halyard_reactive_graph/src/signal/commit.rs:45-64 | a flush that was not handed the turn takes it, and keeps the invariant |
| WriterTurnSafety.ResumeKeeps | halyard_reactive_graph/src/signal/commit.rs:45-64 | resuming puts the handed-over writes in the record and keeps the invariant |
| WriterTurnSafety.DrainKeeps | halyard_reactive_graph/src/signal/commit.rs:242-287 | each round of the drain keeps the invariant: one write is applied, or the drain is over, or the cap of 100000 gives up the rest |
| WriterTurnSafety.ShutdownKeeps | halyard_reactive_graph/src/reentry.rs:165-176 | the end of a thread's record releases the turn it holds and keeps the invariant |
| WriterTurnSafety.SetUnrecordedKeeps | halyard_reactive_graph/src/signal/commit.rs:304-341 | a set without a record happens only if turn and value are free, and keeps the invariant |
| WriterTurnSafety.Undisturbed | halyard_reactive_graph/src/reentry.rs:18-25 | whatever one thread's step does to what is shared keeps the invariant of every other thread |
| WriterTurnSafety.NextKeeps | halyard_reactive_graph/src/reentry.rs:18-25 | every step of every thread keeps the invariant of the whole signal |
| WriterTurnSafety.ReachableKeeps | halyard_reactive_graph/src/reentry.rs:18-25 | the invariant holds in every reachable state |
| WriterTurnTheorems.CommittedIsFold | halyard_reactive_graph/src/traits.rs:49-64 | in every reachable state the committed value is the fold of all commits in turn order |
| WriterTurnTheorems.OutermostUpdateApplies | halyard_reactive_graph/src/signal/commit.rs:356-419 | an outermost update commits its closure's result on the value committed at that very moment |
| WriterTurnTheorems.NoThreadWaitsForItself | halyard_reactive_graph/src/reentry.rs:424-445 | a thread that waits for the turn does not hold it and holds nothing of the value |
| WriterTurnTheorems.OneTurnHolder | halyard_reactive_graph/src/reentry.rs:338-351 | a thread whose record holds the turn is the owner of the turn, and no other thread's record holds it |
| WriterTurnTheorems.ResumeFindsNothing | halyard_reactive_graph/src/reentry.rs:469-493 | a resumed write never finds an entry, so the case of an entry with a turn is unreachable |
| WriterTurnTheorems.SingleThreadNeverBusy | halyard_reactive_graph/src/reentry.rs:338-351 | with one thread the turn is free whenever it is asked for |
| WriterTurnTheorems.TurnKeptWhileInUse | halyard_reactive_graph/src/reentry.rs:390-394 | dropping the write's own guard before others keeps the turn and the queue |
| WriterTurnTheorems.ReadsAreStable | halyard_reactive_graph/src/signal/commit.rs:192-211 | no step of any thread commits while any thread holds a read guard's lock |
| WriterTurnTheorems.DeferredOnce | halyard_reactive_graph/src/signal/commit.rs:162-190 | each write a thread deferred is found exactly once: queued, taken out, applied or given up |
| WriterTurnTheorems.HandOver | halyard_reactive_graph/src/reentry.rs:244-272 | the end of the last access hands the whole queue, with the turn, to the flush; it is given up exactly if the thread is panicking |
| WriterTurnTheorems.TakeOrder | halyard_reactive_graph/src/reentry.rs:509-519 | taking the queue out leaves the order in which writes are due |
| WriterTurnTheorems.PutOrder | halyard_reactive_graph/src/reentry.rs:521-545 | writes put back are ahead of those deferred since |
| WriterTurnTheorems.DeferredInOrder | halyard_reactive_graph/src/signal/commit.rs:162-190 | over every run a step leaves the order of deferred writes alone, adds one (last, or ahead of the others if it is the started write), applies the first, or gives up a whole queue |
| WriterTurnTheorems.NestedUpdateBase | halyard_reactive_graph/src/signal/commit.rs:130-160 | an update inside another use starts from the committed value after the writes deferred before it, and its result, deferred last, is what will be committed |
| WriterTurnTheorems.DrainCommits | halyard_reactive_graph/src/signal/commit.rs:242-287 | a drain that nothing holds up commits what the writes of the queue leave, in their order, and applies each once |
| WriterTurnMeaning.SetCommits | halyard_reactive_graph/src/signal/commit.rs:289-302 | a started set that is alone commits its own value, and the log gains that put and nothing else |
| WriterTurnMeaning.SetDefers | halyard_reactive_graph/src/signal/commit.rs:231-240 | a started set that is not alone queues its value ahead of the writes made inside it, and commits nothing |
| WriterTurnMeaning.UpdateDefers | halyard_reactive_graph/src/signal/commit.rs:231-240 | a started update that is not alone queues its closure's result on the committed value, first |
| WriterTurnMeaning.BlindDefers | halyard_reactive_graph/src/signal/commit.rs:289-302 | a set or a notification inside a use is queued last, with its own value or none |
| WriterTurnMeaning.GuardDefers | halyard_reactive_graph/src/signal/commit.rs:460-571 | a write guard inside a use works on the committed value after the writes deferred before it, and its value is queued last |
| WriterTurnMeaning.TakenWhole | halyard_reactive_graph/src/reentry.rs:509-519 | the whole queue is taken out and the record has none then |
| WriterTurnMeaning.PutBackAhead | halyard_reactive_graph/src/reentry.rs:521-545 | what was taken out last goes back ahead of all that was deferred meanwhile |
| WriterTurnMeaning.DrainCapped | halyard_reactive_graph/src/signal/commit.rs:242-287 | after 100000 writes a drain gives up the rest, all of it, and commits none of it |
| WriterTurnMeaning.DrainYields | halyard_reactive_graph/src/signal/commit.rs:242-287 | a drain stops for another use of the signal and leaves the queue to the end of that |
| WriterTurnMeaning.ReadLocks | halyard_reactive_graph/src/reentry.rs:353-388 | a read holds the value's lock in a new access, and is counted |
| WriterTurnMeaning.ReadKeepsLock | halyard_reactive_graph/src/reentry.rs:353-396 | no step of any thread but its own release takes the lock from a read |
| WriterTurnMeaning.UnrecordedSets | halyard_reactive_graph/src/signal/commit.rs:304-341 | a set without a record commits its value exactly if neither the turn nor the value is busy |
| WriterTurnMeaning.UnrecordedUpdates | halyard_reactive_graph/src/signal/commit.rs:356-419 | an update without a record commits its closure's result on the value it began with |
| WriterTurnMeaning.WholeSet | halyard_reactive_graph/src/signal/commit.rs:289-302 | from any reachable state in which nothing is in the way, a whole set commits its value and gives the turn back |
| WriterTurnMeaning.WholeUpdate | halyard_reactive_graph/src/signal/commit.rs:356-419 | and a whole update commits its closure's result on the committed value, and gives the turn back |
| LostUpdates.UpdateInsideReadIsLost | halyard_reactive_graph/src/signal/commit.rs:356-419 | a run in which an update made inside a read overwrites another thread's commit: two increments of 0 leave 1 |
| LostUpdates.MovedUpdateIsLost | halyard_reactive_graph/src/signal/commit.rs:356-419 | a run in which an update under the turn loses a commit because its closure ended the use that had the turn |
| LostUpdates.UnrecordedUpdateIsLost | halyard_reactive_graph/src/signal/commit.rs:356-419 | a run in which an update by a thread whose record is gone overwrites another thread's commit |
| LostUpdates.IsolatedExactlyUnderTheTurn | halyard_reactive_graph/src/traits.rs:63-64 | commits of a kind are isolated from other threads in every run iff they need no copy or were copied and committed in one tenure of the turn |
| RouteText.SplitAt | halyard/src/axum/route_path.rs:69-79 | splitting around a slash splits both sides |
| RoutePath.CheckSegments | halyard/src/axum/route_path.rs:69-79 | the loop finds the first piece that starts with a colon or a star |
| RoutePath.UnescapePath | halyard/src/axum/route_path.rs:133-145 | the loop computes the unescaping, each doubled brace one escaped byte |
| RoutePath.CloseAt | halyard/src/axum/route_path.rs:158-167 | the closing brace that is found is an unescaped one, and otherwise the parameter is invalid |
| RoutePath.ReadWildcard | halyard/src/axum/route_path.rs:149-188 | what is read is a wildcard, and what is left starts a new segment |
| RoutePath.ParsePath | halyard/src/axum/route_path.rs:65-110 | the loops compute the parse, with its error if there is one |
| RoutePath.ConflictsWith | halyard/src/axum/route_path.rs:115-129 | the loop over both paths computes the conflict relation |
| RoutePath.ConflictsSymmetric | halyard/src/axum/route_path.rs:115-129 | conflict does not depend on which path was there first |
| RouteGrammar.OldSyntaxRefused | halyard/src/axum/route_path.rs:70-79 | a path with a piece that starts with a colon or a star is refused, with the error of the first such byte |
| RouteGrammar.UnescapeExactly | halyard/src/axum/route_path.rs:133-145 | unescaping gives exactly the marks that are written as the path with no lone brace before its like |
| RouteGrammar.WildcardExactly | halyard/src/axum/route_path.rs:149-188 | a wildcard of the grammar is read as the parameter or catch-all it spells |
| RouteGrammar.ParseExactly | halyard/src/axum/route_path.rs:65-110 | a path is accepted, and read as given tokens, iff it starts with a slash, has none of the old syntax, spells those tokens and has at most 25 parameters |
| RouteGrammar.RefusedExactly | halyard/src/axum/route_path.rs:81-110 | otherwise it is refused exactly where it goes wrong, with the error of that place |
| RouteMatch.ParsedWellFormed | halyard/src/axum/route_path.rs:65-110 | a parsed path starts at the root, a parameter ends its segment and a catch-all ends the path |
| RouteMatch.TokenMatches | halyard/src/axum/route_path.rs:43-58 | a literal matches its byte, a parameter one non-empty segment, a catch-all anything but nothing |
| RouteMatch.MatchBoth | halyard/src/axum/route_path.rs:112-129 | two paths that match one request conflict or are decided by a literal against a wildcard |
| RouteMatch.InstanceMatches | halyard/src/axum/route_path.rs:43-58 | every parsed path matches some request |
| RouteMatch.ClashMatches | halyard/src/axum/route_path.rs:112-129 | two conflicting paths both match the request built from them |
| RouteMatch.ConflictIsAmbiguity | halyard/src/axum/route_path.rs:112-129 | two paths conflict iff some request matches both and no literal against a wildcard decides at the first difference |
| RouteMatch.StrictlyOrdered | halyard/src/axum/route_path.rs:112-129 | of two routes that match a request and do not conflict, exactly one goes before the other |
| RouteMatch.OneWinner | halyard/src/axum/route_path.rs:112-129 | a request that some route matches has exactly one route that goes before all others |
| RouteRegistry.AdmitKeepsValid | halyard/src/axum/route_path.rs:206-252 | paths stay distinct, parsed and free of conflicts, methods distinct per path |
| RouteRegistry.AdmitAdds | halyard/src/axum/route_path.rs:206-252 | exactly the given path and method are added |
| RouteRegistry.RefusesExactly | halyard/src/axum/route_path.rs:206-245 | a refusal names the method, the path and its error, the pair that is there already, or the first path in the way, each exactly when that is the reason |
| RouteRegistry.AdmitsExactly | halyard/src/axum/route_path.rs:206-252 | a pair is admitted iff it can be routed at all, is no duplicate and conflicts with nothing |
| RouteRegistry.AdmitsAllExactly | halyard/src/axum/route_path.rs:206-252 | a list of pairs is admitted in full iff each fits and every two go together |
| RouteRegistry.PermutationAdmitted | halyard/src/axum/route_path.rs:206-252 | any permutation of admitted pairs is admitted in full by a fresh registry |
| RouteRegistry.RegistryWinner | halyard/src/axum/route_path.rs:206-252 | in every registry a request that some route matches has exactly one winner |
| RouteRegistry.Registry.FindPath | halyard/src/axum/route_path.rs:225-226 | the search finds the first route at the path |
| RouteRegistry.Registry.FindConflict | halyard/src/axum/route_path.rs:236-240 | the search finds the first route that conflicts |
| RouteRegistry.Registry.Admit | halyard/src/axum/route_path.rs:206-252 | the registry after it is the specified one, and a refusal leaves it unchanged |
| RouteRegistry.Registry.Register | halyard/src/axum/mod.rs:1725-1761 | the loop routes exactly the pairs that are admitted in turn |
| RouteRegistry.KeptTogether | halyard/src/axum/mod.rs:1725-1761 | the router is given only pairs it can hold together, in the order offered |
| RouteRegistry.KeptAll | halyard/src/axum/mod.rs:1725-1761 | a pair that was refused would not fit the finished router either |
| AxumPath.PushSegment | halyard/src/axum/mod.rs:1543-1575 | one round appends a slash where needed and the printed segment |
| AxumPath.ToAxumPath | halyard/src/axum/mod.rs:1541-1578 | the loop prints all the segments |
| AxumPath.StaticPrinted | halyard/src/axum/mod.rs:1545-1555 | static text is printed with doubled braces, after a slash unless it is empty or starts with one |
| AxumPath.WildcardPrinted | halyard/src/axum/mod.rs:1545-1566 | a parameter is printed as its name in braces after a slash, a catch-all with a star before the name |
| AxumPath.UnescapeDoubled | halyard/src/axum/mod.rs:1550-1554 | unescaping undoes the doubling of braces and marks exactly those bytes |
| AxumPath.SegmentsRead | halyard/src/axum/route_path.rs:81-110 | printed segments are tokenized one after the other into their literals, parameters and catch-all |
| AxumPath.ListingReadBack | halyard/src/axum/mod.rs:1541-1578 | parsing the printed path of well-formed segments succeeds and gives exactly their tokens, braces included |
| RouteListing.ExpandOptionals | halyard/src/router/matching/path_segment.rs:29-55 | the work list expands to every choice of optional parameters, present ones first, and ends |
| RouteListing.ExpandFirst | halyard/src/router/matching/path_segment.rs:34-49 | expanding the first optional parameter into present and absent expands the whole |
| RouteListing.ExpandedExactly | halyard/src/router/matching/path_segment.rs:29-55 | a listing is there iff it is the route with each optional parameter present or left out |
| RouteListing.ExpandedEnds | halyard/src/router/matching/path_segment.rs:29-55 | the listing with every parameter comes first, the one with none last, and each parameter doubles their number |
| RouteListing.IntoRouteListing | halyard/src/axum/mod.rs:1083-1107 | one path for each choice, an empty one being the root |
| RouteListing.ListingsReadBack | halyard/src/axum/mod.rs:1083-1107 | every listing of a well-formed route with at most 25 parameters is read back as its own segments |
| PathMacro.SegmentParser.constructor | halyard_macro/src/route.rs:38-45 | a parser starts with its input and no segments |
| PathMacro.SegmentParser.ParseStr | halyard_macro/src/route.rs:80-99 | the pieces between slashes are appended as segments |
| PathMacro.SegmentParser.ParseAll | halyard_macro/src/route.rs:49-78 | the literals are read in order, or the first error is given |
| PathMacro.EnsureValid | halyard_macro/src/route.rs:102-147 | no error iff every segment is valid and only the last is a wildcard; otherwise the first error |
| PathMacro.PieceRead | halyard_macro/src/route.rs:85-98 | a piece written from a legible segment is read as that segment |
| PathMacro.LiteralReadBack | halyard_macro/src/route.rs:49-99 | a literal written from legible segments is read as those segments, with one more for a slash at the end |
| MacroRoutes.ReadApart | halyard_macro/src/route.rs:49-99 | no segment but a final slash holds a slash |
| MacroRoutes.ValidPlain | halyard_macro/src/route.rs:102-147 | what passes the check consists of unreserved characters and the at sign, with a wildcard only last |
| MacroRoutes.RouteRefused | halyard/src/axum/route_path.rs:81-110 | a route with an empty name or too many parameters is refused |
| MacroRoutes.MacroRouteExactly | halyard_macro/src/route.rs:13-22 | each listing of a route that the macro accepts is accepted by the router, as its own segments, iff no name is empty and at most 25 parameters are present |
| MacroPaths.ReadExactly | halyard_macro/src/route.rs:49-78 | the tokens are read iff all are literals without two slashes in a row, and the first that is not decides the error |
| MacroPaths.RootLiterals | halyard_macro/src/route.rs:80-83 | the root, the empty literal and a lone star give no segment |
| MacroPaths.ValidExactly | halyard_macro/src/route.rs:102-147 | what was read passes the check iff its text and names are letters, digits, hyphen, full stop, underscore, tilde and at sign, and only the last is a wildcard |
| MacroPaths.ErrorExactly | halyard_macro/src/route.rs:112-128 | the error of a segment names its kind and holds its text |
| MacroPaths.ChoicesBuilt | halyard/src/router/matching/path_segment.rs:29-55 | the listings are the choices of the macro's optional parameters, in order |
| MacroPaths.MacroRouteTokens | halyard_macro/src/route.rs:13-22 | each choice is read by the router as the tokens of the macro's own segments: statics, parameters and the catch-all with its name, each on its segment |
| MacroPaths.SlashesExactly | halyard/src/axum/mod.rs:1543-1548 | a route of good segments is printed with two slashes in a row iff a lone slash has something printed after it |
| MacroPaths.OneLiteralOneSlash | halyard_macro/src/route.rs:49-78 | so a route of one literal never is |
| MacroPaths.TwoLiteralsTwoSlashes | halyard_macro/src/route.rs:49-78 | but a route of two literals can be, if the first ends in a slash |
| OwnerForest.ThroughChild | halyard_reactive_graph/src/owner.rs:446-456 | what is reached from an owner is the owner or reached from one of its children |
| OwnerForest.SiblingsApart | halyard_reactive_graph/src/owner.rs:241-263 | two children of one owner share no descendant |
| OwnerForest.OrderMembers | halyard_reactive_graph/src/owner.rs:547-575 | the post-order has exactly the live owners reached through live owners |
| OwnerForest.OrderDistinct | halyard_reactive_graph/src/owner.rs:547-575 | each of them once |
| OwnerForest.DescendantsFirst | halyard_reactive_graph/src/owner.rs:300-306 | an owner comes after every owner under it |
| OwnerForest.SiblingsInOrder | halyard_reactive_graph/src/owner.rs:556-560 | all under one child come before all under a child made later |
| OwnerRuntime.Runtime.constructor | halyard_reactive_graph/src/owner.rs:110-112 | no owners and no current one |
| OwnerRuntime.Runtime.New | halyard_reactive_graph/src/owner.rs:149-191 | a new owner is the last child of the current one if that is alive, unpaused, and nothing else changes |
| OwnerRuntime.Runtime.Child | halyard_reactive_graph/src/owner.rs:241-263 | a new last child that inherits the flag, and nothing else changes |
| OwnerRuntime.Runtime.OnCleanup | halyard_reactive_graph/src/owner.rs:313-328 | the function is registered last with the current owner, or forgotten if there is none alive |
| OwnerRuntime.Runtime.Register | halyard_reactive_graph/src/owner.rs:330-332 | the node is registered last with the owner |
| OwnerRuntime.Runtime.Ancestry | halyard_reactive_graph/src/owner.rs:127-146 | the loop ends, and gives the live ancestors, nearest first |
| OwnerRuntime.AncestorsOlder | halyard_reactive_graph/src/owner.rs:127-146 | ancestors are alive, distinct and older, and include every owner from which this one is reached |
| OwnerRuntime.NearestFirst | halyard_reactive_graph/src/owner.rs:127-146 | each ancestor is the parent of the one before, from the owner up to a root or a dropped parent |
| OwnerRuntime.Runtime.Pause | halyard_reactive_graph/src/owner.rs:446-456 | the loop ends, having set the flag on exactly the live owners reached through live owners, and changed nothing else |
| OwnerRuntime.Runtime.Resume | halyard_reactive_graph/src/owner.rs:469-479 | the same, clearing the flag |
| OwnerRuntime.PopCovers | halyard_reactive_graph/src/owner.rs:446-456 | each round of the stack loop keeps what is still to be reached reachable from the stack |
| OwnerRuntime.Runtime.Cleanup | halyard_reactive_graph/src/owner.rs:546-575 | exactly the live owners below are emptied, and no other changes; each contributes its cleanup functions as registered and then its nodes, all of it after all that is below it |
| OwnerRuntime.Runtime.Drop | halyard_reactive_graph/src/owner.rs:520-540 | dropping an owner runs the same in the same order, and the owner is gone |
| OwnerRuntime.TraceSiblings | halyard_reactive_graph/src/owner.rs:556-560 | all under one child is cleaned before all under a child made later |
| OwnerRuns.StepConserves | halyard_reactive_graph/src/owner.rs:520-575 | no step of any run changes in how many places a job is, but for the one it registers |
| OwnerRuns.StepKeepsForest | halyard_reactive_graph/src/owner.rs:149-191 | every step keeps the owners a forest |
| OwnerRuns.NewIsReached | halyard_reactive_graph/src/owner.rs:149-191 | a new owner is the last child of its parent and reached from it, and nothing else changes |
| OwnerRuns.RegistersLast | halyard_reactive_graph/src/owner.rs:313-332 | a function or node is registered last with its own owner, and nothing else changes |
| OwnerRuns.JobsRunOnce | halyard_reactive_graph/src/owner.rs:520-575 | in every run, with functions that register more and clean up again, no function runs and no node is removed twice |
| OwnerRuns.StepKeepsDue | halyard_reactive_graph/src/owner.rs:546-575 | what is due stays due, whatever step comes between |
| OwnerRuns.CleanedJobsRun | halyard_reactive_graph/src/owner.rs:300-306 | once an owner is cleaned or dropped, every job below it has been done by the time no cleanup is under way, however the run went on |
| OwnerRuns.CleanedInOrder | halyard_reactive_graph/src/owner.rs:561-575 | in every run an owner's cleanup functions run as registered, and its nodes are removed after all of them |
| OwnerRuns.CleanupConserves | halyard_reactive_graph/src/owner.rs:546-575 | what a whole cleanup runs is exactly what the owners had and have no more |
| Channel.ReachableKeeps | halyard_reactive_graph/src/channel.rs:23-77 | in every interleaving the references are counted, items and the flag stay within the notifications, and a waiter's waker is in its slot, woken or on its way |
| Channel.NoLostWakeUp | halyard_reactive_graph/src/channel.rs:23-40 | a parked receiver with the flag set or the sender gone has been woken or a wake is under way |
| Channel.ItemsWithinNotifies | halyard_reactive_graph/src/channel.rs:51-77 | items never outnumber notifications, and a set flag is one not yet answered |
| Channel.WakeArrives | halyard_reactive_graph/src/channel.rs:51-55 | two steps of the sender finish any wake under way, and it reaches the parked task |
| Channel.PollAnswers | halyard_reactive_graph/src/channel.rs:61-77 | a whole poll gives the end if the sender is gone, an item if the flag is set, and else waits |
| Channel.WokenIsAnswered | halyard_reactive_graph/src/channel.rs:23-77 | a parked receiver with something to see is woken, and its next poll gives the item, or the end if the sender is gone |
| Channel.NotifyAnswered | halyard_reactive_graph/src/channel.rs:51-77 | when all is quiet the sender is alive and each notification was followed by an item |
| Channel.DroppedBeforePoll | halyard_reactive_graph/src/channel.rs:61-77 | a run in which the last notification gives no item, because the sender is dropped before the poll |
| Channel.Inner.constructor | halyard_reactive_graph/src/channel.rs:42-49 | a new channel has one reference, no flag and no waker |
| Channel.Inner.Notify | halyard_reactive_graph/src/channel.rs:51-55 | the flag is set and the waker in the slot woken |
| Channel.Inner.PollNext | halyard_reactive_graph/src/channel.rs:61-77 | what is answered, and that a receiver that waits has its waker in the slot and no flag unseen |
| Channel.Inner.Drop | halyard_reactive_graph/src/channel.rs:23-40 | the waker in the slot is woken and no reference is left |
| StrongRead.Thread.TakeRefusal | halyard_reactive_graph/src/reentry.rs:66-71 | the note is given and cleared |
| StrongRead.Thread.WaitFor | halyard_reactive_graph/src/gone.rs:166-197 | the loop does what the specification says, to the cells and as an outcome |
| StrongRead.GivesAttemptsValue | halyard_reactive_graph/src/gone.rs:166-197 | a value given is that of the first attempt to have one, and the recorded site is as it was found |
| StrongRead.EarlierNotesIgnored | halyard_reactive_graph/src/gone.rs:172-173 | whatever was in the cells before, a read has the same outcome |
| StrongRead.DecidesOnOwnEvidence | halyard_reactive_graph/src/gone.rs:176-197 | a read aborts exactly on the note its current attempt left |
| StrongRead.EvidenceExactly | halyard_reactive_graph/src/reentry.rs:61-71 | an attempt leaves a note iff some act of it noted a refusal and no strong read was made after |
| StrongRead.HiddenCycleWaits | halyard_reactive_graph/src/gone.rs:166-197 | a cycle whose refusal is followed by a strong read that comes back is waited for; the other way round it aborts |
| StrongRead.Thread.TakeStrongReadSite | halyard_reactive_graph/src/gone.rs:20-25 | the recorded site is given once, and cleared |
| StrongRead.ReadTakesOwnSite | halyard_reactive_graph/src/gone.rs:20-25 | reads made in the attempts of a strong read are given its site, once each attempt, and never that of a read around it |
| Streaming.StreamBuilder.constructor | halyard_tachys/src/ssr/mod.rs:32-47 | a new builder is empty |
| Streaming.StreamBuilder.PushSync | halyard_tachys/src/ssr/mod.rs:56-59 | text is added at the end of the page |
| Streaming.StreamBuilder.PushAsync | halyard_tachys/src/ssr/mod.rs:62-74 | an async block is added at the end of the page, after the buffer |
| Streaming.StreamBuilder.TakeChunks | halyard_tachys/src/ssr/mod.rs:82-88 | the chunks taken mean the whole page that was built |
| Streaming.StreamBuilder.Append | halyard_tachys/src/ssr/mod.rs:91-98 | the other page is added at the end |
| Streaming.StreamBuilder.Finish | halyard_tachys/src/ssr/mod.rs:101-111 | the buffer is empty and the chunks mean the whole page |
| Streaming.StreamBuilder.PollNext | halyard_tachys/src/ssr/mod.rs:401-546 | whenever futures resolve, a poll gives exactly the next part of the text, sets out-of-order chunks aside in order, and holds no text back while it waits |
| Streaming.StreamBuilder.PollMany | halyard_tachys/src/ssr/mod.rs:401-546 | any number of polls give a prefix of the text, and all of it once only out-of-order chunks are left |
| Streaming.WriteLater | halyard_tachys/src/ssr/mod.rs:468-488 | an out-of-order chunk is written from its last ready chunk to its first |
| Streaming.LaterConcat | halyard_tachys/src/ssr/mod.rs:468-488 | of chunks one after the other the text of the later is written first, and what is to come keeps its order |
| Streaming.WrittenInOrderExactly | halyard_tachys/src/ssr/mod.rs:446-488 | its text is in order, whatever it is, iff at most one of its chunks is ready |
| ErrorBoundary.Collect | halyard/src/error_boundary.rs:460-478 | the chunks collected mean the same page, for every nesting |
| ErrorBoundary.StreamBoundary | halyard/src/error_boundary.rs:401-498 | the boundary adds exactly its children's page, or exactly its fallback if there are errors |
| ErrorBoundary.ThrowAdds | halyard/src/error_boundary.rs:672-693 | with a shared context a thrown error is put at a new id held by its thrower, and no other error changes |
| ErrorBoundary.ClearRemoves | halyard/src/error_boundary.rs:695-699 | clearing takes away the error of that id and no other |
| ErrorBoundary.ThrowReplaces | halyard/src/error_boundary.rs:672-693 | without one the error takes the place of any other |
| ErrorBoundary.DoAllKeepsExact | halyard/src/error_boundary.rs:671-699 | with ids from a shared context the map has exactly the errors thrown and not cleared |
| ErrorBoundary.ExactWithContext | halyard/src/error_boundary.rs:671-699 | errors are shown exactly while one is not cleared, in every run, iff there is a shared context |
| ErrorBoundary.OneClearsBoth | halyard/src/error_boundary.rs:671-699 | without one, clearing one of two errors clears the map while one is still thrown |
| BoundaryView.SwapInPlace | halyard/src/error_boundary.rs:248-262 | inserting before a view and unmounting it puts the new nodes in its place among the siblings |
| BoundaryView.BuildPlaced | halyard/src/error_boundary.rs:269-278 | the first run shows the fallback iff there are errors |
| BoundaryView.ViewState.Run | halyard/src/error_boundary.rs:243-268 | a run shows the fallback iff there are errors, one view only, in the same place between the same siblings |
| BoundaryView.EffectInPlace | halyard/src/error_boundary.rs:243-268 | every run of the effect keeps place, siblings and the hidden view apart |
| BoundaryView.RebuildInPlace | halyard/src/error_boundary.rs:164-168 | children that rebuild themselves take their own place, or stay out of sight, and the siblings are kept |
| BoundaryView.FallbackExactly | halyard/src/error_boundary.rs:232-281 | after every run of throws, clears, rebuilds and effects the place is kept, and when the effect has caught up the fallback is shown iff some thrown error is not cleared |
| Suspense.ReachableKeeps | halyard/src/suspense_component.rs:389-452 | in every schedule a sender not fired is waited for by an effect that will run, and sending comes after a walk over the children |
| Suspense.TasksComeAndGo | halyard/src/suspense_component.rs:386-398 | a task can be added or finished at any time, and a subscribed effect is called for |
| Suspense.NeverSticks | halyard/src/suspense_component.rs:389-452 | when nothing is scheduled and the sender has not fired, the effect is subscribed and there are tasks |
| Suspense.EmptyRunSends | halyard/src/suspense_component.rs:398-445 | a run that finds no task, and whose walk adds none, tells the future and the error boundary |
| Suspense.DoubleChecks | halyard/src/suspense_component.rs:398-448 | a run whose walk finds new tasks says so, and the next that finds none sends without a walk |
| Suspense.SendsOnlyWhenEmpty | halyard/src/suspense_component.rs:398-445 | a run comes to send only having found the set empty, after a further walk over the children |
| Suspense.SentOnce | halyard/src/suspense_component.rs:374-445 | what was sent stays sent, so each sender fires at most once |
| Suspense.ChildrenThere | halyard/src/suspense_component.rs:479-494 | the future always finds the children to resolve: the warning cannot be reached |
| Suspense.FallbackOnlyIfLocal | halyard/src/suspense_component.rs:466-512 | the future ends with the fallback only if a local resource was read |
| Suspense.TasksLead | halyard/src/suspense_component.rs:479-504 | without one, the future's next step takes the children to resolve |
| Suspense.ResolvingResolves | halyard/src/suspense_component.rs:505-523 | and then the only step it can take renders them and disposes of the idle effect |
| Suspense.LocalEnds | halyard/src/suspense_component.rs:466-512 | with one, it can render the fallback, and then the error boundary is told |
| Suspense.EndIsFinal | halyard/src/suspense_component.rs:454-523 | what the future came to is final, and a disposed effect stays so |
| Suspense.BoundaryTold | halyard/src/suspense_component.rs:466-523 | once the future is over the error boundary has been told, or the effect is just telling it |
| ConstConcat.ConstConcat | halyard_tachys/src/const_str_slice_concat.rs:21-44 | an index leaves the buffer iff the total is over 4096; otherwise the buffer is the concatenation and zeros |
| ConstConcat.WriteUntilNul | halyard_tachys/src/const_str_slice_concat.rs:84-92 | exactly what is before the first zero is copied |
| ConstConcat.ConstConcatWithPrefix | halyard_tachys/src/const_str_slice_concat.rs:47-102 | the buffer holds prefix, text and suffix, or the text alone if it is empty; it panics iff one of them is too long |
| ConstConcat.StrFromBuffer | halyard_tachys/src/const_str_slice_concat.rs:9-17 | the text before the first zero, or a panic iff there is none |
| ConstConcat.Template | halyard_tachys/src/const_str_slice_concat.rs:9-44 | the text is the concatenation iff it has at most 4095 bytes and no zero; exactly when it panics |
| ConstConcat.TemplateWithPrefix | halyard_tachys/src/const_str_slice_concat.rs:9-102 | for texts without zeros: empty for an empty concatenation, else prefix, concatenation and suffix while that has at most 4095 bytes, and a panic beyond |

## Left out

- Deadlock freedom across signals: a thread may hold one signal's turn while it waits for another's, so only
  waiting for oneself is excluded. Signals share no state, so each is a run of the model by itself.
- `swap_part` (a write through one part of a value), memos, and the shared read guards of the record.
- Poisoned locks, and weak memory: atomics, locks and the waker slot are sequentially consistent.
- Live accesses of one value are assumed to stay below the largest `usize`, since the counts saturate there.
- Reentry.ThreadRecord.RecordWrite: takes the turn as already taken; waiting for it is a step of `WriterTurn`.
- What axum and its matcher do with a request: `RouteMatch` states their rules (a parameter takes a non-empty
  segment, a catch-all a non-empty rest, a literal goes before a wildcard), and the routers' code is not modelled.
- MacroRoutes.MacroRouteExactly: asks for plain names of optional parameters, since `path!` does not check
  them; and it is about the macro's own segments, not about routes that are nested in others.
- The choice of handler, mode and context for a route, excluded listings, and HTTP itself.
- OwnerRuntime.Runtime.Cleanup: cleanup functions there do nothing to the owners; those that do are in
  `OwnerRuns`, where the frames of nested calls may also interleave, so that order is not stated for them.
- Contexts of owners, `with` and the current owner's restoration, arenas by owner, and the claim that all
  descendants of a paused owner stay paused (an owner made by `Owner::new` starts unpaused).
- Streaming.StreamBuilder.PollNext: stops where only out-of-order chunks are left; how one is put in the place
  of its fallback by its markers is not modelled, only the order in which its text is written.
- Streaming.WriteLater: is the loop for a chunk whose placeholder is gone; the other loop writes the text in the
  same order.
- Errors that a boundary starts with when it is hydrated, and a lost view state. Views are taken to have at
  least one node, as those of tachys do.
- Suspense.EmptyRunSends: is about a run that no other step comes between; an effect that is disposed with its
  owner before it sends, and paused owners, are left out. A further walk after each round of new tasks is not
  claimed: a run told that it is double-checking sends without one.
- The views that Suspense and Transition show in the browser, hydration, and the DOM.
- UTF-8: a text cut at a zero is taken to be valid if the parts are. `const_concat_with_separator` does not
  compute what its documentation says, and is not modelled.
- StrongRead.Thread.WaitFor: an attempt's acts and value are given beforehand, and a thread that is shutting down,
  whose cells cannot be reached, is left out; so are the logging and the report of an abort.
- Code generation by macros other than the parsing in `path!`, conversions, and logging.
