# setlerio core logic in Dafny

A model of the non-drawing logic of setlerio, a small hex-grid city builder.
Each Dafny module stands for one source file. The model covers:

- `Hex` and `LegacyPoint`: axial hex points, the canvas map, rounding, the `"x,y"` hash and its parser, and the point-in-hexagon test.
- `PathFinder`: the forward-only search over hexes with buildings. A visitor predicate can stop it early. Its queue is tied to a reference definition of the same search that advances one shown hex at a time.
- `Gostek`: the carriers (gosteks). The free list and busy map are moved around by the search's visitor.
- `Frame`, `GameEvent` and `EventQueue`: the frame clock, event records, and the queue kept sorted by frame.
- `Drawables`: the registry of draw callbacks under increasing integer handles.
- `Resources` and `Buildings`: the resource ledger and the build rule.
- `Toast`: the toast queue, which fades in one toast at a time.
- `Menu`: the context menu's state, its rectangle and its click bands.
- `Letters` and `Text`: the bitmap glyph encoder, and the decoder, text layout and pixel writes.
- `ColorUtils` and `Colors`: colour-string parsing, darkening, the colour tables and RGBA writes.
- `SpriteStack`: the build step that strips and crops SpriteStack voxel models.
- `Terrain`: the terrain map grown around the origin.
- `ImageCache`: the image memo.
- `DevAssert`: the development assertions.
- `JsBuiltins` and `Wrappers`: the JavaScript built-ins the code relies on (Math.round, split, join, padEnd, String/Number for integers), written out.

Objects and module-level state that the source updates in place are classes:
`Clock`, `EventQueue`, `Drawables`, `Ledger`, `Buildings`, `Toasts`, `Menu`, `PathFinder`, `Gosteks`, `Generator`, `Cache`, `RunOnce`, `Part` and `SpriteModel`.
Their methods say how the state changes.
Pure code is modelled as functions, with lemmas stating what it promises.
Collaborators a file imports are passed in as parameters. These are the occupancy set, the six-entry neighbour table, the current frame, and the random numbers (an oracle).
Hexes that the game keys by their hash are keyed here by the point itself; `Hex.HashInjective` proves the hash is injective on lattice points.

## Model

| member | source | states |
|---|---|---|
| Hex.At | src/hex.ts:15-18 | a point built from two integers is a lattice point |
| Hex.AddSub | src/hex.ts:20-30 | add and sub are componentwise inverses; addCoords(x, y) is add of the point (x, y) |
| Hex.CanvasRoundTrip | src/hex.ts:3-44 | with hex width 160, toCanvas is (120(x+y), 60(x-y)), and toHex inverts it in both orders, exactly over the reals |
| Hex.RoundLattice | src/hex.ts:46-48 | round yields a lattice point, fixes lattice points and is idempotent |
| Hex.LatticeCanvasRoundTrip | src/hex.ts:32-48 | a hex centre mapped to the canvas and back, then rounded, is the same hex |
| Hex.EqualIsIdentity | src/hex.ts:50-52 | equal holds iff both coordinates agree; reflexive and symmetric |
| Hex.HashShape | src/hex.ts:54-60 | the hash of (x, y) is decimal x, a comma, then decimal y |
| Hex.FromHashToHash | src/hex.ts:58-69 | fromHash(toHash(p)) == p for every lattice point |
| Hex.FromHash | src/hex.ts:63-69 | splits the hash on ',' and parses both parts as integers, failing with the message of the first assertion that fails; computes the lattice point otherwise |
| Hex.FromHashInverse | src/hex.ts:63-69 | fromHash succeeds iff splitting on ',' gives exactly two parts and both parse as numbers, failing with the first assertion that fails otherwise; a success is a lattice point whose hash is the input when both parts are canonical |
| Hex.HashInjective | src/hex.ts:58-60 | two lattice points share a hash iff they are equal |
| Hex.IsInHex | src/hex.ts:90-100 | false outside the bounding box of the hex, true in its central band, and otherwise the slanted-edge test on \|x\| and \|y\| |
| Hex.IsInHexOutside | src/hex.ts:90-95 | isInHex is false when \|y\| > 60 or \|x\| > 80 |
| Hex.IsInHexCentralBand | src/hex.ts:90-98 | isInHex is true when \|x\| <= 40 and \|y\| <= 60 |
| Hex.IsInHexSymmetric | src/hex.ts:90-100 | isInHex depends only on \|x\| and \|y\| |
| Hex.VerticesInHex | src/hex.ts:71-78 | there are six hexVertices and each satisfies isInHex |
| Hex.NeighborOffsetsShape | src/hex.ts:80-88 | seven distinct lattice offsets, (0,0) at index 3, and entry 6 - i is the opposite of entry i |
| Hex.NeighborOffsetsAreEdgeNeighbors | src/hex.ts:80-88 | the six non-zero offsets are exactly the hexes whose centres are one edge away on the canvas |
| LegacyPoint.AgreesWithHexPoint | src/point.ts:14-50 | every method of the older point class agrees with the one in src/hex.ts |
| LegacyPoint.AddSub | src/point.ts:14-24 | add then sub is the identity, and addCoords is add |
| LegacyPoint.CanvasRoundTrip | src/point.ts:26-38 | toHex(toCanvas(p)) == p over the reals |
| LegacyPoint.RoundFixesIntegers | src/point.ts:40-42 | round fixes integer points and is idempotent |
| LegacyPoint.EqualIsIdentity | src/point.ts:44-46 | equal holds iff the points are the same |
| JsBuiltins.Round | src/hex.ts:46-48 | Math.round gives the integer within half of r, halves going up |
| JsBuiltins.RoundOfInteger | src/hex.ts:46-48 | Math.round fixes integers |
| JsBuiltins.Split | src/hex.ts:63-67 | split gives at least one part and no part holds the separator |
| JsBuiltins.SplitNoSeparator | src/hex.ts:63-67 | a string without the separator splits into itself alone |
| JsBuiltins.NatToString | src/hex.ts:54-60 | String(n) is one or more decimal digits, with a leading 0 only for 0 |
| JsBuiltins.IntToString | src/hex.ts:58-60 | String(i) never holds a comma, so the hash splits in two |
| JsBuiltins.DigitsOfNat | src/hex.ts:58-68 | the digits of String(n) read back as n |
| JsBuiltins.NatOfDigits | src/hex.ts:63-68 | a digit string without a leading zero is String of its value |
| JsBuiltins.RoundMonotone | src/frame.ts:16-18 | Math.round is monotone |
| JsBuiltins.JoinSplit | src/hex.ts:63-67 | joining the pieces of split(sep) with sep gives back the string |
| JsBuiltins.SplitAtFirst | src/hex.ts:63-67 | splitting a + sep + b, where a has no separator, peels off a |
| JsBuiltins.PadEnd | src/letters.js:391 | padEnd pads with spaces on the right and never truncates |
| JsBuiltins.ParseIntToString | src/hex.ts:58-68 | Number(String(i)) == i, and String(i) is canonical |
| JsBuiltins.IntToStringParse | src/hex.ts:63-68 | String(Number(s)) == s for every canonical decimal string |
| PathFinder.FromMap | src/pathFinder.ts:34-42 | every direction listed is one of the six |
| PathFinder.FromMapForward | src/pathFinder.ts:34-42 | direction d tries d-1, d, d+1 (mod 6); the start code 6 tries all six |
| PathFinder.FromMapDirection | src/pathFinder.ts:34-42 | the table's row for a direction code has DirectionCount entries and its k-th is Direction(code, k): all six in order from the start, else one step back around the hexagon, the same direction, one step on |
| PathFinder.Begin | src/pathFinder.ts:45-46 | the reference search starts with the start alone in the queue, seen, about to try its first direction |
| PathFinder.ShowTries | src/pathFinder.ts:48-57 | one reference step shows the hex in table direction j of entry i, queues and marks it with that direction iff it has a building and was not seen, and moves to the next direction or entry |
| PathFinder.SearchAfter | src/pathFinder.ts:44-59 | the reference search after n hexes are shown and declined; its queue starts with (start, 6) |
| PathFinder.SearchNext | src/pathFinder.ts:47-58 | n + 1 hexes shown is one reference step after n |
| PathFinder.SearchDirections | src/pathFinder.ts:46-56 | every entry the reference search queues has a direction code the table knows |
| PathFinder.ShowGrows | src/pathFinder.ts:54-57 | one reference step only appends to the queue and adds to the seen hexes |
| PathFinder.ShowSaturated | src/pathFinder.ts:54-57 | once every hex with a building is seen, a step changes neither the queue nor the seen hexes |
| PathFinder.SearchGrows | src/pathFinder.ts:47-58 | the reference queue after m hexes is a prefix of the queue after any n >= m |
| PathFinder.SearchFinished | src/pathFinder.ts:47-61 | once every queued entry is expanded the reference search no longer changes |
| PathFinder.SearchSaturated | src/pathFinder.ts:54-57 | once every hex with a building is seen, the reference queue and seen set stay fixed |
| PathFinder.Shifted | src/pathFinder.ts:48-49 | candidate k is neighbour dirs[k] added to the hex |
| PathFinder.Candidates | src/pathFinder.ts:48-50 | an entry shows one hex per direction its code tries |
| PathFinder.PathFinder.constructor | src/pathFinder.ts:32 | debugQueue starts empty |
| PathFinder.PathFinder.PathFind | src/pathFinder.ts:44-62 | the queue starts with (start, 6); every other entry has a building, is reached from an earlier entry in a direction it tries, and holds a hex not queued before; at most \|occupied\| + 1 entries; the predicate is shown the candidates of the entries in queue order; it stops at its first yes, leaving debugQueue alone; otherwise every candidate with a building is queued and debugQueue is the queue; in both cases the queue is exactly the reference search's queue (first discovery, in order, with the direction each hex was found in) after the hexes declined, and a completed search's queue stays that queue however many more hexes are shown |
| PathFinder.PathFinder.Expand | src/pathFinder.ts:48-58 | entry i shows its candidates in order and keeps the search state well formed; if it stops, the predicate's first yes was the last call and the queue is the reference queue after the calls before it; otherwise every candidate with a building of entries 0..i has been seen and the search state is the reference search's after the calls, about to expand entry i + 1 |
| PathFinder.Try | src/pathFinder.ts:49-57 | candidate j of entry i is added to the calls; the search stops iff the predicate says yes to the calls so far, and then nothing else changes; otherwise a candidate with a building ends up seen, the search state stays well formed, and it is the reference search's after one more hex shown |
| PathFinder.Visit | src/pathFinder.ts:54-57 | a candidate with a building that was not seen is marked visited and queued with the direction it was reached in; the search state stays well formed and moves on exactly as the reference search does for that hex |
| PathFinder.QueueShape | src/pathFinder.ts:54-57 | queuing an unseen candidate with a building keeps the queue well formed |
| PathFinder.QueueNext | src/pathFinder.ts:54-57 | the same with the visited set, which stays the set of queued hexes |
| PathFinder.CoveredClosed | src/pathFinder.ts:47-59 | once all entries are expanded, every candidate with a building is queued |
| PathFinder.AllCandidatesPrefix | src/pathFinder.ts:47-58 | the hexes shown for a prefix of the queue are a prefix of those shown for the whole queue |
| PathFinder.DeclinedSnoc | src/pathFinder.ts:51-53 | a predicate that said no to every prefix and no to the next call has said no throughout |
| PathFinder.SeenHas | src/pathFinder.ts:45-56 | every hex in the seen set is the hex of some queue entry |
| Gostek.Table | src/gostek.ts:40 | every entry of freeGostekHashMap is a free gostek standing on its key |
| Gostek.TableMeaning | src/gostek.ts:40 | every free gostek's hex is a key, under the last free gostek on that hex |
| Gostek.MovedMeaning | src/gostek.ts:41-49 | a gostek is moved iff some hex shown to the visitor maps to it |
| Gostek.MovedWereFree | src/gostek.ts:40-47 | every gostek put into busy was free when the call started |
| Gostek.ChargesCountMoved | src/gostek.ts:44-48 | the corrected charge equals the number of gosteks moved |
| Gostek.MovedAtMostCharged | src/gostek.ts:44-48 | as written, the budget is charged at least once per gostek moved |
| Gostek.Visitor | src/gostek.ts:41-51 | the corrected pathFind callback: charges a shown hex only when its gostek has not been moved yet, and stops when the budget is spent |
| Gostek.VisitorAsWritten | src/gostek.ts:41-51 | the callback as written: charges every shown hex found in freeGostekHashMap, moved or not, and stops when left reaches 0 |
| Gostek.ChargesBelowBudget | src/gostek.ts:44-49 | while the corrected visitor declines, its charges stay below a positive budget |
| Gostek.ChargesAsWrittenBelowBudget | src/gostek.ts:44-49 | while the visitor as written declines, its charges stay below a positive budget |
| Gostek.StoppedMeetsBudget | src/gostek.ts:36-49 | when the corrected visitor ends the search, exactly budget-many gosteks were moved |
| Gostek.DeclinedBelowBudget | src/gostek.ts:36-49 | a search the corrected visitor never ended moved fewer gosteks than a positive budget |
| Gostek.StoppedAsWrittenSpendsBudget | src/gostek.ts:44-49 | when the visitor as written ends the search, its charges equal the budget and at most that many gosteks moved |
| Gostek.DeclinedInit | src/pathFinder.ts:51-53 | a visitor that declined every prefix of the calls declined every prefix of the calls before the last |
| Gostek.Delete | src/gostek.ts:46 | Set.delete: the rest holds every free gostek except the one deleted |
| Gostek.DeleteShape | src/gostek.ts:46 | deleting keeps the list without repeats and shrinks it by one iff the gostek was there |
| Gostek.AfterStep | src/gostek.ts:44-48 | one more hex shown moves that hex's gostek from free to busy, if it holds one |
| Gostek.FreeAfterMeaning | src/gostek.ts:44-46 | afterwards the free gosteks are those not moved, still without repeats |
| Gostek.FreeAfterSize | src/gostek.ts:44-46 | the free list shrinks by exactly the number of gosteks moved |
| Gostek.BusyAfterMeaning | src/gostek.ts:44-47 | busy gains exactly the moved gosteks, each under getGostekState(position + (1,1)); the other busy gosteks keep theirs |
| Gostek.Gosteks.HasFree | src/gostek.ts:26-28 | holds iff some gostek is free |
| Gostek.Gosteks.constructor | src/gostek.ts:9-10 | both collections start empty |
| Gostek.Gosteks.Reset | src/gostek.ts:18-24 | busy is emptied; free holds ten distinct gosteks, all on (2,0); hasFree holds afterwards |
| Gostek.Gosteks.Allocate | src/gostek.ts:41-51 | the search runs with the visitor and keeps every promise of pathFind (the reference queue after the hexes declined, the first yes ends it, debugQueue set only when it completes); its effects are applied to free and busy, hex by hex |
| Gostek.Gosteks.Replay | src/gostek.ts:44-47 | free and busy after the visitor's effects for the hexes shown |
| Gostek.Gosteks.UseNClosest | src/gostek.ts:30-52 | with the corrected visitor: needs a free gostek (the dev assertion); the budget is min(n, free count), and a budget of 0 changes nothing; otherwise the search runs from the hex, keeping every promise of pathFind, and the gostek on each hex shown moves from free to busy; exactly budget-many gosteks are moved when the search is ended, fewer when it runs out, and a negative budget never ends it; the free list shrinks by the number moved; no gostek is free twice or both free and busy |
| Gostek.Gosteks.UseNClosestAsWritten | src/gostek.ts:30-52 | the same with the visitor as written, including every promise of pathFind: when it ends the search the charges equal the budget, but at most that many gosteks moved |
| Gostek.TwoBuildings | src/pathFinder.ts:45-56 | the queue of that scenario: the start with code 6, then the buildings in directions 0 and 1; every direction code is valid |
| Gostek.CornerShownTwice | src/pathFinder.ts:47-56 | that search shows twelve hexes: the six neighbours, then three from each building; the hex next to both buildings is the ninth and the tenth |
| Gostek.ShownAround | src/pathFinder.ts:34-49 | the hexes each entry of that queue shows, by direction |
| Gostek.DoubleChargeAsWritten | src/gostek.ts:40-49 | with buildings on the start's neighbours in directions 0 and 1, gosteks on the hex next to both and on a hex not shown, and n = 2: every run of pathFind over those buildings with the visitor as written ends at the tenth hex shown, with the two buildings queued and one gostek moved; the corrected visitor would not end it at those calls |
| Gostek.TwoBuildingsSearch | src/pathFinder.ts:44-59 | over those two buildings the reference queue is always a prefix of the start and the two buildings in directions 0 and 1, and is exactly that once two hexes are shown |
| Gostek.TwoBuildingsShowTwelve | src/pathFinder.ts:47-59 | no search over those two buildings runs out before showing ten hexes |
| Gostek.AcceptsTenth | src/pathFinder.ts:47-53 | a predicate that declines the first nine hexes of a sequence and accepts the tenth stops a search showing them at exactly the tenth call, and a search it never stops shows fewer than ten of them |
| Gostek.StoppedAtTenth | src/pathFinder.ts:44-59 | any run over those two buildings whose predicate declines the first nine hexes and accepts the tenth stops there, with the two buildings queued and the ten hexes as its calls |
| Gostek.DoubleChargeCalls | src/gostek.ts:40-49 | in that scenario the queue shows twelve hexes; the visitor as written declines the first nine and accepts the tenth, though only the corner's gostek moved; the corrected visitor does not accept |
| Gostek.ShownTwice | src/gostek.ts:44-49 | eight hexes without a gostek, then one gostek's hex twice: the visitor as written is charged twice and ends the search with a budget of 2, though one gostek moved; the corrected visitor does not end it |
| Gostek.ShownTwiceDeclined | src/gostek.ts:44-49 | in the same calls, the visitor as written with a budget of 2 declines the first nine |
| Gostek.TwoTable | src/gostek.ts:40 | the table of two free gosteks on different hexes holds both |
| Gostek.NoChargesBefore | src/gostek.ts:44-49 | hexes without a free gostek charge nothing and move nobody |
| Frame.GetNumberOfFrames | src/frame.ts:16-18 | Math.round(d * 60 / 1000), the nearest frame count, halves up; non-negative for d >= 0 |
| Frame.NumberOfFramesMonotone | src/frame.ts:16-18 | monotone in d; 1000 ms is 60 frames; 0 ms is 0 frames |
| Frame.Clock.constructor | src/frame.ts:6 | globalFrame starts at 0 |
| Frame.Clock.GetNextFrame | src/frame.ts:12-14 | globalFrame + 1 + getNumberOfFrames(offset), after globalFrame for offset >= 0 |
| Frame.Clock.GoToNextFrame | src/frame.ts:8-10 | globalFrame goes up by exactly one |
| GameEvent.NewGameEvent | src/gameEvent.ts:17-23 | needs when >= 0 and duration >= 0; frame = globalFrame + 1 + frames(when) > globalFrame; totalFrames = frames(duration) |
| GameEvent.DefaultEvent | src/gameEvent.ts:17 | the defaults give frame globalFrame + 1 and zero frames |
| EventQueue.CompareByFrame | src/eventQueue.ts:31-33 | the sign of the comparison is the order of the frames |
| EventQueue.InsertByFrame | src/eventQueue.ts:17-18 | the event placed after every event whose frame is not later than its own |
| EventQueue.SortByFrame | src/eventQueue.ts:18 | the stable sort by frame: each event inserted, in order, after the equal-frame events before it |
| EventQueue.InsertSorted | src/eventQueue.ts:17-18 | inserting into a sorted queue keeps it sorted and adds exactly one event |
| EventQueue.InsertKeepsAll | src/eventQueue.ts:17 | a push keeps every previous event and adds one |
| EventQueue.InsertPosition | src/eventQueue.ts:17-18 | the new event lands after every event with an equal or earlier frame and before later ones; the others keep their order |
| EventQueue.SortSorted | src/eventQueue.ts:18 | the stable sort gives a sorted permutation |
| EventQueue.SortOfSorted | src/eventQueue.ts:18 | sorting a sorted queue changes nothing |
| EventQueue.PushSortIsInsert | src/eventQueue.ts:17-18 | push then stable sort on a sorted queue is the stable insertion |
| EventQueue.InsertAtEnd | src/eventQueue.ts:17-18 | an event no earlier than all others goes at the end |
| EventQueue.EventQueue.constructor | src/eventQueue.ts:9 | the queue starts empty |
| EventQueue.EventQueue.IsEmpty | src/eventQueue.ts:11-13 | empty iff the length is 0 |
| EventQueue.EventQueue.Push | src/eventQueue.ts:15-19 | needs event.frame > current frame; the queue becomes the stable insertion, sorted, with one more event |
| EventQueue.EventQueue.Peek | src/eventQueue.ts:21-24 | needs a non-empty queue; returns the first event, whose frame is the least; nothing changes |
| EventQueue.EventQueue.Pop | src/eventQueue.ts:26-29 | needs a non-empty queue; removes and returns the earliest event and keeps the rest in order |
| Drawables.Values | src/drawables.ts:27-29 | getDrawables lists the drawables in insertion order |
| Drawables.Drawables.GetDrawables | src/drawables.ts:27-29 | the values of the handle map in insertion order |
| Drawables.WithoutLookup | src/drawables.ts:37-39 | delete removes the handle and leaves every other handle's drawable |
| Drawables.WithoutUnknown | src/drawables.ts:37-39 | deleting an unknown handle changes nothing |
| Drawables.WithoutBounded | src/drawables.ts:37-39 | deleting keeps handles increasing and within their bounds |
| Drawables.Drawables.constructor | src/drawables.ts:23-25 | lastHandle 0 and no drawables |
| Drawables.Drawables.Push | src/drawables.ts:31-35 | returns lastHandle + 1, which is at least 1, never the no-op handle and not in use; appends exactly that entry |
| Drawables.Drawables.Remove | src/drawables.ts:37-39 | removes only the given handle; lastHandle stays |
| Drawables.NoLookupAbove | src/drawables.ts:31-35 | a handle above all handed out is not registered |
| Drawables.NoopHandleNeverRegistered | src/drawables.ts:21 | the no-op handle -1 is never registered, so removing it does nothing |
| Drawables.NoopAbsent | src/drawables.ts:21 | the no-op handle is absent from any registry of positive handles |
| Resources.InitialStockTotal | src/resources.ts:8-14 | the starting stock names all five resources |
| Resources.MissingInfo | src/resources.ts:27-31 | "Not enough name" for each requirement whose count is above the stock, in the requirements' order |
| Resources.MissingInfoMeaning | src/resources.ts:27-31 | one "Not enough name" line per requirement above the stock, in order; empty iff every requirement is covered |
| Resources.Take | src/resources.ts:36 | taking a requirement keeps all five resources |
| Resources.Deducted | src/resources.ts:33-38 | deducting every requirement in turn keeps all five resources |
| Resources.DeductedAmounts | src/resources.ts:33-38 | each resource drops by its total requirement; unnamed resources are unchanged |
| Resources.NothingMissingCanDeduct | src/resources.ts:27-38 | with each resource named once, nothing missing means no deduction assertion fails |
| Resources.Ledger.constructor | src/resources.ts:8-14 | food 0, wood 2, stone 10, iron 0, gold 0 |
| Resources.Ledger.DeduceResources | src/resources.ts:33-38 | needs each count covered when reached; the stock becomes the deducted stock |
| Resources.Ledger.GetMissingResourceInfo | src/resources.ts:27-31 | MissingInfo of the ledger's current stock |
| Buildings.RequirementsWellFormed | src/buildings.ts:14-36 | no building asks for a resource twice, and every count asked for is positive |
| Buildings.BuildCanPay | src/buildings.ts:49-62 | when nothing is missing, the deduction never trips its assertion |
| Buildings.TownCenterAlwaysBuildable | src/buildings.ts:15-19 | the town centre needs nothing |
| Buildings.FirstBuildFromInitialStock | src/buildings.ts:20-35 | from the starting stock a hut or tower can be built once; then only wood is missing |
| Buildings.Buildings.constructor | src/buildings.ts:14-36 | counts 1, 0, 0 |
| Buildings.Buildings.Build | src/buildings.ts:47-65 | on a shortfall the stock and counts stay and the message's removal is queued at getNextFrame(5000), which satisfies push's precondition; otherwise requirements are paid and the count rises by one |
| Toast.Toast.constructor | src/toast.ts:8-12 | a toast holds its text, offset and opacity |
| Toast.SetAdd | src/toast.ts:40-44 | Set.add appends a new object and keeps the set without repeats |
| Toast.SetDelete | src/toast.ts:66-78 | Set.delete removes exactly the object and keeps the rest in order |
| Toast.ToastSchedule | src/toast.ts:47-55 | fade-in starts next frame and lasts 12 frames; fade-out starts 312 frames later and lasts 12 |
| Toast.FadeInValues | src/toast.ts:60-61 | offset is opacity - 1 while fading in |
| Toast.FadeOutValues | src/toast.ts:75-76 | 3 * offset + opacity is 1 while fading out |
| Toast.FadeCurvesMeet | src/toast.ts:30-36 | fade-in starts at (-1, 0) and ends at (0, 1), where fade-out starts; fade-out ends invisible |
| Toast.Toasts.constructor | src/toast.ts:20-22 | no toasts, none waiting, not fading in |
| Toast.Toasts.Add | src/toast.ts:30-36 | a new toast with offset -1 and opacity 0, handed to toastAddObject; the fade-ins queued still all belong to the toast fading in |
| Toast.Toasts.AddObject | src/toast.ts:38-56 | while fading in, the toast waits and nothing is scheduled; otherwise it is shown, becomes the one fading in, its two events are queued, and its fade-in is then the only one queued |
| Toast.Toasts.FadeInStep | src/toast.ts:58-71 | needs the toast to be the one fading in, its own fade-in already taken off the queue; sets the fade-in values; on the last frame the fade-in ends and the oldest waiting toast is added, whose fade-in is then the only one queued; the queued fade-ins always belong to the toast fading in |
| Toast.Toasts.FadeOutStep | src/toast.ts:73-81 | sets the fade-out values; on the last frame the toast is deleted |
| Toast.FadeInsInsert | src/eventQueue.ts:15-19 | pushing an event adds its fade-in, if it is one, to the fade-ins queued and leaves the others |
| Toast.ScheduledFadeIn | src/toast.ts:47-55 | scheduling a toast queues exactly one more fade-in, its own |
| Toast.FadeInsPop | src/eventQueue.ts:26-29 | taking the first event off the queue removes its fade-in, if it is one, from the fade-ins queued |
| Toast.AtMostOneFadeIn | src/toast.ts:39-45 | fade-ins that all belong to the toast fading in number at most one, and none is queued when no toast fades in |
| Menu.MenuRect | src/menu.ts:40-55 | left lies between the padding and the display width less the padded menu width, plus the padding; height is count * 48 |
| Menu.MenuRectPlacement | src/menu.ts:10-14 | left in [16, 728]; centred on the mouse where the clamp does not bite; top is y + 16, moved above the mouse when y > 728; a menu of at most five options fits the display |
| Menu.OptionBandsDisjoint | src/menu.ts:112-119 | half-open bands of different options are disjoint |
| Menu.IsInOption | src/menu.ts:112-119 | the mouse is inside the option's band: within the option width from the left edge and between index and index + 1 option heights below the top |
| Menu.HitIndex | src/menu.ts:96-107 | the first option whose band holds the mouse, or none |
| Menu.HitIndexUnique | src/menu.ts:97-98 | the option under the mouse is the one found |
| Menu.Menu.constructor | src/menu.ts:15-23 | closed, empty rectangle, no-op handle, no options, mouse at (0,0) |
| Menu.Menu.IsOpen | src/menu.ts:25-27 | returns isOpen |
| Menu.Menu.Close | src/menu.ts:29-32 | isOpen false and the handle removed from the drawables; nothing else changes |
| Menu.Menu.Open | src/menu.ts:34-59 | closes, opens, registers a fresh handle, places the rectangle, stores options and mouse |
| Menu.Menu.TryClickOption | src/menu.ts:96-110 | returns whether an option was hit, the first whose band holds the mouse; a hit on a submenu reopens with its options at the last mouse position, removing the old draw callback and registering a new one under the next handle; a hit on an action closes and hands back the action; a miss closes; closing removes only the menu's draw callback and leaves rect, options, mouse and handle as they were |
| Letters.Reverse | src/letters.js:392-393 | reversing keeps the length |
| Letters.Slice | src/letters.js:390 | slice(start, end) is the sub-list when the list is long enough |
| Letters.PadLines | src/letters.js:391 | every line is padded to the width |
| Letters.ReduceReverse | src/letters.js:392-394 | the reduce over the reversed pixels is the closed form with pixel 0 lowest |
| Letters.PackBits | src/letters.js:392-394 | under the sentinel 1, bit i is set iff pixel i is not a space; the sentinel is the top bit |
| Letters.BinaryLength | src/text.ts:100-102 | toString(2) of a number has at least one digit |
| Letters.OneLineAt | src/letters.js:391 | pixel (c, r) is character r * width + c of the one-line form |
| Letters.LetterOfLines | src/letters.js:391-395 | the six lines padded to the width and joined, reversed, then reduced from 1 by doubling and adding 1 for each non-space pixel |
| Letters.Letter | src/letters.js:388-397 | letter(width) of a template: LetterOfLines of lines 1 to 6 of the template split on newlines |
| Letters.LetterOfLinesBits | src/letters.js:391-394 | a glyph of six lines that fit has 6w + 1 binary digits and is at least 1 |
| Letters.LetterOfLinesPixel | src/letters.js:391-394 | the bit of pixel (c, r) is set iff line r has a non-space at column c |
| Letters.SplitJoinLines | src/letters.js:390 | splitting on line breaks gives the lines back first |
| Letters.TemplateLines | src/letters.js:390 | slice(1, 7) of the split template is its six lines |
| Letters.LetterReadsLinesOneToSix | src/letters.js:388-397 | letter(w) drops the text before the first line break and encodes the next six lines |
| Letters.TableWellFormed | src/letters.js:3-386 | every glyph of the table has six lines no wider than its width, and that width is 1 to 5 |
| Letters.LettersShape | src/letters.js:388-397 | every glyph number is at least 1 and has 6 * width + 1 binary digits |
| Letters.GlyphNumberFitsInt32 | src/letters.js:388-397 | every glyph number is below 2^31 and has at most 30 pixel bits |
| Letters.GlyphOfI | src/letters.js:68-75 | 'i' is one column wide and is the number 95 |
| Letters.GlyphOfN | src/letters.js:108 | 'n' is four columns wide |
| Letters.GlyphOfM | src/letters.js:100 | 'm' is five columns wide |
| Letters.GlyphOfW | src/letters.js:180 | 'w' is five columns wide |
| Text.GetLetterWidth | src/text.ts:100-102 | (bit length of the glyph number - 1) / 6 |
| Text.CharWidth | src/text.ts:95-102 | the width a character adds: getLetterWidth of its glyph in whole columns, 0 for a character with no glyph |
| Text.LetterWidthRoundTrip | src/text.ts:100-102 | getLetterWidth(letter(w)(lines)) == w for lines that fit |
| Text.CharWidthIsLetterWidth | src/text.ts:100-102 | in a well-formed table getLetterWidth is a whole number |
| Text.GameTableWellFormed | src/text.ts:7 | the game's glyph table is well formed |
| Text.GameGlyphWidth | src/text.ts:100-102 | every glyph of the game decodes to its declared width, 1 to 5 |
| Text.MaxOf | src/text.ts:88 | Math.max of a non-empty list is an element no smaller than any |
| Text.LineWidths | src/text.ts:88 | the widths of the lines, line by line |
| Text.ReduceWidthsAdvance | src/text.ts:93-98 | the reduce adds the glyph widths to its start value |
| Text.LineWidthAdvance | src/text.ts:93-98 | a line's width is its glyph widths plus one per gap: the pen's advance less one |
| Text.TextSize | src/text.ts:85-91 | getTextSize: the widest line's width, and 9 pixels per line less the 3 of the last gap |
| Text.TextSizeMeaning | src/text.ts:85-91 | height is 9 per line less 3; width is the widest line |
| Text.LayoutWithin | src/text.ts:52-60 | from a pen position whose line fits, every glyph placed stays within the bound and the lines below |
| Text.Layout | src/text.ts:50-59 | where getTextImage draws each glyph: x advances by width plus spacing, a newline returns x to 0 and moves y down a line |
| Text.LayoutInBox | src/text.ts:46-60 | every glyph placed lies inside the getTextSize box |
| Text.PaintLetter | src/text.ts:76-82 | the buffer after the first bits of a glyph keeps its length; its contents are stated by PaintLetterMeaning |
| Text.PaintLetterMeaning | src/text.ts:66-83 | the bytes of every pixel coloured by a set bit hold the colour and 255; every other byte is unchanged |
| Text.CellInImage | src/text.ts:78-80 | a glyph inside the image colours pixels in its own rows and columns only |
| Text.LayoutPixelsInImage | src/text.ts:46-60 | every pixel drawn for a glyph of the layout lies in its own rows and columns inside the text image: no write wraps into the next row or leaves the buffer |
| Text.PaintGlyph | src/text.ts:66-83 | the buffer after drawLetter for one placed glyph keeps its length; a character without a glyph draws nothing |
| Text.PaintAll | src/text.ts:52-60 | the buffer after drawing the placements in order keeps its length |
| Text.PaintAllAppend | src/text.ts:52-60 | drawing one more glyph paints it over the earlier ones |
| Text.DrawLetter | src/text.ts:66-83 | needs a character with a glyph (getLetterWidth of undefined throws); the buffer becomes the glyph painted at its place, as PaintLetterMeaning describes |
| Text.Blank | src/text.ts:48 | a fresh image is all zeros |
| Text.LayoutBreak | src/text.ts:53-55 | a line break moves the pen 9 down to offset 0 |
| Text.LayoutGlyph | src/text.ts:56-58 | any other character is drawn at the pen, which moves by 1 plus its width |
| Text.LayoutDone | src/text.ts:52-60 | at the end of the text the glyphs placed are the layout |
| Text.GetTextImage | src/text.ts:36-64 | needs every character to be a line break or have a glyph; the size is getTextSize; the pixels are a blank image with every glyph of the layout drawn |
| ColorUtils.HexDigitValue | src/colorUtils.js:45 | a hex digit reads as below 16 |
| ColorUtils.HexDigit | src/colorUtils.js:51 | toString(16) of a digit reads back as that digit |
| ColorUtils.HexString | src/colorUtils.js:51 | toString(16) has at least one digit |
| ColorUtils.PadStart | src/colorUtils.js:52 | padStart keeps longer strings and left-pads shorter ones to the width |
| ColorUtils.TrimStart | src/colorUtils.js:45 | parseInt skips leading blanks: what is left starts with no blank |
| ColorUtils.ParseHex | src/colorUtils.js:45 | parseInt(slice, 16): white space skipped, one sign, an optional 0x prefix, then the longest run of hex digits; NaN when there is none |
| ColorUtils.ReadDigits | src/colorUtils.js:45 | the value of the longest leading run of hex digits, or NaN when the string does not start with one |
| ColorUtils.ParseOneCharacter | src/colorUtils.js:45 | a one-character slice reads as its digit, NaN when it is not one |
| ColorUtils.ParseTwoCharacters | src/colorUtils.js:45 | a two-character slice reads as two digits; a digit then anything else reads as that digit, except that "0x"/"0X" is a bare prefix and reads as NaN; a blank or '+' then a digit reads as the digit; '-' then a digit as its negation; anything else as NaN |
| ColorUtils.ShortChannels | src/colorUtils.js:44-46 | a #rgb colour's channels are its three characters, each read as a digit or NaN |
| ColorUtils.LongChannels | src/colorUtils.js:44-46 | a #rrggbb colour's channels are its three character pairs, each read by parseInt |
| ColorUtils.MapToChannels | src/colorUtils.js:44-46 | three channels for a 4- or 7-character colour, each read as parseInt(slice, 16) reads it; a TypeError otherwise |
| ColorUtils.Clamp | src/colorUtils.js:50 | the clamp lies in [0, limit] and fixes values already there |
| ColorUtils.Darken | src/colorUtils.js:40-42 | darken succeeds iff the colour has 4 or 7 characters |
| ColorUtils.Transform | src/colorUtils.js:8-13 | an unknown transform name throws; known names dispatch |
| ColorUtils.ParseHexBound | src/colorUtils.js:45 | one character reads as 0 to 15; two read as -15 to 255, and negative only after a '-' |
| ColorUtils.ChannelRanges | src/colorUtils.js:44-46 | channels lie in [0,15] for 4 characters and in [-15,255] for 7 (a slice such as "-f" is negative) |
| ColorUtils.DarkenChannel | src/colorUtils.js:55-57 | darkenChannel: the channel times 0.5; NaN stays NaN |
| ColorUtils.DarkenedValue | src/colorUtils.js:48-57 | the darkened, rounded, clamped channel is (c + 1) / 2 for a channel in range and 0 for a negative one |
| ColorUtils.NeverPadded | src/colorUtils.js:35-52 | sliceLengthByLength looked up by the colour string gives no padding |
| ColorUtils.DarkenChannelOrder | src/colorUtils.js:48-57 | a darkened channel is at most the channel read iff that channel is not negative |
| ColorUtils.DarkenChannels | src/colorUtils.js:40-57 | darken writes each channel as (c + 1) / 2 in unpadded hex, NaN where unreadable |
| ColorUtils.DarkHexMeaning | src/colorUtils.js:48-57 | the text of one darkened channel |
| ColorUtils.DarkenMeadow | src/colors.ts:18-22 | darken('#0f7') == '#084' |
| ColorUtils.DarkenMountains | src/colors.ts:28-32 | darken('#853') == '#432' |
| ColorUtils.DarkenForest | src/colors.ts:23-27 | darken('#282') == '#141' |
| ColorUtils.DarkenDesert | src/colors.ts:33-37 | darken('#ed0') == '#770' |
| ColorUtils.NotHexIsNaN | src/colorUtils.js:45-52 | a non-hex digit reads as NaN and prints "NaN" |
| ColorUtils.HexPrefixIsNaN | src/colorUtils.js:40-57 | darken('#0x1234') == '#NaN91a': the slice "0x" is a prefix with no digits |
| ColorUtils.SignedChannel | src/colorUtils.js:40-57 | mapToChannels('#-f0000') is [-15, 0, 0], and darken gives '#000' |
| ColorUtils.UnpaddedSixDigitColour | src/colorUtils.js:35-52 | as written, darken('#0a0b0c') == '#566', which loses the colour's length |
| ColorUtils.DarkenPadded | src/colorUtils.js:40-53 | the corrected darken succeeds iff the colour has 4 or 7 characters |
| ColorUtils.PaddedDigits | src/colorUtils.js:51-52 | a value that fits prints as exactly that many digits |
| ColorUtils.PaddedChannel | src/colorUtils.js:48-53 | the corrected channel text has the slice width and reads back as the darkened value |
| ColorUtils.PaddedValue | src/colorUtils.js:51-52 | a value that fits the slice width prints as exactly that many digits and reads back as the value |
| ColorUtils.PaddedJoin | src/colorUtils.js:40-53 | the corrected darken of three read channels keeps the colour's length and reads back as the three darkened values |
| ColorUtils.DarkenPaddedRoundTrip | src/colorUtils.js:40-57 | the corrected darken keeps the colour's length and reads back as the darkened channels |
| ColorUtils.ChannelsOfJoined | src/colorUtils.js:17-46 | channels joined after '#' slice back apart |
| Colors.DarkerIsDarken | src/colors.ts:17-38 | each darker entry is darken of its terrain colour |
| Colors.TerrainColoursDistinct | src/colors.ts:4-7 | the four terrain colours differ |
| Colors.ChannelsIsMapToChannels | src/colors.ts:42-44 | channels['#000'] is mapToChannels('#000') = [0,0,0] |
| Colors.ClampByte | src/colors.ts:48-51 | a Uint8ClampedArray store keeps a value in 0..255 as it is |
| Colors.PutColorSpec | src/colors.ts:46-52 | the four entries from the index hold r, g, b (in range) and 255; stores outside the buffer are dropped; no other entry changes |
| Colors.PutColor | src/colors.ts:46-52 | needs a colour of the channels table; the buffer becomes the putColor write of that colour's channels at the index |
| SpriteStack.Repeat | rollup-plugins/stripSpriteStack.js:82-84 | k copies of the value |
| SpriteStack.Defined | rollup-plugins/stripSpriteStack.js:87 | each value becomes a defined entry, in order |
| SpriteStack.Unfold | rollup-plugins/stripSpriteStack.js:77-91 | unfoldArray: a negative entry -n followed by a value is n copies of it, any other entry is itself |
| SpriteStack.UnfoldEncode | rollup-plugins/stripSpriteStack.js:77-91 | unfolding decodes the run-length encoding; the length is the run counts plus the literals |
| SpriteStack.UnfoldLiterals | rollup-plugins/stripSpriteStack.js:86-88 | a list without negative entries unfolds to itself |
| SpriteStack.UnfoldStep | rollup-plugins/stripSpriteStack.js:80-89 | one step of the loop: a run or a literal |
| SpriteStack.UnfoldArray | rollup-plugins/stripSpriteStack.js:77-91 | the loop computes the unfolding |
| SpriteStack.UnfoldRunStep | rollup-plugins/stripSpriteStack.js:81-85 | a run skips its value entry |
| SpriteStack.UnfoldLiteralStep | rollup-plugins/stripSpriteStack.js:86-88 | a literal is copied |
| SpriteStack.PushRun | rollup-plugins/stripSpriteStack.js:82-84 | counting -k up to 0 pushes k copies |
| SpriteStack.TrimZeros | rollup-plugins/stripSpriteStack.js:41-45 | trimPalette's loop: drops the last entry while it is 0 |
| SpriteStack.TrimZerosMeaning | rollup-plugins/stripSpriteStack.js:41-45 | only trailing zeros go: a prefix, empty or ending in a non-zero; idempotent |
| SpriteStack.RowAt | rollup-plugins/stripSpriteStack.js:60-62 | entry x - x0 of a row is voxel (x, y, z) |
| SpriteStack.SlabAt | rollup-plugins/stripSpriteStack.js:59-63 | row y of a layer follows the rows before it |
| SpriteStack.BoxAt | rollup-plugins/stripSpriteStack.js:58-64 | voxel (x, y, z) follows the layers and rows before it |
| SpriteStack.Crop | rollup-plugins/stripSpriteStack.js:56-64 | the voxels of the unfolded data inside the bounds, z outermost, then y, then x |
| SpriteStack.CropMeaning | rollup-plugins/stripSpriteStack.js:51-64 | (x extent)(y extent)(z extent) voxels, x fastest, then y, then z; the voxel at (x, y, z) of the box is entry x + 128y + 128²z of the unfolded list |
| SpriteStack.PackVoxels | rollup-plugins/stripSpriteStack.js:74 | one code unit per voxel |
| SpriteStack.Unpack | rollup-plugins/stripSpriteStack.js:74 | one colour per code unit |
| SpriteStack.PackRoundTrip | rollup-plugins/stripSpriteStack.js:74 | unpacking gives back every colour c with -32 <= c < 65504; an undefined voxel packs to code unit 0 |
| SpriteStack.Rebased | rollup-plugins/stripSpriteStack.js:67-72 | rebasing keeps the length and any later entries |
| SpriteStack.RebasedMeaning | rollup-plugins/stripSpriteStack.js:66-72 | every axis starts at 0 with its extent kept; idempotent |
| SpriteStack.TrimmedVoxel | rollup-plugins/stripSpriteStack.js:53-75 | a trimmed part at (x, y, z) holds the voxel at (x + x0, y + y0, z + z0) |
| SpriteStack.PushRow | rollup-plugins/stripSpriteStack.js:60-62 | the inner loop pushes the row |
| SpriteStack.PushSlab | rollup-plugins/stripSpriteStack.js:59-63 | the middle loop pushes the layer |
| SpriteStack.CropLoops | rollup-plugins/stripSpriteStack.js:57-64 | the three loops push the box |
| SpriteStack.Part.constructor | rollup-plugins/stripSpriteStack.js:15 | a parsed part |
| SpriteStack.Part.TrimPart | rollup-plugins/stripSpriteStack.js:53-75 | data becomes the packed crop, bounds are rebased in place, size is the x and y extents |
| SpriteStack.SpriteModel.constructor | rollup-plugins/stripSpriteStack.js:15 | a parsed model |
| SpriteStack.SpriteModel.DeleteUnusedProperties | rollup-plugins/stripSpriteStack.js:29-39 | formatVersion, fileType, size, bounds and each part's uuid and hidden go |
| SpriteStack.SpriteModel.TrimPalette | rollup-plugins/stripSpriteStack.js:41-45 | the palette loses its trailing zeros |
| SpriteStack.SpriteModel.TrimParts | rollup-plugins/stripSpriteStack.js:47-49 | every part is trimmed |
| SpriteStack.SpriteModel.Transform | rollup-plugins/stripSpriteStack.js:10-25 | kept iff the filter accepts it and it is a format-2 SpriteStack model; otherwise unchanged; a kept model is stripped and never stripped again |
| Terrain.BudgetStep | src/terrain.ts:42-49 | a step with left > 0 uses one tile of ⌈left⌉ |
| Terrain.Pick | src/terrain.ts:48 | floor(random * 6) is a neighbour index |
| Terrain.Walk | src/terrain.ts:31-54 | the hexes one addSpecial call paints, in order: none from a forbidden hex (unless ignored) or once left <= 0, else the hex and then the walk from the neighbour the next draw picks, with one less left |
| Terrain.Paint | src/terrain.ts:46 | the map after hashToTerrain.set of the terrain for each hex of the walk, in order |
| Terrain.PaintMeaning | src/terrain.ts:46 | painted hexes get the terrain; all other keys keep theirs |
| Terrain.PaintedWalk | src/terrain.ts:46 | painting keeps keys lattice points, drops none and adds the walk's start |
| Terrain.Around | src/terrain.ts:51-53 | the union of the neighbours of the walk's hexes, which the loop after the recursive call forbids |
| Terrain.AroundMeaning | src/terrain.ts:51-53 | the forbidden additions are exactly the neighbours of the painted hexes |
| Terrain.WalkMeaning | src/terrain.ts:31-54 | the walk is empty iff the hex is forbidden (unless ignored) or left <= 0; otherwise it starts at the hex and has at most ⌈left⌉ tiles (exactly that many when ignoring), each a neighbour of the one before and none forbidden when checking |
| Terrain.SpecialSizes | src/terrain.ts:20-36 | a desert region has 1 to 2 tiles, a mountain region 3 to 5 |
| Terrain.RegionWalk | src/terrain.ts:75-79 | a second-pass region is empty iff its hex is forbidden; otherwise it starts at the hex, has at most 5 (mountains) or 2 (desert) tiles, none forbidden |
| Terrain.ShortWalk | src/terrain.ts:46-49 | a walk of at most two tiles covers only its hex and one neighbour of it |
| Terrain.Generator.constructor | src/terrain.ts:26-29 | empty map; the forbidden set starts as the neighbours of the origin |
| Terrain.Generator.Random | src/terrain.ts:36 | one draw of Math.random: the next oracle value; nothing else changes |
| Terrain.Generator.AddSpecial | src/terrain.ts:31-54 | the map becomes the old map with the walk painted in the terrain; every neighbour of every painted hex is forbidden; one draw per tile placed |
| Terrain.Generator.ForbidAround | src/terrain.ts:51-53 | every neighbour of the hex is forbidden |
| Terrain.Generator.AddSpecialInRange | src/terrain.ts:31-37 | left is drawn from the range first, then the walk is painted and its neighbours forbidden |
| Terrain.Generator.SeedDeserts | src/terrain.ts:56-63 | every ring hex (28 - 1.5 < distance < 28) gets a terrain, the map holds only desert, and every hex it adds is a ring hex or one neighbour-table step from one |
| Terrain.Generator.SeedDesert | src/terrain.ts:58-61 | left is drawn from [1, 2], then a desert walk of 1 or 2 tiles from the hex is painted with the check ignored and its neighbours forbidden; the hex and at most one neighbour of it are added |
| Terrain.Generator.Fill | src/terrain.ts:65-86 | every hex within distance 28 gets a terrain; no key is dropped; keys stay lattice points |
| Terrain.Generator.StartRegion | src/terrain.ts:75-79 | left is drawn from the range, then the walk from the hex, checked against the forbidden set, is painted in the terrain and its neighbours forbidden; the hex gains a terrain iff it had one or the walk is non-empty |
| Terrain.Generator.FillHex | src/terrain.ts:67-84 | a hex with a terrain keeps it and draws nothing; otherwise a draw below 0.4 makes it meadow and below 0.85 forest; below 0.95 a mountain region and from 0.95 a desert region is walked from it with left drawn next, and the hex is left meadow when the walk is empty |
| Terrain.DiskBounds | src/terrain.ts:56-67 | a hex of the disk lies strictly within 28 of the origin on both axes, so the loops reach it |
| Terrain.TerrainInit | src/terrain.ts:23-88 | every hex within 28 of the origin has a terrain; the origin is meadow; keys are lattice points |
| ImageCache.Keys | src/imageCache.ts:6 | String of each item |
| ImageCache.Key | src/imageCache.ts:6 | String(hash): a string is itself, a number its decimal rendering, an array its items' keys joined by commas |
| ImageCache.KeyOfArray | src/imageCache.ts:6 | an array's key is its items' keys joined by commas |
| ImageCache.Flatten | src/imageCache.ts:3-6 | nested arrays flatten into the key |
| ImageCache.CommaCollision | src/imageCache.ts:6 | different hashes can share a key |
| ImageCache.Cache.constructor | src/imageCache.ts:1 | the cache starts empty |
| ImageCache.Cache.UseImageCache | src/imageCache.ts:5-11 | getImage is called iff the key is new, and stored under it; the stored value is returned; other keys are unchanged |
| DevAssert.MessageText | src/devAssert.ts:6 | the thrown text: the message, or the result of calling it when it is a function |
| DevAssert.Assert | src/devAssert.ts:1-8 | throws the message iff not in production and the predicate is falsy; a function predicate is called only outside production |
| DevAssert.RunOnce.constructor | src/devAssert.ts:10 | no label set yet |
| DevAssert.RunOnce.AssertRanOnce | src/devAssert.ts:12-20 | the first call with a label records it; a repeat throws; labels do not interfere; nothing happens in production |

## Left out

- All canvas, DOM and dat.gui work: drawText, drawGosteks, drawPathFinder, drawTerrain, drawToasts, drawMenu, the progress bar, display, blinker, engine and index. These are foreign calls.
- stripSpriteStack.js: createFilter is a boolean parameter of Transform; JSON.parse and JSON.stringify are left out (the model starts from the parsed object).
- Floating-point rounding: coordinates, durations and fade values are exact reals; getNumberOfFrames uses exact rational rounding.
- Number() quirks in fromHash (empty string, blanks, exponents, hex forms): only decimal integers are parsed.
- Math.random in terrain.ts is an oracle of draws in [0, 1); the distance tests are exact integer comparisons.
- JsBuiltins.IntToString: no exponent form, since game coordinates are small integers.
- PathFinder.PathFinder.PathFind: `buildings.has` and `neighborHexes` are imports that src/buildings.ts and src/hex.ts do not define in the form used, so the built-up hexes and the six-entry neighbour table are the parameters `occupied` and `neighbors`; the visited set holds points rather than hashes (the hash is injective on lattice points); the predicate is a function of the calls so far, which the gostek visitor's closure state needs.
- Gostek.Gosteks.Allocate: the visitor's effects on free and busy are applied after the search, call by call, instead of inside the closure; the same calls are made in the same order.
- Gostek.Gosteks.UseNClosest: getGostekState is a pure function; a non-integer n (left never reaching 0) is not modelled.
- gostekInit, pathFinderInit, toastInit, resourcesInit and buildingsInit: assertRanOnce plus drawable, dat.gui or DOM registration, not modelled.
- terrainInit's last loop (src/terrain.ts:90-100) only registers a drawable per hex and is not modelled.
- Text.CharWidth: a character without a glyph counts as width 0, where getLetterWidth would throw on undefined.
- Text.GetTextImage: the two useImageCache layers and the canvas copy are not modelled; drawLetter's 32-bit `&` and `<<` are read as bit tests, which Letters.GlyphNumberFitsInt32 justifies.
- Priority: the five drawable priorities are a subset type below drawableMaxPriority rather than a lemma.
- src/need.ts is not part of this model: it calls resourcesReserveMax, which src/resources.ts does not define.
- src/config.ts is not part of this model; its display size (1000 x 1000) is used as constants. src/assert.ts repeats devAssert's assert, which appears as requires clauses.
- SpriteStack.SpriteModel.Transform: requires every part of an accepted format-2 file to hold run-length data and six bounds, as the editor writes them; other JSON shapes are not modelled.
- Gostek.Gosteks.Reset: gosteks carry an identity number, standing for the distinct objects `new Point(2, 0)` creates.
- Toast.Toasts.AddObject and EventQueue.EventQueue.Push: src/toast.ts:47-55 pushes plain `{run, duration}` and `{run, when, duration}` objects with no `frame`, and src/eventQueue.ts:2 imports a `frame` that src/frame.ts does not export (it exports `globalFrame`). The model reads each push as the event `new GameEvent` would build from those fields at the current frame, `NewGameEvent(globalFrame, when, duration, run)`, and passes `clock.globalFrame` as the frame the push is checked against.
- ColorUtils.ParseSigned: "-0" reads as the integer 0, where JavaScript gives -0; both darken and print as "0".

## Findings

| source | as written | input that shows it | evidently intended | confidence | as-written member | corrected member |
|---|---|---|---|---|---|---|
| src/colorUtils.js:35-52 | padStart(sliceLengthByLength[color], '0') looks the width up by the colour string, so no channel is ever zero-padded | darken('#0a0b0c') gives '#566' | sliceLengthByLength[color.length], so a six-digit colour stays six digits | not executed | ColorUtils.UnpaddedSixDigitColour | ColorUtils.DarkenPaddedRoundTrip |
| src/gostek.ts:40-49 | freeGostekHashMap keeps a gostek after it is moved, and pathFind (src/pathFinder.ts:47-57) shows a hex once for every queued neighbour, so `left` is charged again for a gostek already busy | buildings on the start's neighbours in directions 0 and 1, free gosteks on the hex next to both and on a hex not shown yet, n = 2: the search ends at the tenth hex with one gostek moved | charge each gostek once, so the search ends once n gosteks are moved | not executed | Gostek.DoubleChargeAsWritten | Gostek.Gosteks.UseNClosest |
