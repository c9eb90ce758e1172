# Ticket system fare engine, in Dafny

A model of the core of a Minecraft (Forge) railway ticket-system mod and of the
web pages it serves. The mod keeps a registry of stations, lines and fares,
prices journeys (a direct fare, else the cheapest route, else a distance
estimate), serves the fares over HTTP, and runs ticket gates and ticket
machines in the world. Its browser pages draw fare charts, edit segment fares,
log in through a SHA-256 digest, show the access log and choose the API base.

One Dafny module per source component, one file per module:

- `main_fares.dfy`, `fare_grid.dfy`, `main_chart.dfy`, `main_editor.dfy`:
  the fare engine of the main page (name keys, segment fares, line sums,
  transfers through same-name stations, the fare grid, the chart cells, the
  segment editor).
- `console_fares.dfy`: the same engine as copied into the console page.
- `fare_engine.dfy`: the server-side FareCalculationEngine (station groups,
  line sums, transfer fares, the fare matrix, fare-data validation).
- `fare_data.dfy`, `station_data.dfy`, `line_data.dfy`, `route_data.dfy`: the
  Fare, Station, Line and Route data classes.
- `network.dfy`: NetworkManager as a class `Registry` over maps of stations,
  lines and fares; `fare_manager.dfy`: FareManager.
- `route_graph.dfy`, `search_state.dfy`, `route_calc.dfy`: RouteCalculator's
  neighbour graph and Dijkstra search, with the returned price proved minimal.
- `price_spec.dfy`, `price_calc.dfy`: PriceCalculator with its bounded cache.
- `fares_api.dfy`: the `/api/fares` handler of the web server (GET, POST,
  bulk POST, PUT, DELETE).
- `gate.dfy`, `nbt.dfy`, `ticket_machine.dfy`: the gate and ticket-machine
  block entities, with their saved tags modelled as typed maps.
- `station_mgr.dfy`, `station_compat.dfy`: StationManager and
  StationManagerCompat.
- `id_gen.dfy`, `random_id.dfy`: IdGenerator and RandomIdGenerator.
- `sha256.dfy`, `login.dfy`: the JavaScript SHA-256 fallback, proved equal to
  FIPS 180-4 below 2^29 bytes, and the login page.
- `logs.dfy`: the log viewer's filtering, sorting, escaping and grouping.
- `api_config.dfy`: the API-base chooser and its fetch wrapper.
- `text.dfy`, `wrappers.dfy`: string helpers shared by the modules (trim,
  ASCII lower case, split, parsing of ASCII decimal integers with Java and
  JavaScript rules) and
  an `Option` type.

Loops of the source are methods with loop invariants, proved equal to
functions that state the result; objects that update their fields are
classes. Besides the direct contracts, the model proves several behaviours of
the code as written:

- a segment edited on the main page is posted with a body the server's bulk
  path turns into no entry, so it is answered 400 (`FaresApi.EditorPostRejected`);
- the fare-map key `from + "-" + to` is not injective (`Network.FareKeyCollides`);
- because that key is not injective, a PUT can remove a different pair's fare
  stored under the same key and then fail to add its own
  (`FaresApi.PutCollisionLosesFare`);
- a gate's same-gate check reads tag keys that a pass never writes, so it
  never refuses a ticket stamped by the gates (`Gate.SameGateNeverFires`);
- a cache hit in PriceCalculator returns the undiscounted price;
- repeated init stacks fetch wrappers, so a cleared API base still redirects
  through the stale wrapper (`ApiConfig.StaleRedirect`, `ApiConfig.SaveThenClear`);
- the log viewer offers an "unknown" address that matches none of the entries
  without an address (`Logs.UnknownOptionMissesEntriesWithoutIp`);
- the JavaScript padding differs from FIPS 180-4 once the message reaches
  2^29 bytes (`Sha256.PadDiffersAtLimit`).

## Model

| member | source | states |
|---|---|---|
| MainFares.NameKey | src/main/resources/assets/ticketsystem/html/main.js:58 | the name key always contains the '\|' separator, and two empty names give exactly "\|" |
| MainFares.NameKeyHasBar | src/main/resources/assets/ticketsystem/html/main.js:58 | trimming and lower-casing never remove the '\|' between the two names |
| MainFares.NameKeyOfNoNames | src/main/resources/assets/ticketsystem/html/main.js:816-818 | a station with neither name still gets the non-empty key "\|", so the `if(!k)` guard never skips it |
| MainFares.TierValue | src/main/resources/assets/ticketsystem/html/main.js:848 | a record's tier price is the tier field read through Number(…)\|\|0 when it is set, as a number or a string (so "" gives 0 and never the cost), else the legacy cost read the same way |
| MainFares.FareIndex | src/main/resources/assets/ticketsystem/html/main.js:847 | find(from→to) returns the first record stored in that direction, and none before it matches |
| MainFares.EitherIndex | src/main/resources/assets/ticketsystem/html/main.js:1003 | find in either direction returns the first record joining the two codes, and none before it does |
| MainFares.EitherIndexSymmetric | src/main/resources/assets/ticketsystem/html/main.js:1003 | the either-direction lookup finds the same record for (a, b) and (b, a) |
| MainFares.SegFareFromRecord | src/main/resources/assets/ticketsystem/html/main.js:846-861 | segFare is 0 when no record joins the codes, and a non-zero segFare is the tier price of a record joining them |
| MainFares.ParseCodeNoDash | src/main/resources/assets/ticketsystem/html/main.js:833-836 | a code without '-' parses as all prefix, number 0 |
| MainFares.ParseCodeNumber | src/main/resources/assets/ticketsystem/html/main.js:835 | the parsed station number is never negative |
| MainFares.ParseCodePrefix | src/main/resources/assets/ticketsystem/html/main.js:834 | the parsed prefix is the text before the first '-' and holds no '-' |
| MainFares.SplitCode | src/main/resources/assets/ticketsystem/html/main.js:834 | prefix + '-' + digits splits into exactly those two pieces |
| MainFares.ParseSynthCode | src/main/resources/assets/ticketsystem/html/main.js:888-889 | the codes sumLineFare synthesises with padStart(2,'0') parse back to their prefix and number |
| MainFares.SegSumSplit | src/main/resources/assets/ticketsystem/html/main.js:887-893 | the loop's sum over lo..hi is the sum over lo..mid plus the sum over mid..hi |
| MainFares.LineFareDefined | src/main/resources/assets/ticketsystem/html/main.js:873-882 | sumLineFare is non-null exactly when both codes have the same non-empty line prefix |
| MainFares.LineFareSymmetric | src/main/resources/assets/ticketsystem/html/main.js:883 | sumLineFare(a, b) equals sumLineFare(b, a), because it walks from min to max |
| MainFares.LineFareSelf | src/main/resources/assets/ticketsystem/html/main.js:883-887 | a station is 0 from itself on its line, and null when its code has no prefix |
| MainFares.LineFareAdditive | src/main/resources/assets/ticketsystem/html/main.js:884-893 | on one line the fare x→z is the fare x→y plus the fare y→z for x ≤ y ≤ z |
| MainFares.SumSegments | src/main/resources/assets/ticketsystem/html/main.js:884-893 | the loop adds segFare of each adjacent pair from lo up to hi, giving the leg sum |
| MainFares.SumLineFare | src/main/resources/assets/ticketsystem/html/main.js:872-905 | the method returns the same-line value: null across lines, else the sum of the legs between the two numbers |
| MainFares.LinePricesSymmetric | src/main/resources/assets/ticketsystem/html/main.js:883 | the same-line price function is symmetric in its two codes |
| MainFares.TransferFareIsCheapest | src/main/resources/assets/ticketsystem/html/main.js:948-981 | the transfer value is null exactly when no entry/exit pair in any group has both legs; otherwise it is one such pair's sum and no pair is cheaper |
| MainFares.TransferFareSymmetric | src/main/resources/assets/ticketsystem/html/main.js:951-970 | with a symmetric line price the cheapest transfer a→b equals the one b→a |
| MainFares.WithTransferSymmetric | src/main/resources/assets/ticketsystem/html/main.js:936-982 | sumWithTransfer gives the same value in both directions |
| MainFares.SumWithTransfer | src/main/resources/assets/ticketsystem/html/main.js:936-982 | the method returns the direct line value when it exists, else the cheapest transfer over all groups and member pairs |
| MainFares.ScanGroup | src/main/resources/assets/ticketsystem/html/main.js:952-969 | scanning one group folds every candidate of its entry/exit pairs into the running best, in loop order |
| MainFares.ScanExits | src/main/resources/assets/ticketsystem/html/main.js:955-968 | scanning the exit members folds each candidate vi + vj into the running best |
| MainFares.KeepCheaper | src/main/resources/assets/ticketsystem/html/main.js:967 | `if(best===null \|\| cand<best) best=cand` is the minimum of best and cand |
| MainFares.BestFareBetweenCodes | src/main/resources/assets/ticketsystem/html/main.js:1000-1022 | a fare shown in the chart is always positive |
| MainFares.BestFareSymmetric | src/main/resources/assets/ticketsystem/html/main.js:1000-1006 | bestFareBetweenCodes(a, b) equals bestFareBetweenCodes(b, a) |
| MainFares.BestFareSameLine | src/main/resources/assets/ticketsystem/html/main.js:1005-1006 | a positive same-line sum is the chart value |
| MainFares.BestFareZeroLine | src/main/resources/assets/ticketsystem/html/main.js:1005-1006 | a same-line sum of 0 blocks the transfer search, leaving only the directly stored record |
| MainFares.BestFareAcrossLines | src/main/resources/assets/ticketsystem/html/main.js:1005-1006 | codes on different lines show the cheapest positive transfer |
| MainFares.LinesForMember | src/main/resources/assets/ticketsystem/html/main.js:1042-1047 | linesForStation[code] lists exactly the lines whose stations include code |
| MainFares.FindShared | src/main/resources/assets/ticketsystem/html/main.js:1067 | the shared line found belongs to a's lines and shares an id with one of b's; none means no line of a shares an id with b |
| MainFares.FindTouching | src/main/resources/assets/ticketsystem/html/main.js:1071-1072 | the line found is one of the given lines and has a station in the group |
| MainFares.ViaGroups | src/main/resources/assets/ticketsystem/html/main.js:1070-1080 | the transfer branch gives at most two colours, and one colour only when a line of a and a line of b share an id |
| MainFares.ColorsForRoute | src/main/resources/assets/ticketsystem/html/main.js:1063-1081 | colorsForRoute returns at most two colours |
| MainFares.ColorsForRouteOneColor | src/main/resources/assets/ticketsystem/html/main.js:1063-1081 | exactly one colour is returned exactly when a and b lie on a common line |
| FareGrid.InsertPerm | src/main/resources/assets/ticketsystem/html/main.js:813 | inserting one station into a sorted list keeps exactly the same elements plus it |
| FareGrid.InsertSorted | src/main/resources/assets/ticketsystem/html/main.js:813 | inserting into a list sorted by code keeps it sorted and one longer |
| FareGrid.SortByCorrect | src/main/resources/assets/ticketsystem/html/main.js:813 | sorting stations by code gives an ascending order and a permutation of the input |
| FareGrid.FindGroup | src/main/resources/assets/ticketsystem/html/main.js:819 | the group lookup finds the group with that key, or reports that no group has it |
| FareGrid.CodesWithKeySnoc | src/main/resources/assets/ticketsystem/html/main.js:820 | one more station adds its code to its own key's list only |
| FareGrid.AddStationDistinct | src/main/resources/assets/ticketsystem/html/main.js:819-820 | adding a station keeps the group keys distinct |
| FareGrid.AddStationCodes | src/main/resources/assets/ticketsystem/html/main.js:819-820 | after adding a station each group lists exactly the codes, in order, of the stations with its key |
| FareGrid.AddStationFind | src/main/resources/assets/ticketsystem/html/main.js:819-820 | after adding a station a key has a group exactly when some station seen so far has that key |
| FareGrid.GroupStationsExact | src/main/resources/assets/ticketsystem/html/main.js:815-821 | grouping gives one group per key, listing exactly the codes of the stations with that key, in input order |
| FareGrid.StationInItsGroup | src/main/resources/assets/ticketsystem/html/main.js:816-820 | every station's code is in the group of its own key |
| FareGrid.GroupByKey | src/main/resources/assets/ticketsystem/html/main.js:815-821 | the grouping loop builds the same groups as the grouping function |
| FareGrid.DisplayGroupsExact | src/main/resources/assets/ticketsystem/html/main.js:813-822 | the display groups are sorted by first code, are a permutation of the key groups of the code-sorted stations, and each lists exactly its key's codes |
| FareGrid.TransferGroups | src/main/resources/assets/ticketsystem/html/main.js:921 | every transfer group has more than one member |
| FareGrid.TransferGroupsExact | src/main/resources/assets/ticketsystem/html/main.js:914-921 | the transfer groups are exactly the name groups with more than one code |
| FareGrid.PairRow | src/main/resources/assets/ticketsystem/html/main.js:1138-1139 | the row of prices for one entry code holds bestFare(a, b) for each b, in order |
| FareGrid.CellMinIsCheapest | src/main/resources/assets/ticketsystem/html/main.js:1136-1143 | a cell is empty exactly when no member pair has a fare; otherwise it is one pair's fare and no pair is cheaper |
| FareGrid.CellSymmetric | src/main/resources/assets/ticketsystem/html/main.js:1136-1143 | with a symmetric price the cell (ga, gb) equals the cell (gb, ga) |
| FareGrid.KeepMin | src/main/resources/assets/ticketsystem/html/main.js:1141 | `best = best==null ? v : Math.min(best, v)` is the minimum of the optional best and v |
| FareGrid.KeepMax | src/main/resources/assets/ticketsystem/html/main.js:1031 | `best = best==null ? v : Math.max(best, v)` is the maximum of the optional best and v |
| FareGrid.RowMin | src/main/resources/assets/ticketsystem/html/main.js:1138-1142 | the inner loop folds every bestFare(a, b) of the row into the running minimum |
| FareGrid.GridCell | src/main/resources/assets/ticketsystem/html/main.js:1136-1143 | the nested loop computes the cell's cheapest member-pair fare |
| FareGrid.CellMaxIsMax | src/main/resources/assets/ticketsystem/html/main.js:1028-1032 | the largest member-pair fare is at least every pair's fare |
| FareGrid.MaxFareBounds | src/main/resources/assets/ticketsystem/html/main.js:1023-1037 | computeMax is at least 1 and at least every off-diagonal pair fare, and it is 1 or one of those fares |
| FareGrid.CellWithinMax | src/main/resources/assets/ticketsystem/html/main.js:1023-1037 | with positive fares, every non-empty off-diagonal cell is positive and at most computeMax |
| FareGrid.RowMax | src/main/resources/assets/ticketsystem/html/main.js:1029-1032 | the inner loop folds every pair fare of the row into the running maximum |
| FareGrid.PairMax | src/main/resources/assets/ticketsystem/html/main.js:1028-1032 | the pair loop computes the largest member-pair fare of two groups |
| FareGrid.MaxOverRow | src/main/resources/assets/ticketsystem/html/main.js:1026-1034 | one pass over gb raises maxV to every off-diagonal group maximum of row ga |
| FareGrid.ComputeMax | src/main/resources/assets/ticketsystem/html/main.js:1023-1037 | the method returns computeMax as specified: the largest off-diagonal fare, at least 1 |
| FareGrid.AddNewSet | src/main/resources/assets/ticketsystem/html/main.js:1084-1088 | adding colours to the Set keeps it duplicate-free, holds exactly the old and new colours, and keeps insertion order |
| FareGrid.AddNewAppend | src/main/resources/assets/ticketsystem/html/main.js:1085-1087 | adding two batches of colours one after the other is adding their concatenation |
| FareGrid.GroupColorsBounds | src/main/resources/assets/ticketsystem/html/main.js:1083-1089 | a cell has at most three distinct colours, all taken from its member pairs' routes, and all of them when there are no more than three |
| FareGrid.AddColors | src/main/resources/assets/ticketsystem/html/main.js:1086 | the loop adds each colour not yet in the Set, in order |
| FareGrid.ColorsForGroups | src/main/resources/assets/ticketsystem/html/main.js:1083-1089 | the method returns the first three distinct route colours of the member pairs |
| FareGrid.BuildRow | src/main/resources/assets/ticketsystem/html/main.js:1132-1168 | a grid row is '-' on the diagonal and, elsewhere, the cheapest pair fare with the cell's colours |
| FareGrid.BuildGrid | src/main/resources/assets/ticketsystem/html/main.js:1127-1170 | the grid is square, '-' on the diagonal, and every other cell is its cheapest pair fare with its colours |
| FareGrid.GroupCodes | src/main/resources/assets/ticketsystem/html/main.js:1127 | the grid's rows follow the display groups' code lists in order |
| MainChart.SameNameGroups | src/main/resources/assets/ticketsystem/html/main.js:914-921 | every same-name group has more than one code |
| MainChart.SameNameGroupsExact | src/main/resources/assets/ticketsystem/html/main.js:914-921 | the same-name groups are exactly the name-key groups of the stations, in input order, that hold more than one code |
| MainChart.KeyedStation | src/main/resources/assets/ticketsystem/html/main.js:915-919 | a key with codes comes from some station carrying that key |
| MainChart.ChartFare | src/main/resources/assets/ticketsystem/html/main.js:1000-1022 | the chart's price function is symmetric and every price it gives is positive |
| MainChart.BestFareSymmetricAll | src/main/resources/assets/ticketsystem/html/main.js:1000-1006 | bestFareBetweenCodes is symmetric for every pair of codes |
| MainChart.ChartColors | src/main/resources/assets/ticketsystem/html/main.js:1063-1081 | each pair of codes gets at most two route colours |
| MainChart.RenderFareCharts | src/main/resources/assets/ticketsystem/html/main.js:799-1179 | both charts are built over the display groups, are square with '-' on the diagonal, hold each pair's cheapest fare and colours elsewhere, and carry computeMax of their tier |
| MainChart.ChartSymmetric | src/main/resources/assets/ticketsystem/html/main.js:1136-1143 | the chart cell for (ga, gb) equals the cell for (gb, ga) |
| MainChart.ChartCellsBounded | src/main/resources/assets/ticketsystem/html/main.js:1023-1037 | every non-empty chart cell is positive and at most the chart's scale maximum |
| MainEditor.FormatWindow | src/main/resources/assets/ticketsystem/html/main.js:263-267 | a 10-character window becomes "YYYY-MM-DD HH:00", an 8-character one "YYYY-MM-DD", anything else is shown unchanged |
| MainEditor.FormatWindowRoundTrip | src/main/resources/assets/ticketsystem/html/main.js:263-267 | removing the inserted separators from a formatted window gives back the original window |
| MainEditor.FirstIndex | src/main/resources/assets/ticketsystem/html/main.js:492 | findIndex (and the line list's indexOf) returns the first position of the element, or reports that it is absent |
| MainEditor.ToggledFlips | src/main/resources/assets/ticketsystem/html/main.js:492-494 | a bulk click adds a segment that was not selected and removes one that was, leaves the others alone, and keeps the selection duplicate-free |
| MainEditor.ToggledTwice | src/main/resources/assets/ticketsystem/html/main.js:492-494 | clicking the same segment twice restores the selection |
| MainEditor.BulkSelection.SetBulkMode | src/main/resources/assets/ticketsystem/html/main.js:86-89 | setBulkMode sets the flag and keeps the selection |
| MainEditor.BulkSelection.ClickSegment | src/main/resources/assets/ticketsystem/html/main.js:491-495 | in bulk mode a segment click toggles it in the selection; otherwise the selection is unchanged |
| MainEditor.BulkSelection.ApplyBulk | src/main/resources/assets/ticketsystem/html/main.js:90-101 | an empty selection sends nothing; otherwise one request carries the selection and both prices, and the selection is cleared |
| MainEditor.FirstIndexIsFirst | src/main/resources/assets/ticketsystem/html/main.js:492 | an index with the element there and nowhere before it is findIndex's answer |
| MainEditor.EditPrefix | src/main/resources/assets/ticketsystem/html/main.js:525 | the line prefix the editor proposes codes for contains no '-' |
| MainEditor.MaxNumber | src/main/resources/assets/ticketsystem/html/main.js:527 | Math.max(0, …) is never negative |
| MainEditor.MaxNumberBound | src/main/resources/assets/ticketsystem/html/main.js:527 | no code on the line has a number above nextNum - 1 |
| MainEditor.StationCodes | src/main/resources/assets/ticketsystem/html/main.js:526 | the code list follows the station list one for one |
| MainEditor.AboveMaxIsFresh | src/main/resources/assets/ticketsystem/html/main.js:527-528 | a code on the line numbered above the maximum is none of the existing codes |
| MainEditor.SuggestedCodeIsFresh | src/main/resources/assets/ticketsystem/html/main.js:525-528 | the code the editor proposes for a new station is never an existing station's code |
| MainEditor.StationToCreate | src/main/resources/assets/ticketsystem/html/main.js:539-540 | a station is created only when no station has the code, and it carries that code |
| MainEditor.InsertPos | src/main/resources/assets/ticketsystem/html/main.js:478 | the insert position lies within the line |
| MainEditor.InsertIntoSegment | src/main/resources/assets/ticketsystem/html/main.js:464-481 | a cancelled dialog adds nothing, a code already on the line is refused, and otherwise the trimmed code goes right after `from` (or at the end) with the rest of the line unchanged on both sides |
| MainEditor.AppendToLine | src/main/resources/assets/ticketsystem/html/main.js:529-542 | a cancelled dialog adds nothing, a code already on the line is refused, and otherwise the trimmed code is appended |
| MainEditor.InsertAtDistinct | src/main/resources/assets/ticketsystem/html/main.js:479-481 | splicing a new code into a duplicate-free line keeps it duplicate-free and adds exactly that code |
| MainEditor.InsertIntoSegmentSplits | src/main/resources/assets/ticketsystem/html/main.js:477-481 | an insertion keeps the line duplicate-free, adds exactly the new code, and puts it directly after `from` when the line lists `from` |
| MainEditor.AppendToLineKeepsDistinct | src/main/resources/assets/ticketsystem/html/main.js:537-542 | appending keeps the line free of duplicate codes |
| ConsoleFares.ConsoleBestFare | src/main/resources/assets/ticketsystem/html/console.js:411-416 | a console fare is always positive, and it is missing exactly when neither a positive same-line sum nor a positive stored record exists |
| ConsoleFares.ConsoleBestFareSymmetric | src/main/resources/assets/ticketsystem/html/console.js:411-416 | the console's fare for (a, b) equals its fare for (b, a) |
| ConsoleFares.ConsoleIsMainWithoutGroups | src/main/resources/assets/ticketsystem/html/console.js:410-416 | the console's rule is the web page's bestFareBetweenCodes with no transfer groups |
| ConsoleFares.WithTransferNoGroups | src/main/resources/assets/ticketsystem/html/console.js:410-416 | without groups, sumWithTransfer reduces to the same-line value |
| ConsoleFares.ConsoleFare | src/main/resources/assets/ticketsystem/html/console.js:411-416 | the console's price function is symmetric |
| ConsoleFares.ConsoleSymmetricAll | src/main/resources/assets/ticketsystem/html/console.js:411-416 | the console's fare is symmetric for every pair of codes |
| ConsoleFares.FirstColor | src/main/resources/assets/ticketsystem/html/console.js:482-483 | a station's first line colour is taken only when it is on some line |
| ConsoleFares.ConsoleColorsForRoute | src/main/resources/assets/ticketsystem/html/console.js:474-485 | the console gives at most two colours per pair of codes |
| ConsoleFares.ConsoleColorsNoSharedLine | src/main/resources/assets/ticketsystem/html/console.js:481-484 | without a shared line, the colours are the first line colour of each end |
| ConsoleFares.ConsoleColors | src/main/resources/assets/ticketsystem/html/console.js:474-485 | every pair of codes gets at most two colours |
| ConsoleFares.RenderFareTable | src/main/resources/assets/ticketsystem/html/console.js:441-586 | no fares gives the placeholder; otherwise the table is built over the display groups, is square with '-' on the diagonal, holds each pair's cheapest console fare and colours elsewhere, and carries the largest fare |
| ConsoleFares.ConsoleTableBounded | src/main/resources/assets/ticketsystem/html/console.js:498-512 | the scale maximum is at least 1, and every non-empty cell is positive and at most the maximum |
| ConsoleFares.RowPrefix | src/main/resources/assets/ticketsystem/html/console.js:209 | the proposed prefix is non-empty, holds no '-', and is the first station's prefix when it has one |
| ConsoleFares.RowSuggestionParses | src/main/resources/assets/ticketsystem/html/console.js:208-210 | the proposed code parses back to the row's prefix and the position after the last station |
| ConsoleFares.RemoveAll | src/main/resources/assets/ticketsystem/html/console.js:233 | the filtered list no longer holds the code, keeps every other code, and is no longer than before |
| ConsoleFares.RemoveAllKeepsOthers | src/main/resources/assets/ticketsystem/html/console.js:233 | filtering keeps each other code exactly as often as before, and changes the list exactly when it held the code |
| ConsoleFares.RemoveAllAppend | src/main/resources/assets/ticketsystem/html/console.js:233 | filtering works piece by piece, so the remaining codes keep their order |
| ConsoleFares.RemoveAllIdempotent | src/main/resources/assets/ticketsystem/html/console.js:233 | filtering the same code twice removes nothing more |
| ConsoleFares.LineRow.constructor | src/main/resources/assets/ticketsystem/html/console.js:114 | a row starts from the line's id and its station list |
| ConsoleFares.LineRow.AddStation | src/main/resources/assets/ticketsystem/html/console.js:205-217 | when all three prompts give a non-empty answer the trimmed code is pushed onto the list, duplicates included; otherwise the list is unchanged |
| ConsoleFares.LineRow.RemoveStation | src/main/resources/assets/ticketsystem/html/console.js:230-237 | an empty answer changes nothing; otherwise every listing of the trimmed code is removed |
| FareData.Fare.Symmetric | src/main/java/com/easttown/ticketsystem/data/Fare.java:58-60 | the symmetric fare swaps the two stations and keeps the price |
| FareData.SymmetricTwice | src/main/java/com/easttown/ticketsystem/data/Fare.java:34-38 | taking the symmetric fare twice gives the fare back, and a fare is valid exactly when its symmetric fare is |
| FareData.EqualsSymmetricIff | src/main/java/com/easttown/ticketsystem/data/Fare.java:69-77 | since equality is direction-sensitive, a fare equals its symmetric fare exactly when both of its stations are the same |
| FareData.BidirectionalMatch | src/main/java/com/easttown/ticketsystem/data/Fare.java:43-53 | the bidirectional match is symmetric in its two stations, holds exactly when the fare matches one of the two directions, and is shared by the symmetric fare |
| StationData.Station.constructor | src/main/java/com/easttown/ticketsystem/data/Station.java:14-22 | a station made from a code and a name has no English name, stands at the origin with position 0, and that coordinate is valid |
| StationData.Station.Located | src/main/java/com/easttown/ticketsystem/data/Station.java:24-32 | the six-argument constructor stores every argument and sets position 0 |
| StationData.Station.Numbered | src/main/java/com/easttown/ticketsystem/data/Station.java:34-42 | the seven-argument constructor stores every argument |
| StationData.Station.SetName | src/main/java/com/easttown/ticketsystem/data/Station.java:70-72 | sets the name and leaves every other field unchanged |
| StationData.Station.SetEnName | src/main/java/com/easttown/ticketsystem/data/Station.java:74-76 | sets the English name and leaves every other field unchanged |
| StationData.Station.SetX | src/main/java/com/easttown/ticketsystem/data/Station.java:78-80 | sets x and leaves every other field unchanged |
| StationData.Station.SetY | src/main/java/com/easttown/ticketsystem/data/Station.java:82-84 | sets y and leaves every other field unchanged |
| StationData.Station.SetZ | src/main/java/com/easttown/ticketsystem/data/Station.java:86-88 | sets z and leaves every other field unchanged |
| StationData.Station.SetStationNumber | src/main/java/com/easttown/ticketsystem/data/Station.java:94-96 | sets the position number and leaves every other field unchanged |
| StationData.Station.SetCoordinates | src/main/java/com/easttown/ticketsystem/data/Station.java:101-105 | moves the station, leaves the names and position unchanged, and the station is then valid exactly when the new point is inside the world bounds |
| StationData.InWorldBounds | src/main/java/com/easttown/ticketsystem/data/Station.java:111-116 | the coordinate bounds are inclusive and symmetric about the origin, and one step past any of them is invalid |
| LineData.IndexOf | src/main/java/com/easttown/ticketsystem/data/Line.java:124-126 | indexOf is -1 exactly when the code is absent; otherwise the index holds the code and no earlier index does |
| LineData.RemoveFirstSpec | src/main/java/com/easttown/ticketsystem/data/Line.java:102-104 | removing a code drops exactly one copy of it when present and changes nothing when absent; on a list without duplicates the code is then gone and there are still no duplicates |
| LineData.RemoveAtNoDup | src/main/java/com/easttown/ticketsystem/data/Line.java:102-104 | removing one position from a duplicate-free list leaves a duplicate-free list without that element |
| LineData.InsertAtSpec | src/main/java/com/easttown/ticketsystem/data/Line.java:87-95 | inserting a new code adds exactly that code, puts it at the given index, and keeps a duplicate-free list duplicate-free |
| LineData.Line.constructor | src/main/java/com/easttown/ticketsystem/data/Line.java:17-23 | a line made from an id, name and colour has no English name and no stations |
| LineData.Line.Named | src/main/java/com/easttown/ticketsystem/data/Line.java:25-31 | the four-argument constructor stores every argument and starts with no stations |
| LineData.Line.SetName | src/main/java/com/easttown/ticketsystem/data/Line.java:55-57 | sets the name and leaves every other field unchanged |
| LineData.Line.SetEnName | src/main/java/com/easttown/ticketsystem/data/Line.java:59-61 | sets the English name and leaves every other field unchanged |
| LineData.Line.SetColor | src/main/java/com/easttown/ticketsystem/data/Line.java:63-65 | sets the colour and leaves every other field unchanged |
| LineData.Line.SetStationCodes | src/main/java/com/easttown/ticketsystem/data/Line.java:67-69 | replaces the station list as given and leaves the names and colour unchanged |
| LineData.Line.AddStation | src/main/java/com/easttown/ticketsystem/data/Line.java:76-80 | appends a code the line does not have and otherwise changes nothing, so it never creates a duplicate |
| LineData.Line.InsertStation | src/main/java/com/easttown/ticketsystem/data/Line.java:87-95 | a new code goes in at the index when it is within 0..size and at the end otherwise; a code already present changes nothing; no duplicate is created |
| LineData.Line.RemoveStation | src/main/java/com/easttown/ticketsystem/data/Line.java:102-104 | drops the first occurrence of the code and returns true exactly when the code was on the line |
| LineData.ContainsIffOrder | src/main/java/com/easttown/ticketsystem/data/Line.java:116-126 | containsStation holds exactly when getStationOrder is not -1 |
| LineData.AdjacentSpec | src/main/java/com/easttown/ticketsystem/data/Line.java:133-142 | the neighbours are null exactly when the code is absent; otherwise prev exists exactly when the code is not first and next exactly when it is not last, they are the codes either side of it, and on a duplicate-free line neither is the code itself |
| RouteData.TransferPointsSpec | src/main/java/com/easttown/ticketsystem/data/Route.java:143-162 | every transfer point is a station of the path; there is at most one per change of line, exactly one when the station path covers the line path, and none when the route stays on one line |
| RouteData.Route.constructor | src/main/java/com/easttown/ticketsystem/data/Route.java:19-27 | a new route between two stations has empty paths and zero price, transfers and station count |
| RouteData.Route.Of | src/main/java/com/easttown/ticketsystem/data/Route.java:29-38 | the full constructor copies both paths and stores the counts, with the station count one less than the path length |
| RouteData.Route.SetStationPath | src/main/java/com/easttown/ticketsystem/data/Route.java:70-73 | replaces the station path, sets the station count to its length minus one, and changes nothing else |
| RouteData.Route.SetLinePath | src/main/java/com/easttown/ticketsystem/data/Route.java:75-77 | replaces the line path and changes nothing else |
| RouteData.Route.SetTotalPrice | src/main/java/com/easttown/ticketsystem/data/Route.java:79-81 | sets the price and changes nothing else |
| RouteData.Route.SetTransferCount | src/main/java/com/easttown/ticketsystem/data/Route.java:83-85 | sets the transfer count and changes nothing else |
| RouteData.Route.AddStationToPath | src/main/java/com/easttown/ticketsystem/data/Route.java:88-91 | appends the station and makes the station count the old path length, keeping the count in step with the path |
| RouteData.Route.AddLineToPath | src/main/java/com/easttown/ticketsystem/data/Route.java:93-95 | appends the line and changes nothing else |
| RouteData.Route.AddToTotalPrice | src/main/java/com/easttown/ticketsystem/data/Route.java:97-99 | adds the amount to the price and changes nothing else |
| RouteData.Route.IncrementTransferCount | src/main/java/com/easttown/ticketsystem/data/Route.java:101-103 | raises the transfer count by one and changes nothing else |
| RouteData.Route.GetTransferPoints | src/main/java/com/easttown/ticketsystem/data/Route.java:143-162 | the loop returns exactly the transfer points: the station before each change of line, where the station path reaches that far |
| Network.FareKeySymmetric | src/main/java/com/easttown/ticketsystem/manager/NetworkManager.java:362-372 | the fare key is the same whichever way round the two codes are given |
| Network.FareKeyCollides | src/main/java/com/easttown/ticketsystem/manager/NetworkManager.java:367-371 | the key is not injective: the segments "a-b"/"c" and "a"/"b-c" share the key "a-b-c" although the stored fare matches only the first |
| Network.NormalizeFare | src/main/java/com/easttown/ticketsystem/manager/NetworkManager.java:378-390 | the normalized fare has its codes in key order and the same price, covers the same segment, has the same key, and is valid exactly when the original is |
| Network.LookupFareSymmetric | src/main/java/com/easttown/ticketsystem/manager/NetworkManager.java:478-503 | getFare finds the same fare whichever way round the codes are given, and finds one exactly when the pair's key is stored, so the reverse-key retry never finds anything new |
| Network.Registry.constructor | src/main/java/com/easttown/ticketsystem/manager/NetworkManager.java:36-38 | the registry starts with no stations, lines or fares and satisfies its invariant |
| Network.Registry.AddStation | src/main/java/com/easttown/ticketsystem/manager/NetworkManager.java:113-126 | addStation succeeds exactly when the code is non-empty and the coordinate valid; it then stores the station under its code, replacing any station already there, and otherwise changes nothing |
| Network.Registry.RemoveStation | src/main/java/com/easttown/ticketsystem/manager/NetworkManager.java:133-152 | removeStation succeeds exactly for a known code; it then removes the first occurrence of the code from every line, every fare touching it, and the station, and otherwise changes nothing |
| Network.Registry.RemoveFaresInvolvingStation | src/main/java/com/easttown/ticketsystem/manager/NetworkManager.java:457-473 | after the collect-then-delete loops the fares are exactly those with the code at neither end |
| Network.Registry.UpdateStation | src/main/java/com/easttown/ticketsystem/manager/NetworkManager.java:185-193 | updateStation succeeds exactly for a known code and then replaces that station only |
| Network.Registry.AddLine | src/main/java/com/easttown/ticketsystem/manager/NetworkManager.java:226-242 | addLine succeeds exactly for a non-empty id, even when the line names unknown stations, and stores the line under its id |
| Network.Registry.RemoveLine | src/main/java/com/easttown/ticketsystem/manager/NetworkManager.java:247-255 | removeLine succeeds exactly for a known id, and afterwards the id is gone |
| Network.Registry.UpdateLine | src/main/java/com/easttown/ticketsystem/manager/NetworkManager.java:288-296 | updateLine succeeds exactly for a known id and then replaces that line only |
| Network.Registry.AddFare | src/main/java/com/easttown/ticketsystem/manager/NetworkManager.java:395-428 | addFare succeeds exactly when the fare is valid, both ends are stations and the pair has no stored fare; it then adds exactly the normalized fare under the pair's key and changes nothing else |
| Network.Registry.AddBidirectionalFare | src/main/java/com/easttown/ticketsystem/manager/NetworkManager.java:433-438 | addBidirectionalFare behaves exactly as addFare |
| Network.Registry.RemoveFare | src/main/java/com/easttown/ticketsystem/manager/NetworkManager.java:443-452 | removeFare succeeds exactly when the pair's key is stored, and removes that key only |
| Network.Registry.UpdateFare | src/main/java/com/easttown/ticketsystem/manager/NetworkManager.java:522-537 | updateFare succeeds exactly when the fare is valid and the pair already has a stored fare, which it then replaces with the normalized fare |
| Network.Registry.ValidateData | src/main/java/com/easttown/ticketsystem/manager/NetworkManager.java:560-583 | validateData reports a line's station exactly when the code is not a station, and a fare's end exactly when it is not a station |
| Network.FaresWithout | src/main/java/com/easttown/ticketsystem/manager/NetworkManager.java:457-473 | the fares left keep exactly the entries with the code at neither end, unchanged |
| Network.FaresWithoutSpec | src/main/java/com/easttown/ticketsystem/manager/NetworkManager.java:133-152 | after removing a station the stored fares are still normalized, no fare found starts at the removed code, and a fare between two other stations is still found |
| Network.AddFareRefusesExisting | src/main/java/com/easttown/ticketsystem/manager/NetworkManager.java:417-422 | once a fare is stored for a pair, the key of any fare for the same pair in either direction is present, so a second addFare for it fails |
| FareEngine.SplitCode | src/main/java/com/easttown/ticketsystem/manager/FareCalculationEngine.java:40 | a code made of two dash-free pieces splits into exactly those two pieces |
| FareEngine.ParseSynthCode | src/main/java/com/easttown/ticketsystem/manager/FareCalculationEngine.java:35-53 | parsing a code built with "%s-%02d" gives back its prefix and number |
| FareEngine.ParseCodeBadNumber | src/main/java/com/easttown/ticketsystem/manager/FareCalculationEngine.java:46-52 | a two-piece code whose second piece is not an int keeps its prefix with number 0 |
| FareEngine.ParseCodeThreePieces | src/main/java/com/easttown/ticketsystem/manager/FareCalculationEngine.java:40-44 | a code with three pieces is rejected as ("", 0) |
| FareEngine.SegFareSpec | src/main/java/com/easttown/ticketsystem/manager/FareCalculationEngine.java:62-88 | a segment price is never negative, does not depend on the direction, is positive exactly when both codes are non-empty and the pair has a stored positive price, and is then that price |
| FareEngine.SegSumNonNegative | src/main/java/com/easttown/ticketsystem/manager/FareCalculationEngine.java:109-128 | the sum of segment prices over any range of a line is never negative |
| FareEngine.LineFareSpec | src/main/java/com/easttown/ticketsystem/manager/FareCalculationEngine.java:97-129 | the same-line sum is symmetric, at least -1, non-negative exactly when both codes parse to the same non-empty prefix, and 0 from a station to itself |
| FareEngine.LineFareAdditive | src/main/java/com/easttown/ticketsystem/manager/FareCalculationEngine.java:106-122 | on one line the sum from x to z is the sum from x to y plus the sum from y to z for x ≤ y ≤ z |
| FareEngine.SumSegments | src/main/java/com/easttown/ticketsystem/manager/FareCalculationEngine.java:112-122 | the loop adds exactly the segment prices from lo to hi |
| FareEngine.SumLineFare | src/main/java/com/easttown/ticketsystem/manager/FareCalculationEngine.java:97-129 | the method returns exactly the same-line sum |
| FareEngine.Snapshot | src/main/java/com/easttown/ticketsystem/manager/FareCalculationEngine.java:137-141 | the iteration snapshot lists each station's code and names, in iteration order |
| FareEngine.GroupKeys | src/main/java/com/easttown/ticketsystem/manager/FareCalculationEngine.java:143-156 | a station is filed under at most two keys, the trimmed Chinese and English names, and never under an empty key |
| FareEngine.KeyIndex | src/main/java/com/easttown/ticketsystem/manager/FareCalculationEngine.java:148 | the key's position is the first group with that key, or the end when there is none |
| FareEngine.KeepShared | src/main/java/com/easttown/ticketsystem/manager/FareCalculationEngine.java:160-162 | the filter keeps exactly the groups with more than one code |
| FareEngine.AddCodeSpec | src/main/java/com/easttown/ticketsystem/manager/FareCalculationEngine.java:148-149 | filing a code under a key appends it to that key's list only and keeps one group per key |
| FareEngine.AddCodesSpec | src/main/java/com/easttown/ticketsystem/manager/FareCalculationEngine.java:148-156 | filing a code under each of its keys appends it once per matching key |
| FareEngine.AllGroupsSpec | src/main/java/com/easttown/ticketsystem/manager/FareCalculationEngine.java:141-157 | after the station loop each key's list holds exactly the codes filed under it, in iteration order |
| FareEngine.StationGroupsSpec | src/main/java/com/easttown/ticketsystem/manager/FareCalculationEngine.java:135-163 | every group returned holds exactly the codes filed under its key and has more than one, and every key with more than one code is returned |
| FareEngine.TwinNamesFiledTwice | src/main/java/com/easttown/ticketsystem/manager/FareCalculationEngine.java:143-156 | a station whose English name equals its Chinese name is filed twice under that key, so it forms a group by itself |
| FareEngine.BuildStationGroups | src/main/java/com/easttown/ticketsystem/manager/FareCalculationEngine.java:135-163 | the loop builds exactly the station groups of the snapshot |
| FareEngine.FindGroup | src/main/java/com/easttown/ticketsystem/manager/FareCalculationEngine.java:235-242 | the group found is the first that contains the code, and none is found exactly when no group contains it |
| FareEngine.FindStationGroup | src/main/java/com/easttown/ticketsystem/manager/FareCalculationEngine.java:235-242 | the loop returns exactly the first group containing the code |
| FareEngine.FindGroupFirst | src/main/java/com/easttown/ticketsystem/manager/FareCalculationEngine.java:235-242 | the first group containing the code is the one found |
| FareEngine.CandsBest | src/main/java/com/easttown/ticketsystem/manager/FareCalculationEngine.java:204-229 | the best candidate is a non-negative leg between a member of each list, and no reachable pair is cheaper |
| FareEngine.GroupTransferIsCheapest | src/main/java/com/easttown/ticketsystem/manager/FareCalculationEngine.java:186-229 | for two different groups the transfer price is at least -1, is the same-line price of some pair of members when non-negative, and is no more than the price of any reachable pair below Integer.MAX_VALUE |
| FareEngine.ScanRow | src/main/java/com/easttown/ticketsystem/manager/FareCalculationEngine.java:208-222 | the inner loop leaves the best value as the running best over the candidates so far plus this row |
| FareEngine.ScanTransfers | src/main/java/com/easttown/ticketsystem/manager/FareCalculationEngine.java:204-223 | the nested loops leave the running best over every candidate pair |
| FareEngine.RunningBestCapped | src/main/java/com/easttown/ticketsystem/manager/FareCalculationEngine.java:225-229 | reading Integer.MAX_VALUE back as -1 gives the capped best |
| FareEngine.GroupTransferOf | src/main/java/com/easttown/ticketsystem/manager/FareCalculationEngine.java:180-229 | the method returns exactly the transfer part of the calculation |
| FareEngine.SumWithTransfer | src/main/java/com/easttown/ticketsystem/manager/FareCalculationEngine.java:172-230 | the method returns exactly the same-line-or-transfer price |
| FareEngine.TransferFareSpec | src/main/java/com/easttown/ticketsystem/manager/FareCalculationEngine.java:172-230 | sumWithTransfer is at least -1, equals the same-line sum for two stations of one line, is 0 when both ends fall in the same group, and is -1 when either is in no group |
| FareEngine.CalculateFareSpec | src/main/java/com/easttown/ticketsystem/manager/FareCalculationEngine.java:251-269 | calculateFare is at least -1, -1 for an empty code, 0 from a station to itself, and the same-line sum for two different stations of one line |
| FareEngine.CalculateFareOf | src/main/java/com/easttown/ticketsystem/manager/FareCalculationEngine.java:251-269 | the method returns exactly calculateFare |
| FareEngine.ComputeEntry | src/main/java/com/easttown/ticketsystem/manager/FareCalculationEngine.java:290-295 | one matrix cell is 0 on the diagonal and calculateFare with a negative result read as -1 elsewhere |
| FareEngine.ComputeRow | src/main/java/com/easttown/ticketsystem/manager/FareCalculationEngine.java:289-296 | the inner loop fills a row with exactly the matrix cells of that row |
| FareEngine.StoreRow | src/main/java/com/easttown/ticketsystem/manager/FareCalculationEngine.java:289-296 | storing a row writes exactly that row of the matrix and no other |
| FareEngine.GenerateFareMatrix | src/main/java/com/easttown/ticketsystem/manager/FareCalculationEngine.java:284-300 | the matrix is n by n and holds exactly the matrix cell for every pair of positions |
| FareEngine.MatrixEntrySpec | src/main/java/com/easttown/ticketsystem/manager/FareCalculationEngine.java:284-300 | every cell is at least -1, -1 for an empty code off the diagonal, 0 between equal codes, and for two stations of one line the same-line sum in both directions |
| FareEngine.MissingFaresSpec | src/main/java/com/easttown/ticketsystem/manager/FareCalculationEngine.java:312-328 | at most one error per station; each names a listed station with a line prefix whose registered successor lacks a positive segment price, and every such station is reported |
| FareEngine.FlaggedSound | src/main/java/com/easttown/ticketsystem/manager/FareCalculationEngine.java:313-328 | every flagged error comes from a listed station the test picks, with its successor code |
| FareEngine.FlaggedComplete | src/main/java/com/easttown/ticketsystem/manager/FareCalculationEngine.java:313-328 | every listed station the test picks is flagged |
| FareEngine.ValidateFareData | src/main/java/com/easttown/ticketsystem/manager/FareCalculationEngine.java:306-337 | the loops return exactly the missing-adjacent-fare errors in iteration order, followed by the no-groups error when there are no station groups |
| FareManager.HasBidirectionalFareSpec | src/main/java/com/easttown/ticketsystem/manager/FareManager.java:75-99 | the two-way test holds exactly when the pair's key is stored, which is the one-way test; getFarePrice does not depend on the direction and is the stored price when there is one |
| FareManager.NormalizeFareReverse | src/main/java/com/easttown/ticketsystem/manager/FareManager.java:117-127 | a fare and its reverse normalize to the same stored fare, so updating either direction writes the same entry |
| FareManager.RemoveBidirectionalFare | src/main/java/com/easttown/ticketsystem/manager/FareManager.java:59-63 | succeeds exactly when the pair's key was stored, and removes that key only |
| FareManager.UpdateFarePrice | src/main/java/com/easttown/ticketsystem/manager/FareManager.java:111-119 | succeeds exactly when the pair has a stored fare and the new fare is valid; it then stores the normalized fare at the new price under the pair's key, and otherwise changes nothing |
| FareManager.UpdateBidirectionalFare | src/main/java/com/easttown/ticketsystem/manager/FareManager.java:124-128 | the two one-way updates together succeed exactly when one alone would, and leave the same fares |
| FareManager.GenerateSpec | src/main/java/com/easttown/ticketsystem/manager/FareManager.java:145-158 | generation keeps every stored fare as it was and adds only fares at the base price; when it reports success every neighbouring pair has a fare, and it reports success whenever the price is positive and every code is a non-empty registered station |
| FareManager.GenerateFaresForLine | src/main/java/com/easttown/ticketsystem/manager/FareManager.java:134-159 | an unknown line or one with fewer than two stations fails and changes nothing; otherwise the loop leaves exactly the fares and flag of the generation over the line's neighbouring pairs |
| FareManager.PathFareUpToSpec | src/main/java/com/easttown/ticketsystem/manager/FareManager.java:165-183 | the path price is -1 exactly when some segment has no positive price, and otherwise at least one copper per segment |
| FareManager.PathFareSplit | src/main/java/com/easttown/ticketsystem/manager/FareManager.java:170-180 | a priced path costs the price of its first part plus the price of the rest |
| FareManager.CalculatePathFare | src/main/java/com/easttown/ticketsystem/manager/FareManager.java:165-183 | the loop returns exactly the path price: 0 for fewer than two stations, -1 at the first unpriced segment, else the sum |
| FareManager.PathFareStuck | src/main/java/com/easttown/ticketsystem/manager/FareManager.java:175-178 | once a prefix is unpriced, the whole path is -1 |
| FareManager.ReadLines | src/main/java/com/easttown/ticketsystem/manager/FareManager.java:192-193 | the snapshot lists each line's id and station codes in iteration order |
| FareManager.PairIssuesSpec | src/main/java/com/easttown/ticketsystem/manager/FareManager.java:194-202 | an issue is listed for a line exactly when some neighbouring pair of it has no fare in either direction |
| FareManager.CompletenessIssuesSpec | src/main/java/com/easttown/ticketsystem/manager/FareManager.java:189-206 | an issue is listed exactly when some line has a neighbouring pair without a fare |
| FareManager.CheckLine | src/main/java/com/easttown/ticketsystem/manager/FareManager.java:193-202 | the inner loop returns exactly the issues of one line, in order |
| FareManager.ValidateFareCompleteness | src/main/java/com/easttown/ticketsystem/manager/FareManager.java:189-206 | the loops return exactly the issues of every line, line by line |
| FareManager.FoldsSpec | src/main/java/com/easttown/ticketsystem/manager/FareManager.java:222-230 | the running minimum and maximum bound every price, and each is either its start value or some fare's price |
| FareManager.SumPricesBounds | src/main/java/com/easttown/ticketsystem/manager/FareManager.java:227 | the sum of n prices lies between n times the least and n times the greatest |
| FareManager.DivBounds | src/main/java/com/easttown/ticketsystem/manager/FareManager.java:236 | an average of values between two bounds lies between them |
| FareManager.StatisticsSpec | src/main/java/com/easttown/ticketsystem/manager/FareManager.java:218-239 | the table is reported empty exactly when there are no fares; otherwise the minimum and maximum are prices of stored fares that bound every price, and the average lies between them |
| FareManager.GetFareStats | src/main/java/com/easttown/ticketsystem/manager/FareManager.java:218-239 | the loop returns exactly the statistics of the fares |
| RouteGraph.FaresAt | src/main/java/com/easttown/ticketsystem/manager/RouteCalculator.java:111 | getAllFares in iteration order: the fare stored under each key, in the order given |
| RouteGraph.LinesAt | src/main/java/com/easttown/ticketsystem/manager/RouteCalculator.java:131 | getAllLines in iteration order: each line's id and station codes, in the order given |
| RouteGraph.View | src/main/java/com/easttown/ticketsystem/manager/RouteCalculator.java:107-180 | the search's view holds exactly the registered station codes and the fare map |
| RouteGraph.FirstLineThrough | src/main/java/com/easttown/ticketsystem/manager/RouteCalculator.java:168-179 | the line found has the two stations next to each other, and none is found exactly when no line does |
| RouteGraph.LineForSegmentSpec | src/main/java/com/easttown/ticketsystem/manager/RouteCalculator.java:156-180 | the current line is kept whenever it has the two stations next to each other; any other line found has them next to each other; none is found only when no line does |
| RouteGraph.EstimateFarePositive | src/main/java/com/easttown/ticketsystem/manager/RouteCalculator.java:185-207 | with positive stored prices an estimated hop is always positive, and at least 10 when no fare is stored for the pair |
| RouteGraph.Strip | src/main/java/com/easttown/ticketsystem/manager/RouteCalculator.java:83-86 | dropping the line from each neighbour keeps exactly the station and price, in order |
| RouteGraph.FareNeighborsSpec | src/main/java/com/easttown/ticketsystem/manager/RouteCalculator.java:110-127 | a neighbour comes from the fares exactly when some fare with a positive price has the station at one end and the neighbour at the other, and its line is the one findLineForSegment picks |
| RouteGraph.FareNeighborsLineBlind | src/main/java/com/easttown/ticketsystem/manager/RouteCalculator.java:110-127 | the stations and prices reached through fares do not depend on the current line |
| RouteGraph.LineNeighborsPositive | src/main/java/com/easttown/ticketsystem/manager/RouteCalculator.java:129-148 | with positive stored prices every neighbour found along the lines has a positive price |
| RouteGraph.FareNeighborsPositive | src/main/java/com/easttown/ticketsystem/manager/RouteCalculator.java:119-121 | every neighbour found through the fares has a positive price |
| RouteGraph.NeighborsSpec | src/main/java/com/easttown/ticketsystem/manager/RouteCalculator.java:107-151 | getNeighbors uses the fares when some positive fare touches the station and the lines otherwise; its stations and prices do not depend on the current line, and they are all positive when the stored prices are |
| RouteCalc.AdjPositive | src/main/java/com/easttown/ticketsystem/manager/RouteCalculator.java:83-101 | every hop the search can take has a positive price |
| RouteCalc.CostPositiveWalk | src/main/java/com/easttown/ticketsystem/manager/RouteCalculator.java:89 | a walk in the neighbour graph never costs less than nothing |
| RouteCalc.MinIndex | src/main/java/com/easttown/ticketsystem/manager/RouteCalculator.java:36-50 | the node the queue polls has the smallest distance in the queue |
| RouteCalc.Relax | src/main/java/com/easttown/ticketsystem/manager/RouteCalculator.java:88-100 | a neighbour is updated exactly when the new distance is strictly smaller: its distance, predecessor, line (when there is one) and a new queue node are recorded; otherwise nothing changes; the search invariants are kept |
| RouteCalc.Explore | src/main/java/com/easttown/ticketsystem/manager/RouteCalculator.java:73-102 | relaxing every neighbour keeps the search invariants and either lowers some distance or changes nothing; a neighbour outside the distance map throws |
| RouteCalc.BoundAtPoll | src/main/java/com/easttown/ticketsystem/manager/RouteCalculator.java:49-55 | when the end is polled its distance is the cheapest cost of any walk to it |
| RouteCalc.InitialState | src/main/java/com/easttown/ticketsystem/manager/RouteCalculator.java:38-46 | every station starts at Integer.MAX_VALUE, the start at 0, and the queue holds only the start |
| RouteCalc.SettleAndExplore | src/main/java/com/easttown/ticketsystem/manager/RouteCalculator.java:57-63 | polling a current node and exploring it keeps the search invariants and makes progress |
| RouteCalc.PollOnce | src/main/java/com/easttown/ticketsystem/manager/RouteCalculator.java:49-64 | one turn of the main loop stops at the end with its cheapest cost, skips a stale node, or explores a current one keeping the invariants |
| RouteCalc.Search | src/main/java/com/easttown/ticketsystem/manager/RouteCalculator.java:32-65 | after the main loop the distances cover every station and, when the end has one, it is the cheapest cost of any walk; a hop to an unregistered station throws |
| RouteCalc.LinesOf | src/main/java/com/easttown/ticketsystem/manager/RouteCalculator.java:226-233 | backtracking records at most one line per station of the path |
| RouteCalc.CountTransfers | src/main/java/com/easttown/ticketsystem/manager/RouteCalculator.java:256-271 | the loop counts exactly the positions whose line differs from the one before |
| RouteCalc.LineChangesBounds | src/main/java/com/easttown/ticketsystem/manager/RouteCalculator.java:256-271 | at most one transfer per line after the first, none on a single line, and at least one when the last two differ |
| RouteCalc.Backtrack | src/main/java/com/easttown/ticketsystem/manager/RouteCalculator.java:221-233 | following the predecessors from the end yields a walk ending at the end whose cost plus the first station's distance is the end's distance, with the lines recorded along it |
| RouteCalc.BuildRoute | src/main/java/com/easttown/ticketsystem/manager/RouteCalculator.java:212-251 | an end never reached throws, one at Integer.MAX_VALUE gives null; otherwise the route runs from start to end along predecessor links, its price is the end's distance and the cost of its walk, and its transfers are the line changes |
| RouteCalc.CreateDirectRoute | src/main/java/com/easttown/ticketsystem/manager/RouteCalculator.java:276-287 | the direct route is [start, end] with price 0, no lines and no transfers |
| RouteCalc.NeighborGraphSearchable | src/main/java/com/easttown/ticketsystem/manager/RouteCalculator.java:107-151 | with positive stored prices the neighbour graph is one the search handles: every hop is positive and does not depend on the current line |
| RouteCalc.FindCheapestRoute | src/main/java/com/easttown/ticketsystem/manager/RouteCalculator.java:21-68 | an empty code gives null; equal codes give the direct route; an unknown end throws; a route found is valid, runs from start to end, costs its price and no walk is cheaper; null means no walk reaches the end |
| RouteCalc.CheapestOnView | src/main/java/com/easttown/ticketsystem/manager/RouteCalculator.java:32-67 | the search and path building over one view: an unknown end throws, a route found is a cheapest walk, and null means the end is unreachable |
| RouteCalc.ValidateRoute | src/main/java/com/easttown/ticketsystem/manager/RouteCalculator.java:361-381 | a route is valid exactly when it exists, has at least two stations, and every consecutive pair has a fare |
| PriceSpec.DistancePrice | src/main/java/com/easttown/ticketsystem/manager/PriceCalculator.java:100-117 | the distance price is 0 whenever either name is not a known station |
| PriceSpec.PriceTable | src/main/java/com/easttown/ticketsystem/manager/PriceCalculator.java:222-231 | the table of distance prices has one row and one column per station in iteration order |
| PriceCalc.PriceByDistance | src/main/java/com/easttown/ticketsystem/manager/PriceCalculator.java:100-117 | the method returns exactly the distance price |
| PriceCalc.DistancePriceSymmetric | src/main/java/com/easttown/ticketsystem/manager/PriceCalculator.java:100-117 | the distance price does not depend on the order of the two names |
| PriceCalc.CacheKeySymmetric | src/main/java/com/easttown/ticketsystem/manager/PriceCalculator.java:251-257 | the cache key is the same whichever way round the two identifiers are given |
| PriceCalc.FirstMatchSpec | src/main/java/com/easttown/ticketsystem/manager/PriceCalculator.java:133-141 | the station scan finds a registered code whose code or name is the identifier, and finds nothing exactly when no later station matches |
| PriceCalc.ConvertCodeSpec | src/main/java/com/easttown/ticketsystem/manager/PriceCalculator.java:122-142 | the conversion yields a registered code whose code or name is the identifier; it yields null exactly when the identifier is neither a station code nor a station name; a registered code of the shape \d{2}-\d{2} stands for itself |
| PriceCalc.ConvertToStationCode | src/main/java/com/easttown/ticketsystem/manager/PriceCalculator.java:122-142 | the method returns exactly the conversion |
| PriceCalc.WalkCostPositive | src/main/java/com/easttown/ticketsystem/manager/PriceCalculator.java:87 | a walk between two different stations with positive hops costs more than 0, so a route found always passes the "total > 0" test |
| PriceCalc.RoutePrice | src/main/java/com/easttown/ticketsystem/manager/PriceCalculator.java:86-94 | the route step answers the cheapest route's price when there is a route, the distance price when there is none, and throws only for an unknown end or a neighbour that is not a station |
| PriceCalc.PricedByRoute | src/main/java/com/easttown/ticketsystem/manager/PriceCalculator.java:86-88 | a cheapest positive route's price is an allowed table answer |
| PriceCalc.PricedByDistance | src/main/java/com/easttown/ticketsystem/manager/PriceCalculator.java:92-94 | the distance price is an allowed table answer when no route exists or the codes are equal or empty |
| PriceCalc.DistanceFallback | src/main/java/com/easttown/ticketsystem/manager/PriceCalculator.java:92-94 | when no route is cheaper than MAX_VALUE the answer is the distance price of the two names, an allowed table answer |
| PriceCalc.HopCostsPositive | src/main/java/com/easttown/ticketsystem/manager/PriceCalculator.java:87 | with positive stored prices every walk between two different stations costs more than 0 |
| PriceCalc.TablePrice | src/main/java/com/easttown/ticketsystem/manager/PriceCalculator.java:75-95 | a stored fare's price wins whenever there is a stored fare; otherwise the answer is a route or distance price, and the search throws only for two distinct non-empty codes without a stored fare where the destination is not a station or a neighbour of a visited station is not one |
| PriceCalc.QuotePrice | src/main/java/com/easttown/ticketsystem/manager/PriceCalculator.java:45-54 | on a cache miss the quote is the distance price of identifiers that are not both stations, otherwise the table price of their codes, or an exception only when those codes have no stored fare and the route search throws on them |
| PriceCalc.QuotedByDistance | src/main/java/com/easttown/ticketsystem/manager/PriceCalculator.java:48-51 | unresolvable identifiers are quoted by distance |
| PriceCalc.QuotedByTable | src/main/java/com/easttown/ticketsystem/manager/PriceCalculator.java:54 | resolved identifiers are quoted by the table |
| PriceCalc.FirstKeysSize | src/main/java/com/easttown/ticketsystem/manager/PriceCalculator.java:59-63 | removing the first n keys of the iteration order removes exactly n keys |
| PriceCalc.EvictedSize | src/main/java/com/easttown/ticketsystem/manager/PriceCalculator.java:56-64 | eviction removes exactly the number of keys the loop visits, and at least one from a non-empty cache |
| PriceCalc.PriceCalculator.constructor | src/main/java/com/easttown/ticketsystem/manager/PriceCalculator.java:16 | the cache starts empty |
| PriceCalc.PriceCalculator.Evict | src/main/java/com/easttown/ticketsystem/manager/PriceCalculator.java:59-63 | the loop leaves exactly the cache without its first CACHE_SIZE / 2 keys in iteration order |
| PriceCalc.PriceCalculator.CalculatePrice | src/main/java/com/easttown/ticketsystem/manager/PriceCalculator.java:25-70 | missing, empty or equal identifiers give 0 and leave the cache; a cache hit returns the stored undiscounted price; a miss returns the distance price uncached, the table price discounted and cached after evicting half of a full cache, or an exception exactly when the route search throws, with the cache unchanged; the cache never exceeds CACHE_SIZE entries |
| PriceCalc.PriceCalculator.CalculateAndValidatePrice | src/main/java/com/easttown/ticketsystem/manager/PriceCalculator.java:159-166 | the price and the new cache are exactly calculatePrice's in every case, the exception passes on exactly when calculatePrice throws, and the price is paired with whether the player can afford it |
| PriceCalc.PriceCalculator.ClearCache | src/main/java/com/easttown/ticketsystem/manager/PriceCalculator.java:186-188 | the cache is empty afterwards |
| PriceCalc.PriceCalculator.CacheStats | src/main/java/com/easttown/ticketsystem/manager/PriceCalculator.java:193-195 | the message is longer than its fixed text |
| PriceCalc.CacheStatsCount | src/main/java/com/easttown/ticketsystem/manager/PriceCalculator.java:193-195 | the message is "Price cache: " followed by the decimal number of cached entries and " entries" |
| PriceCalc.GetRouteDetails | src/main/java/com/easttown/ticketsystem/manager/PriceCalculator.java:171-181 | unresolvable identifiers give null; otherwise any route found is the direct route for equal codes or a cheapest walk between the two codes |
| PriceCalc.DeductPayment | src/main/java/com/easttown/ticketsystem/manager/PriceCalculator.java:147-154 | a non-positive price is always paid; otherwise payment succeeds exactly when the coin deduction does |
| PriceCalc.ValidateFareTable | src/main/java/com/easttown/ticketsystem/manager/PriceCalculator.java:200-203 | the issues are exactly those of the registry's validateData |
| PriceCalc.FareForPair | src/main/java/com/easttown/ticketsystem/manager/PriceCalculator.java:224-239 | one inner step adds the distance fare for the pair when no fare is stored and keeps every earlier fare |
| PriceCalc.FaresFrom | src/main/java/com/easttown/ticketsystem/manager/PriceCalculator.java:223-240 | the inner loop covers every pair starting at one station |
| PriceCalc.GenerateBasicFares | src/main/java/com/easttown/ticketsystem/manager/PriceCalculator.java:208-245 | fewer than two stations change nothing; afterwards every pair of stations has a fare unless its distance fare is invalid, only generated distance fares were added, and the result is true exactly when at least one fare was added |
| StationCompat.FirstIndex | src/main/java/com/easttown/ticketsystem/manager/StationManagerCompat.java:140-147 | the first position holding the value, and none exactly when it is absent |
| StationCompat.NamesAt | src/main/java/com/easttown/ticketsystem/manager/StationManagerCompat.java:141 | the station names in iteration order |
| StationCompat.CodeByName | src/main/java/com/easttown/ticketsystem/manager/StationManagerCompat.java:140-147 | the code found belongs to a station with exactly that name, and none is found exactly when no station has the name |
| StationCompat.FirstNamed | src/main/java/com/easttown/ticketsystem/manager/StationManagerCompat.java:140-147 | the first station in iteration order with the name is the one found |
| StationCompat.FirstIndexAt | src/main/java/com/easttown/ticketsystem/manager/StationManagerCompat.java:140-147 | a position holding the value with no earlier occurrence is the first index |
| StationCompat.NoneNamed | src/main/java/com/easttown/ticketsystem/manager/StationManagerCompat.java:146 | when no station in iteration order has the name, nothing is found |
| StationCompat.FindStationCodeByName | src/main/java/com/easttown/ticketsystem/manager/StationManagerCompat.java:140-147 | the loop returns exactly the code of the first station with that name, or null |
| StationCompat.Distance | src/main/java/com/easttown/ticketsystem/manager/StationManagerCompat.java:93-115 | the distance is 0 when either name is unknown and never exceeds MAX_DISTANCE |
| StationCompat.Span | src/main/java/com/easttown/ticketsystem/manager/StationManagerCompat.java:108-114 | the capped Euclidean length never exceeds MAX_DISTANCE |
| StationCompat.Norm2Swap | src/main/java/com/easttown/ticketsystem/manager/StationManagerCompat.java:108-112 | the squared offset is the same in both directions |
| StationCompat.CalculateDistance | src/main/java/com/easttown/ticketsystem/manager/StationManagerCompat.java:93-115 | the method returns exactly the distance between the two named stations |
| StationCompat.DistanceSymmetric | src/main/java/com/easttown/ticketsystem/manager/StationManagerCompat.java:93-115 | the distance does not depend on the order of the names |
| StationCompat.IsValidCoordinate | src/main/java/com/easttown/ticketsystem/manager/StationManagerCompat.java:120-126 | with a station "dummy" registered every coordinate is accepted (the dummy stands at the origin); otherwise exactly the coordinates inside the world bounds are |
| StationCompat.CodeBase | src/main/java/com/easttown/ticketsystem/manager/StationManagerCompat.java:156 | the base code has the name's length and only characters from [a-z0-9_] |
| StationCompat.CandidateInjective | src/main/java/com/easttown/ticketsystem/manager/StationManagerCompat.java:162 | different suffixes give different candidate codes, so the search always reaches a free one |
| StationCompat.GenerateStationCode | src/main/java/com/easttown/ticketsystem/manager/StationManagerCompat.java:153-167 | the code is not a registered station code: the base when it is free, else base + "_" + k for the smallest free k ≥ 1 |
| StationCompat.AddStation | src/main/java/com/easttown/ticketsystem/manager/StationManagerCompat.java:21-33 | the generated code is new; the station is registered under it with the name and coordinates exactly when the code is non-empty and the coordinates are in the world; nothing else changes |
| StationCompat.RemoveStation | src/main/java/com/easttown/ticketsystem/manager/StationManagerCompat.java:38-47 | an unknown name changes nothing; otherwise the first station with that name is removed as removeStation does: from the stations, from every line and from every fare touching it |
| StationCompat.StationNames | src/main/java/com/easttown/ticketsystem/manager/StationManagerCompat.java:53-59 | the names returned are exactly the names of the registered stations, that is, the names a lookup finds |
| StationCompat.StationCoordinates | src/main/java/com/easttown/ticketsystem/manager/StationManagerCompat.java:65-80 | the coordinates are null exactly for an unknown name, and otherwise those of the first station with that name |
| StationCompat.ContainsStation | src/main/java/com/easttown/ticketsystem/manager/StationManagerCompat.java:85-87 | true exactly when some station has that name |
| StationCompat.AddStationWithCode | src/main/java/com/easttown/ticketsystem/manager/StationManagerCompat.java:173-177 | succeeds exactly when the code is non-empty and the coordinates are in the world, and then the registry maps the code to a fresh station with that name; otherwise nothing changes |
| StationCompat.StationName | src/main/java/com/easttown/ticketsystem/manager/StationManagerCompat.java:189-192 | the name of a registered code, and null exactly for an unknown code |
| StationCompat.NameLookupRoundTrip | src/main/java/com/easttown/ticketsystem/manager/StationManagerCompat.java:182-192 | looking up a station's name finds a station with the same name |
| StationMgr.AddStation | src/main/java/com/easttown/ticketsystem/manager/StationManager.java:35-47 | the code is the first unused valid random id drawn, and is new; the station is registered under it exactly when an id was found and the coordinates are in the world; nothing else changes |
| StationMgr.NamedDistance | src/main/java/com/easttown/ticketsystem/manager/StationManager.java:108-135 | the distance is 0 for equal names and for an unknown name, and never exceeds MAX_DISTANCE |
| StationMgr.CalculateDistance | src/main/java/com/easttown/ticketsystem/manager/StationManager.java:108-135 | the method returns exactly that distance |
| StationMgr.IsValidCoordinate | src/main/java/com/easttown/ticketsystem/manager/StationManager.java:140-145 | true exactly for coordinates inside the world bounds |
| StationMgr.MaxSuffix | src/main/java/com/easttown/ticketsystem/manager/StationManager.java:231-245 | the largest number read after the line prefix bounds every such number and is 0 or one of them |
| StationMgr.LargestNumber | src/main/java/com/easttown/ticketsystem/manager/StationManager.java:231-245 | the loop returns exactly the largest suffix number, ignoring codes whose suffix does not parse |
| StationMgr.AutoNumberAboveExisting | src/main/java/com/easttown/ticketsystem/manager/StationManager.java:229-247 | an automatically assigned number is above every numbered code already on the line |
| StationMgr.NumberOnLine | src/main/java/com/easttown/ticketsystem/manager/StationManager.java:225-248 | the number is the given one when positive, else one more than the largest suffix |
| StationMgr.AddStationToLine | src/main/java/com/easttown/ticketsystem/manager/StationManager.java:215-277 | fails for an unknown line; otherwise succeeds exactly when the generated code "%s-%02d" is not a station and the coordinates are valid; on success the station is registered with its names and number and its code appended to the end of the line, and on failure nothing changes |
| Gate.TypeOf | src/main/java/com/easttown/ticketsystem/block/GateBlockEntity.java:443-459 | valueOf succeeds exactly on a name that name() produces, and gives back that gate type |
| Gate.CheckIn | src/main/java/com/easttown/ticketsystem/block/GateBlockEntity.java:305-325 | an entry gate passes exactly a ticket that is neither completed nor in use, starts at this station and was not already marked by this gate; completed and in-use tickets get their own refusals |
| Gate.CheckOut | src/main/java/com/easttown/ticketsystem/block/GateBlockEntity.java:327-347 | an exit gate passes exactly a ticket that is neither unused nor completed, ends at this station and was not marked by this exit gate; unused and completed tickets get their own refusals |
| Gate.CheckBidirectional | src/main/java/com/easttown/ticketsystem/block/GateBlockEntity.java:349-365 | a two-way gate passes exactly an in-use ticket ending here or an unused ticket starting here; any other status is invalid |
| Gate.CheckTicket | src/main/java/com/easttown/ticketsystem/block/GateBlockEntity.java:262-303 | an empty hand or a non-ticket is refused as no ticket; a pass needs a ticket tag holding a TicketId and a travel time within the limit; checkTicket throws exactly when the ticket id does not parse as a UUID |
| Gate.Passed | src/main/java/com/easttown/ticketsystem/block/GateBlockEntity.java:367-407 | an entry pass sets the status to in use and records the entry gate, an exit pass sets it to completed, records the exit gate and takes one ticket when the gate destroys tickets; every other tag entry is kept |
| Gate.GateEntity.constructor | src/main/java/com/easttown/ticketsystem/block/GateBlockEntity.java:36-51 | a new gate has id "G-" + 8 characters, no station, two-way type, no reentry, 1440 minutes, destroys tickets, is enabled, has no player, a 20-tick cooldown and no last pass |
| Gate.GateEntity.TryPassThrough | src/main/java/com/easttown/ticketsystem/block/GateBlockEntity.java:128-162 | a disabled, busy or cooling-down gate ignores the player; a throwing check changes nothing; otherwise the pass time is recorded, and on a pass the player is admitted with a 1200-tick timeout, the gate opens and the ticket is stamped |
| Gate.GateEntity.ResetGate | src/main/java/com/easttown/ticketsystem/block/GateBlockEntity.java:168-178 | the passage is cleared (no player, no timeout) and nothing else changes |
| Gate.GateEntity.Tick | src/main/java/com/easttown/ticketsystem/block/GateBlockEntity.java:180-218 | a disabled gate does nothing; otherwise the timeout counts down, closing the gate and clearing the player at zero, and a player gone offline is cleared |
| Gate.GateEntity.Load | src/main/java/com/easttown/ticketsystem/block/GateBlockEntity.java:456-470 | loading reports success exactly when the saved gate type is a valid name, and the new fields are exactly what decoding the tag over the old ones gives |
| Gate.GateEntity.LoadTyped | src/main/java/com/easttown/ticketsystem/block/GateBlockEntity.java:459-469 | after the type is known, each field is read from its key, and the current player is replaced only when the tag holds one |
| Gate.CompletedNeverPasses | src/main/java/com/easttown/ticketsystem/block/GateBlockEntity.java:305-365 | a completed ticket never passes any gate |
| Gate.PassAdvances | src/main/java/com/easttown/ticketsystem/block/GateBlockEntity.java:305-407 | a pass moves the ticket forward: an entry gate from unused to in use, an exit gate from in use to completed, never from completed |
| Gate.SameGateNeverFires | src/main/java/com/easttown/ticketsystem/block/GateBlockEntity.java:318-343 | the same-gate refusal reads keys gate_id and exit_gate_id, which a pass never writes (it writes EntryGate and ExitGate), so it can never trigger on a ticket stamped by the gates |
| Gate.TickedBounded | src/main/java/com/easttown/ticketsystem/block/GateBlockEntity.java:190-210 | a tick keeps the invariant that a passing player has a positive timeout, and never raises the timeout |
| Gate.FreedByTimeout | src/main/java/com/easttown/ticketsystem/block/GateBlockEntity.java:190-199 | after as many ticks as the timeout the gate is free again, whatever the player does |
| Gate.SaveLoad | src/main/java/com/easttown/ticketsystem/block/GateBlockEntity.java:440-470 | loading what was saved gives back the saved gate, except that a gate saved without a player keeps the player it had |
| TicketMachine.Deposited | src/main/java/com/easttown/ticketsystem/block/TicketMachineBlockEntity.java:225-231 | after a deposit every coin kind of either map is stored, with the stored count plus the deposited count |
| TicketMachine.WorthRemove | src/main/java/com/easttown/ticketsystem/block/TicketMachineBlockEntity.java:248-256 | the total value splits into one coin kind's value times its count plus the value of the rest, whatever kind is taken first |
| TicketMachine.Bump | src/main/java/com/easttown/ticketsystem/block/TicketMachineBlockEntity.java:248-256 | adding n coins of one kind raises the total value by n times that coin's value |
| TicketMachine.DepositWorth | src/main/java/com/easttown/ticketsystem/block/TicketMachineBlockEntity.java:225-256 | the value stored after a deposit is the value stored before plus the value of the coins deposited |
| TicketMachine.DepositStep | src/main/java/com/easttown/ticketsystem/block/TicketMachineBlockEntity.java:226-229 | depositing one more coin kind adds its count to whatever the deposit so far stored for it |
| TicketMachine.DepositFirst | src/main/java/com/easttown/ticketsystem/block/TicketMachineBlockEntity.java:226-229 | a deposit may take its first coin kind in any order: the result is the same |
| TicketMachine.Machine.constructor | src/main/java/com/easttown/ticketsystem/block/TicketMachineBlockEntity.java:81-84 | a new machine has no start station, no stored coins and an empty ticket slot |
| TicketMachine.Machine.SetStartStation | src/main/java/com/easttown/ticketsystem/block/TicketMachineBlockEntity.java:150-158 | a null or empty station is ignored; any other becomes the start station; slot and coins are unchanged |
| TicketMachine.Machine.CanPrintTicket | src/main/java/com/easttown/ticketsystem/block/TicketMachineBlockEntity.java:164-166 | a ticket can be printed exactly when the slot is empty |
| TicketMachine.Machine.PrintTicket | src/main/java/com/easttown/ticketsystem/block/TicketMachineBlockEntity.java:168-199 | without a start station or a destination nothing happens; otherwise the slot holds one unused ticket from the start station to the destination with its id, issue time and price |
| TicketMachine.Machine.AddCoins | src/main/java/com/easttown/ticketsystem/block/TicketMachineBlockEntity.java:225-233 | the stored coins become exactly the deposit of the given coins, taken in the map's iteration order |
| TicketMachine.Machine.WithdrawCoins | src/main/java/com/easttown/ticketsystem/block/TicketMachineBlockEntity.java:235-240 | the coins returned are all the coins stored, and none remain |
| TicketMachine.Machine.TotalCopperValue | src/main/java/com/easttown/ticketsystem/block/TicketMachineBlockEntity.java:248-257 | the loop returns exactly the value of the stored coins, independent of iteration order |
| TicketMachine.Machine.Save | src/main/java/com/easttown/ticketsystem/block/TicketMachineBlockEntity.java:123-134 | the saved tag holds the start station and one int entry per stored coin kind |
| TicketMachine.Machine.Load | src/main/java/com/easttown/ticketsystem/block/TicketMachineBlockEntity.java:137-148 | the start station and the stored coins become exactly what the tag holds; the slot is not touched |
| TicketMachine.SaveLoad | src/main/java/com/easttown/ticketsystem/block/TicketMachineBlockEntity.java:123-148 | loading a saved machine gives back its start station and its coins |
| TicketMachine.PrintedTicketJourney | src/main/java/com/easttown/ticketsystem/block/TicketMachineBlockEntity.java:168-199 | a printed ticket passes an entry gate at its start station, is then in use, passes an exit gate at its destination and is then completed, provided each passage is within the gate's time limit |
| IdGen.CheckName | src/main/java/com/easttown/ticketsystem/util/IdGenerator.java:105-117 | true exactly for a non-null, non-empty id made only of lower-case letters, digits and '_' |
| IdGen.ClockSuffix | src/main/java/com/easttown/ticketsystem/util/IdGenerator.java:48 | the last attempt's suffix (current millis modulo 10000) is a non-empty run of decimal digits |
| IdGen.FreshFromSpec | src/main/java/com/easttown/ticketsystem/util/IdGenerator.java:27-56 | the id produced is valid and at least the requested length; one of exactly that length was not generated before; a longer one is the 100th attempt followed by the clock suffix |
| IdGen.IdRegistry.constructor | src/main/java/com/easttown/ticketsystem/util/IdGenerator.java:20 | a new registry knows no ids |
| IdGen.IdRegistry.GenerateRandomId | src/main/java/com/easttown/ticketsystem/util/IdGenerator.java:27-56 | a length of 0 or less means 8; the id is the first fresh attempt (or the 100th with the clock suffix), and it becomes known |
| IdGen.IdRegistry.GenerateLineId | src/main/java/com/easttown/ticketsystem/util/IdGenerator.java:61-63 | "l_" followed by a fresh 6-character id, which becomes known |
| IdGen.IdRegistry.GenerateStationCode | src/main/java/com/easttown/ticketsystem/util/IdGenerator.java:68-70 | "s_" followed by a fresh 6-character id, which becomes known |
| IdGen.IdRegistry.GenerateShortId | src/main/java/com/easttown/ticketsystem/util/IdGenerator.java:75-77 | a fresh 4-character id, which becomes known |
| IdGen.IdRegistry.GeneratePrefixedId | src/main/java/com/easttown/ticketsystem/util/IdGenerator.java:82-84 | the prefix, '_' and a fresh id of the given length (8 if not positive); the random part becomes known |
| IdGen.IdRegistry.GenerateTimestampId | src/main/java/com/easttown/ticketsystem/util/IdGenerator.java:89-100 | the clock in base 36 followed by a fresh 2-character id, which becomes known |
| IdGen.IdRegistry.GenerateHumanReadableId | src/main/java/com/easttown/ticketsystem/util/IdGenerator.java:153-159 | a lower-case letter followed by a fresh 5-character id, so the id always starts with a letter |
| IdGen.IdRegistry.NormalizeId | src/main/java/com/easttown/ticketsystem/util/IdGenerator.java:122-148 | the result is always a valid id: the normalized id when it is neither empty nor "_", otherwise a fresh 8-character id that becomes known; a kept id registers nothing and draws nothing |
| IdGen.IdRegistry.ClearCache | src/main/java/com/easttown/ticketsystem/util/IdGenerator.java:164-166 | no id is known any more |
| IdGen.IdRegistry.RegisterExistingId | src/main/java/com/easttown/ticketsystem/util/IdGenerator.java:171-175 | a non-null, non-empty id becomes known; anything else changes nothing |
| IdGen.IdRegistry.RegisterExistingIds | src/main/java/com/easttown/ticketsystem/util/IdGenerator.java:180-184 | exactly the non-null, non-empty ids of the sequence are added |
| IdGen.Registrable | src/main/java/com/easttown/ticketsystem/util/IdGenerator.java:180-184 | the ids a batch registers are exactly its non-null, non-empty members |
| IdGen.RegistrableAppend | src/main/java/com/easttown/ticketsystem/util/IdGenerator.java:181-183 | registering one more id adds just that id when it is registrable |
| IdGen.NormalizeChar | src/main/java/com/easttown/ticketsystem/util/IdGenerator.java:132-141 | each character becomes a valid id character, and a valid one is kept |
| IdGen.Normalized | src/main/java/com/easttown/ticketsystem/util/IdGenerator.java:130-142 | normalizing keeps the length |
| IdGen.NormalizeChars | src/main/java/com/easttown/ticketsystem/util/IdGenerator.java:130-142 | the loop builds exactly the normalized string |
| IdGen.NormalizedValid | src/main/java/com/easttown/ticketsystem/util/IdGenerator.java:122-148 | a non-empty string normalizes to a valid id |
| IdGen.NormalizeKeepsValid | src/main/java/com/easttown/ticketsystem/util/IdGenerator.java:122-148 | a valid id normalizes to itself |
| IdGen.Base36 | src/main/java/com/easttown/ticketsystem/util/IdGenerator.java:92-95 | the base-36 form of the clock is non-empty and uses only lower-case letters and digits |
| IdGen.Base36Digit | src/main/java/com/easttown/ticketsystem/util/IdGenerator.java:92 | every base-36 digit is a lower-case letter or a digit |
| IdGen.Base36RoundTrip | src/main/java/com/easttown/ticketsystem/util/IdGenerator.java:92 | reading back the base-36 form gives the number |
| RandomId.CharsetChars | src/main/java/com/easttown/ticketsystem/util/RandomIdGenerator.java:11 | every character of the charset is a lower-case letter or a digit |
| RandomId.Rng.constructor | src/main/java/com/easttown/ticketsystem/util/RandomIdGenerator.java:13 | the random source starts at the beginning of its stream |
| RandomId.Rng.NextInt | src/main/java/com/easttown/ticketsystem/util/RandomIdGenerator.java:22 | nextInt(bound) is below the bound and takes one draw |
| RandomId.Drawn | src/main/java/com/easttown/ticketsystem/util/RandomIdGenerator.java:20-25 | n draws give n characters |
| RandomId.DrawnChars | src/main/java/com/easttown/ticketsystem/util/RandomIdGenerator.java:20-25 | every drawn character is a lower-case letter or a digit |
| RandomId.RandomChars | src/main/java/com/easttown/ticketsystem/util/RandomIdGenerator.java:21-24 | the loop builds exactly the n characters drawn, taking n draws |
| RandomId.CheckId | src/main/java/com/easttown/ticketsystem/util/RandomIdGenerator.java:52-62 | true exactly for a non-null id of 16 lower-case letters and digits |
| RandomId.GenerateId | src/main/java/com/easttown/ticketsystem/util/RandomIdGenerator.java:19-26 | 16 drawn characters, which form a valid id |
| RandomId.GenerateIdOfLength | src/main/java/com/easttown/ticketsystem/util/RandomIdGenerator.java:69-79 | a length of 0 or less throws and draws nothing; otherwise exactly length drawn characters |
| RandomId.UniqueFromSpec | src/main/java/com/easttown/ticketsystem/util/RandomIdGenerator.java:33-45 | an id returned is valid and not among the existing ids; the call throws exactly when all 100 attempts drew existing ids |
| RandomId.AttemptsUsed | src/main/java/com/easttown/ticketsystem/util/RandomIdGenerator.java:36-43 | the number of ids drawn is one past the index of the id returned, and 101 exactly when the call throws |
| RandomId.GenerateUniqueId | src/main/java/com/easttown/ticketsystem/util/RandomIdGenerator.java:33-45 | the loop returns the first drawn id not already existing, or throws after 100 attempts, having taken 16 draws for every id it drew |
| Login.CharCodes | src/main/resources/assets/ticketsystem/html/login.js:11 | TextEncoder's bytes for one character: one byte below 0x80 and the code itself, else a lead byte and 1 to 3 continuation bytes |
| Login.Utf8Codes | src/main/resources/assets/ticketsystem/html/login.js:11 | the UTF-8 encoding of a string has between one and four bytes per character |
| Login.Utf8Append | src/main/resources/assets/ticketsystem/html/login.js:11 | encoding a concatenation is concatenating the encodings |
| Login.Utf8Ascii | src/main/resources/assets/ticketsystem/html/login.js:11 | an ASCII string encodes to its own character codes |
| Login.Utf8AsciiBytes | src/main/resources/assets/ticketsystem/html/login.js:11 | an ASCII byte of an encoding is one of the string's characters |
| Login.Sha256Hex | src/main/resources/assets/ticketsystem/html/login.js:9-74 | the digest is the page's SHA-256 of the string's UTF-8 bytes, which is the FIPS 180-4 digest below 2^29 bytes |
| Login.GetConfig | src/main/resources/assets/ticketsystem/html/login.js:76-81 | a failed request gives the empty object, with neither hash set; otherwise the reply as parsed |
| Login.AllowHash | src/main/resources/assets/ticketsystem/html/login.js:87 | admin_hash_sha256 when truthy, else admin_hash when truthy, else the default hash |
| Login.AllowedHash | src/main/resources/assets/ticketsystem/html/login.js:86-87 | the page's allowed hash is the configured one or the digest of the built-in credential |
| Login.AllowedTruthy | src/main/resources/assets/ticketsystem/html/login.js:86-87 | the allowed hash is never falsy |
| Login.DefaultCredentialAccepted | src/main/resources/assets/ticketsystem/html/login.js:86-92 | with no hash configured, admin / fsefmgftc is accepted |
| Login.PaddedUserAccepted | src/main/resources/assets/ticketsystem/html/login.js:89-92 | the user name is trimmed, so " admin " with the default password is accepted too |
| Login.DefaultCredentialSpelled | src/main/resources/assets/ticketsystem/html/login.js:86-91 | the credential hashed for admin / fsefmgftc, with or without spaces around the user name, is the default credential |
| Login.TrimAdmin | src/main/resources/assets/ticketsystem/html/login.js:89 | trimming "admin" leaves it unchanged |
| Login.TrimPaddedAdmin | src/main/resources/assets/ticketsystem/html/login.js:89 | trimming " admin " gives "admin" |
| Login.LeadingSpaceDropped | src/main/resources/assets/ticketsystem/html/login.js:89 | trim's first half drops the leading space of " admin " |
| Login.TrailingSpaceDropped | src/main/resources/assets/ticketsystem/html/login.js:89 | trim's second half drops the trailing space of "admin " |
| Login.ConfiguredHashDecides | src/main/resources/assets/ticketsystem/html/login.js:87-92 | a non-empty admin_hash_sha256 decides alone: a credential is accepted exactly when its digest equals it |
| Login.LegacyHashDecides | src/main/resources/assets/ticketsystem/html/login.js:87-92 | admin_hash decides exactly when admin_hash_sha256 is falsy |
| Login.NonStringHashLocksOut | src/main/resources/assets/ticketsystem/html/login.js:87-92 | a configured hash that is not a string (compared with ===) accepts nobody |
| Login.MalformedHashLocksOut | src/main/resources/assets/ticketsystem/html/login.js:87-92 | a configured hash with a character that is not a lowercase hex digit accepts nobody |
| Login.AcceptsFipsDigest | src/main/resources/assets/ticketsystem/html/login.js:91-92 | below 2^29 bytes a credential is accepted exactly when the allowed hash is its FIPS 180-4 digest |
| Login.LoginPage.constructor | src/main/resources/assets/ticketsystem/html/login.js:2-6 | the page starts with the stored session and location, no hint and no click handler |
| Login.LoginPage.Init | src/main/resources/assets/ticketsystem/html/login.js:83-103 | a stored session "ok" sends the page to index.html and wires nothing; otherwise the click handler is wired with the allowed hash from the configuration reply |
| Login.LoginPage.Wire | src/main/resources/assets/ticketsystem/html/login.js:85-88 | the handler listens with the hash allowed by the configuration reply |
| Login.LoginPage.Click | src/main/resources/assets/ticketsystem/html/login.js:88-102 | an accepted credential stores session "ok" and goes to index.html; a rejected one shows the wrong-credentials hint and changes nothing else |
| Login.DefaultLoginFlow | src/main/resources/assets/ticketsystem/html/login.js:83-102 | with no hash configured, a fresh page that types admin / fsefmgftc ends logged in on index.html |
| Sha256.H0 | src/main/resources/assets/ticketsystem/html/login.js:23 | the initial hash value is the eight words H(0) |
| Sha256.ConstantsFromRoots | src/main/resources/assets/ticketsystem/html/login.js:13-23 | each of the 64 round constants is the first 32 fractional bits of the cube root of the t-th prime, and each of the 8 initial words those of the square root (sections 4.2.2 and 5.3.3 of FIPS 180-4) |
| Sha256.PaddedLength | src/main/resources/assets/ticketsystem/html/login.js:26 | the padded length is the smallest multiple of 64 with room for the message, the 0x80 byte and the length |
| Sha256.FillLength | src/main/resources/assets/ticketsystem/html/login.js:26 | the zero fill of FIPS 180-4 section 5.1.1 reaches exactly the padded length |
| Sha256.FipsPad | src/main/resources/assets/ticketsystem/html/login.js:26-33 | the padding of FIPS 180-4 section 5.1.1 fills whole 64-byte blocks |
| Sha256.JsPad | src/main/resources/assets/ticketsystem/html/login.js:26-33 | the page's padding: the message, 0x80, zeros, and the bit length modulo 2^32 in the last four bytes, big-endian |
| Sha256.PadMatchesFips | src/main/resources/assets/ticketsystem/html/login.js:26-33 | below 2^29 bytes the page's padding is the standard's |
| Sha256.PadDiffersAtLimit | src/main/resources/assets/ticketsystem/html/login.js:29-33 | at 2^29 bytes the page's 32-bit length field loses the high bit and its padding departs from the standard's |
| Sha256.BigEndianFour | src/main/resources/assets/ticketsystem/html/login.js:30-33 | the four length bytes the page writes are the big-endian bytes of the bit length |
| Sha256.Schedule | src/main/resources/assets/ticketsystem/html/login.js:37-45 | the message schedule of one block has 64 words |
| Sha256.Compress | src/main/resources/assets/ticketsystem/html/login.js:46-57 | one compression step keeps eight words |
| Sha256.HashBlocks | src/main/resources/assets/ticketsystem/html/login.js:36-58 | hashing any number of blocks yields eight words |
| Sha256.Serialize | src/main/resources/assets/ticketsystem/html/login.js:59-62 | serializing gives four bytes per word |
| Sha256.Digest | src/main/resources/assets/ticketsystem/html/login.js:9-62 | the FIPS 180-4 digest has 32 bytes |
| Sha256.DigitRoundTrip | src/main/resources/assets/ticketsystem/html/login.js:63 | each nibble's hex digit reads back as the nibble |
| Sha256.Hex | src/main/resources/assets/ticketsystem/html/login.js:63 | the hex rendering has two lowercase hex digits per byte |
| Sha256.HexRoundTrip | src/main/resources/assets/ticketsystem/html/login.js:63 | the hex rendering loses nothing: it reads back to the bytes |
| Sha256.HexDigest | src/main/resources/assets/ticketsystem/html/login.js:9-64 | the standard digest in hex is 64 lowercase hex digits |
| Sha256.PageDigest | src/main/resources/assets/ticketsystem/html/login.js:9-64 | the page's digest in hex is 64 lowercase hex digits |
| Sha256.PageDigestIsFips | src/main/resources/assets/ticketsystem/html/login.js:9-64 | below 2^29 bytes the page's digest is the FIPS 180-4 digest |
| Sha256.JsPadParts | src/main/resources/assets/ticketsystem/html/login.js:26-33 | a buffer holding the message, 0x80, zeros and the four length bytes is the page's padding |
| Sha256.PadMessage | src/main/resources/assets/ticketsystem/html/login.js:24-33 | the padded buffer is exactly the page's padding of the message |
| Sha256.LoadBlock | src/main/resources/assets/ticketsystem/html/login.js:37-40 | the first 16 schedule words are the block's big-endian words |
| Sha256.ExtendSchedule | src/main/resources/assets/ticketsystem/html/login.js:41-45 | words 16 to 63 follow the schedule recurrence modulo 2^32 |
| Sha256.ScheduleBlock | src/main/resources/assets/ticketsystem/html/login.js:37-45 | the schedule array is exactly the block's message schedule |
| Sha256.CompressBlock | src/main/resources/assets/ticketsystem/html/login.js:46-57 | the 64 rounds and the final additions turn the hash state into its compression with the schedule |
| Sha256.HashBlocksNext | src/main/resources/assets/ticketsystem/html/login.js:36-58 | hashing one more block is one more compression |
| Sha256.HashBlock | src/main/resources/assets/ticketsystem/html/login.js:37-57 | after a block the state is the hash of one block more |
| Sha256.HashPadded | src/main/resources/assets/ticketsystem/html/login.js:36-58 | after the loop the state is the hash of every block of the padded message |
| Sha256.SerializeBytes | src/main/resources/assets/ticketsystem/html/login.js:59-62 | bytes laid out four per word, high byte first, are the serialized state |
| Sha256.DigestBytes | src/main/resources/assets/ticketsystem/html/login.js:59-62 | the 32 output bytes are the serialized state |
| Sha256.Sha256HexJs | src/main/resources/assets/ticketsystem/html/login.js:9-64 | sha256HexJS returns the page's digest, which below 2^29 bytes is the FIPS 180-4 digest in hex |
| Logs.Filter | src/main/resources/assets/ticketsystem/html/logs.js:44-51 | the kept entries are exactly those of the list that pass, none added, order kept |
| Logs.Insert | src/main/resources/assets/ticketsystem/html/logs.js:52 | inserting an entry into an ordered list adds exactly that entry |
| Logs.SortNewestFirst | src/main/resources/assets/ticketsystem/html/logs.js:52 | sorting by stamp is a permutation of the list |
| Logs.ConsSorted | src/main/resources/assets/ticketsystem/html/logs.js:52 | an entry stamped no earlier than every entry of an ordered list can go in front |
| Logs.InsertSorted | src/main/resources/assets/ticketsystem/html/logs.js:52 | inserting into a list ordered newest first keeps it ordered |
| Logs.SortSorted | src/main/resources/assets/ticketsystem/html/logs.js:52 | the sorted list is ordered newest first by stamp (String(b.ts).localeCompare(String(a.ts))) |
| Logs.ApplyFiltersSpec | src/main/resources/assets/ticketsystem/html/logs.js:40-53 | applyFilters returns exactly the entries that pass the IP, type and keyword filters, each as often as in the input, newest first |
| Logs.NoFiltersKeepAll | src/main/resources/assets/ticketsystem/html/logs.js:40-53 | with every filter empty every entry is shown |
| Logs.FilterAll | src/main/resources/assets/ticketsystem/html/logs.js:44-51 | a filter that keeps everything returns the list unchanged |
| Logs.EscapeHtml | src/main/resources/assets/ticketsystem/html/logs.js:34-38 | the escaped text holds no '<' and no '>' and is at least as long as the original |
| Logs.UnescapeEscape | src/main/resources/assets/ticketsystem/html/logs.js:34-38 | escaping loses nothing: decoding the three entities gives back the text |
| Logs.UnescapeStep | src/main/resources/assets/ticketsystem/html/logs.js:35-37 | decoding undoes the escape of one character |
| Logs.UnescapeAmp | src/main/resources/assets/ticketsystem/html/logs.js:36 | "&amp;" decodes to '&' |
| Logs.UnescapeLt | src/main/resources/assets/ticketsystem/html/logs.js:36 | "&lt;" decodes to '<' |
| Logs.UnescapeGt | src/main/resources/assets/ticketsystem/html/logs.js:36 | "&gt;" decodes to '>' |
| Logs.EscapePlain | src/main/resources/assets/ticketsystem/html/logs.js:34-38 | text without '&', '<' or '>' is left as it is |
| Logs.TypeBadgeClass | src/main/resources/assets/ticketsystem/html/logs.js:12-17 | the four known types get their own badge class, any other type the default badge |
| Logs.TypeLabelZh | src/main/resources/assets/ticketsystem/html/logs.js:19-24 | the four known types get their own label, any other type the default label, never an empty one |
| Logs.BadgeMatchesLabel | src/main/resources/assets/ticketsystem/html/logs.js:12-24 | a type gets the default badge exactly when it gets the default label |
| Logs.IpLabel | src/main/resources/assets/ticketsystem/html/logs.js:56-65 | an entry's group label is its IP, or "unknown" when it has none, never empty |
| Logs.IpOptions | src/main/resources/assets/ticketsystem/html/logs.js:56 | the IP choices are distinct, non-empty labels |
| Logs.LabelsOffered | src/main/resources/assets/ticketsystem/html/logs.js:56 | every entry's label is offered |
| Logs.OfferedLabel | src/main/resources/assets/ticketsystem/html/logs.js:56 | every offered label belongs to some entry |
| Logs.IpSelection | src/main/resources/assets/ticketsystem/html/logs.js:57-59 | the selected IP survives the refill exactly when it is still offered (or is the "all" choice); otherwise the selection falls back to "all" |
| Logs.UnknownTrimmed | src/main/resources/assets/ticketsystem/html/logs.js:42 | the "unknown" choice survives trimming |
| Logs.UnknownOptionMissesEntriesWithoutIp | src/main/resources/assets/ticketsystem/html/logs.js:42-56 | entries without an IP produce the "unknown" choice, yet choosing it shows only entries whose IP is literally "unknown", never those without one |
| Logs.Members | src/main/resources/assets/ticketsystem/html/logs.js:64-68 | a group holds no more entries than the list |
| Logs.MembersExactly | src/main/resources/assets/ticketsystem/html/logs.js:64-68 | a group holds exactly the entries with that label |
| Logs.RenderGrouped | src/main/resources/assets/ticketsystem/html/logs.js:62-68 | the loop builds one group per label, in order of first appearance, each holding exactly the entries with that label in list order |
| Logs.AddToGroup | src/main/resources/assets/ticketsystem/html/logs.js:65-67 | one more entry goes to the end of its own group, a new group being opened at the end for a new label |
| Logs.MembersAbsent | src/main/resources/assets/ticketsystem/html/logs.js:64-68 | a label no entry has has an empty group |
| Logs.GroupStep | src/main/resources/assets/ticketsystem/html/logs.js:64-68 | a new entry adds its label only when it is new and joins only its own group |
| Logs.OccurrencesDistinct | src/main/resources/assets/ticketsystem/html/logs.js:63-68 | a label occurs once among the group keys |
| Logs.TotalSnoc | src/main/resources/assets/ticketsystem/html/logs.js:64-68 | one more entry adds one to the total of the groups listing its label |
| Logs.TotalAppendKey | src/main/resources/assets/ticketsystem/html/logs.js:64-68 | one more group key adds that group's size to the total |
| Logs.GroupsPartition | src/main/resources/assets/ticketsystem/html/logs.js:62-74 | the groups partition the entries: their sizes add up to the number of entries, and each entry is in exactly its own label's group |
| Logs.GroupSizes | src/main/resources/assets/ticketsystem/html/logs.js:74 | the group counts shown ("共 n 条") add up to the number of entries |
| ApiConfig.ChooseSpec | src/main/resources/assets/ticketsystem/html/api-config.js:20-59 | init's precedence: a usable game address (trimmed) wins, then a usable stored address (trimmed) with its stored source or 'browser_storage', else the default; a non-string game address falls to the default through the catch; the address is never empty |
| ApiConfig.StripApi | src/main/resources/assets/ticketsystem/html/api-config.js:207 | replace(/\/api$/, '') removes one trailing "/api" and nothing else |
| ApiConfig.Rewrite | src/main/resources/assets/ticketsystem/html/api-config.js:198-212 | a URL string starting with "/api" goes to the base without its "/api" followed by the path, unless the base is the default; anything else is passed on unchanged |
| ApiConfig.RewriteJoinsBase | src/main/resources/assets/ticketsystem/html/api-config.js:204-208 | for a base ending in "/api", "/api" + path goes to base + path |
| ApiConfig.ThroughUntouched | src/main/resources/assets/ticketsystem/html/api-config.js:198-212 | a request that is not an "/api" string passes every stacked wrapper unchanged |
| ApiConfig.LatestWrapperDecides | src/main/resources/assets/ticketsystem/html/api-config.js:194-212 | an "/api" request goes where the newest non-default wrapper sends it, since the older wrappers see an absolute URL |
| ApiConfig.DefaultWrapperTransparent | src/main/resources/assets/ticketsystem/html/api-config.js:204 | a wrapper installed with the default base changes no request |
| ApiConfig.ApiConfigManager.constructor | src/main/resources/assets/ticketsystem/html/api-config.js:5-17 | a fresh manager has no current address or source, the browser's storage as given and no wrapper yet |
| ApiConfig.ApiConfigManager.Init | src/main/resources/assets/ticketsystem/html/api-config.js:20-75 | the configuration request goes through the wrappers already installed; the chosen address and source are set, one more wrapper is stacked with it, and the address is returned |
| ApiConfig.ApiConfigManager.SaveToBrowser | src/main/resources/assets/ticketsystem/html/api-config.js:137-160 | a blank address or one that does not parse is refused and changes nothing; otherwise the trimmed address and 'browser_storage' are stored and init runs again |
| ApiConfig.ApiConfigManager.ClearBrowserCache | src/main/resources/assets/ticketsystem/html/api-config.js:163-171 | both storage keys are removed and init runs again |
| ApiConfig.ApiConfigManager.LoadFromGameConfig | src/main/resources/assets/ticketsystem/html/api-config.js:174-191 | a usable game address becomes the current one with source game_config; otherwise nothing changes; no wrapper is installed |
| ApiConfig.SaveThenClear | src/main/resources/assets/ticketsystem/html/api-config.js:137-212 | after saving a custom address and clearing it, the manager reports the default address, yet "/api" requests still go to the saved address through the wrapper left behind |
| ApiConfig.SavedChoice | src/main/resources/assets/ticketsystem/html/api-config.js:35-38 | an address saved to the browser is chosen on the next init with source browser_storage when the game offers none |
| ApiConfig.StaleRedirect | src/main/resources/assets/ticketsystem/html/api-config.js:194-212 | behind the wrappers default, custom, default an "/api" request still goes to the custom address |
| FaresApi.IntValue | src/main/java/com/easttown/ticketsystem/web/WebServer.java:719 | intValue() of a decoded number truncates toward zero and saturates at the Java int bounds; a whole number in range is kept |
| FaresApi.FirstNumber | src/main/java/com/easttown/ticketsystem/web/WebServer.java:713-727 | the price is read from the first of cost_regular, cost, price that holds a number, and is missing exactly when none does |
| FaresApi.CheckFare | src/main/java/com/easttown/ticketsystem/web/WebServer.java:703-737 | a single fare is accepted exactly when both endpoints are given, a price is present and positive; a non-string endpoint is a failed cast (500); a missing price, missing endpoints and a non-positive price are each refused with 400 in that order |
| FaresApi.GetFares | src/main/java/com/easttown/ticketsystem/web/WebServer.java:630-690 | the handler answers exactly the GET result: one fare (either direction) for a path with from and to, else the whole listing |
| FaresApi.CollectEntries | src/main/java/com/easttown/ticketsystem/web/WebServer.java:757-799 | the loops collect exactly the batch entries: format 1 segments when they yield any, else the format 2 objects |
| FaresApi.AddEntries | src/main/java/com/easttown/ticketsystem/web/WebServer.java:806-839 | the loop's counters, errors and fare table are exactly those of trying every entry in turn, stopping at a failed cast; stations and lines are untouched |
| FaresApi.AddEntry | src/main/java/com/easttown/ticketsystem/web/WebServer.java:810-838 | one entry: invalid data counts as a failure with its error, a valid fare is added or counted as failed, a non-string endpoint aborts |
| FaresApi.BulkFares | src/main/java/com/easttown/ticketsystem/web/WebServer.java:752-851 | the handler's reply and fare table are exactly the bulk result |
| FaresApi.PostFare | src/main/java/com/easttown/ticketsystem/web/WebServer.java:692-750 | the handler's reply and fare table are exactly the POST result: the bulk path when any bulk key is present, else the single fare |
| FaresApi.PutFareAt | src/main/java/com/easttown/ticketsystem/web/WebServer.java:853-932 | the handler's reply and fare table are exactly the PUT result |
| FaresApi.DeleteFare | src/main/java/com/easttown/ticketsystem/web/WebServer.java:934-971 | the handler's reply and fare table are exactly the DELETE result |
| FaresApi.RunCounts | src/main/java/com/easttown/ticketsystem/web/WebServer.java:806-839 | a batch aborts exactly when some entry has a non-string endpoint; otherwise every entry counts once as a success or a failure; there is one error per failure; no fare is lost |
| FaresApi.RunSaturates | src/main/java/com/easttown/ticketsystem/web/WebServer.java:806-839 | after a batch, every valid entry whose stations exist has a fare under its key |
| FaresApi.RunIdle | src/main/java/com/easttown/ticketsystem/web/WebServer.java:806-839 | a batch whose fares are all present already adds nothing and succeeds nowhere |
| FaresApi.BulkAccounting | src/main/java/com/easttown/ticketsystem/web/WebServer.java:752-851 | an empty batch is refused with 400; a batch fails with 500 exactly when an entry has a bad endpoint; a completed batch answers 201, counts every entry once with one error per failure, and keeps every earlier fare |
| FaresApi.ResendFailsAll | src/main/java/com/easttown/ticketsystem/web/WebServer.java:752-851 | posting the same completed batch again changes nothing and fails every entry |
| FaresApi.SegmentEntriesPriced | src/main/java/com/easttown/ticketsystem/web/WebServer.java:762-783 | every format 1 entry has string endpoints and the batch's regular price, and is valid exactly when that price is positive |
| FaresApi.EditorPostRejected | src/main/java/com/easttown/ticketsystem/web/WebServer.java:696-804 | the main page's single-segment save (from, to, cost_regular, cost_express) is always sent to the bulk handler, which refuses it with 400 and adds nothing |
| FaresApi.SinglePost | src/main/java/com/easttown/ticketsystem/web/WebServer.java:701-750 | a single POST adds exactly the fare it reads when the fare is valid, both stations exist and the pair has no fare yet; otherwise nothing changes and the reply is a 400 or a 500 |
| FaresApi.PutReplaces | src/main/java/com/easttown/ticketsystem/web/WebServer.java:904-931 | a PUT of an accepted fare answers 404 when the pair has no fare, replaces it when both stations exist, and otherwise removes the old fare and answers 500 |
| FaresApi.PutRejectKeeps | src/main/java/com/easttown/ticketsystem/web/WebServer.java:877-902 | a PUT whose fare is refused changes nothing and answers 400 or 500 |
| FaresApi.PutCollisionLosesFare | src/main/java/com/easttown/ticketsystem/web/WebServer.java:904-930 | PUT 01-02-03 → 04 finds the fare stored for 01-02 → 03-04 under the same key, removes it, and then fails to add its own, losing a fare |
| FaresApi.CollisionKeys | src/main/java/com/easttown/ticketsystem/web/WebServer.java:905 | "01-02" to "03-04" and "01-02-03" to "04" share the fare key "01-02-03-04" |
| FaresApi.CollisionRequest | src/main/java/com/easttown/ticketsystem/web/WebServer.java:857-902 | the PUT body from 01-02-03 to 04 with price 7 is accepted as that fare |
| FaresApi.DeleteRemoves | src/main/java/com/easttown/ticketsystem/web/WebServer.java:934-971 | a DELETE removes at most one fare and changes nothing else; with both endpoints in the body it removes exactly that pair's fare or answers 404 |
| FaresApi.ListingCovers | src/main/java/com/easttown/ticketsystem/web/WebServer.java:673-689 | the listing has one row per fare, every fare appears, and each row carries the fare's endpoints and its price in all four price fields |
| FaresApi.GetOneFare | src/main/java/com/easttown/ticketsystem/web/WebServer.java:635-670 | a path with from and to answers that pair's fare in either direction, or 404 |

## Left out

- Transport and pages: HTTP request parsing, routing, status plumbing, JSON (Gson) encoding, the static-file, config and export handlers, browser fetch, the DOM, SVG, canvas, image and spreadsheet export, and localStorage. Request bodies are maps of tagged values, responses are status codes with the fields the handler fills, and storage is a field of the page objects.
- Prompt and confirm dialogs in main.js and console.js are modelled as the answers they return (an absent answer is a cancel); alert messages are not modelled.
- console.js nameKey, parseCode, segFare and sumLineFare are the same code as in main.js, so the console module uses the main page's definitions; only its bestFareBetweenCodes (no transfer search), table and line-row edits are modelled separately.
- The line editor's delete and edit buttons and the console's segment-fare click only issue API calls and redraw; the effect of those calls is modelled in the fares handler and the registry.
- main.js fareDebugLog and its debug panel (lines 145-237) are diagnostics only.
- Persistence: the NetworkManager JSON load and save, the discount configuration file and the server logger's file writes; `reloadAll`, `getStatus` and the statistics strings built from them.
- validateFareData's call to NetworkManager.initialize() is not modelled; the registry is passed in.
- Floating point: discounts (a floor of a double product), RouteCalculator.estimateFare, the sqrt in the StationManager and StationManagerCompat distance, coin values and the ticket price service are integer-valued function parameters; hexToRgb, luminance and the stripe backgrounds in main.js are not modelled.
- Java int arithmetic is modelled with unbounded integers: overflow of fare sums, route distances and coin totals is not modelled.
- Java HashMap iteration order (the registry's station, line and fare orders, PriceCalculator's eviction order) is a sequence given as a parameter.
- FareEngine.BuildStationGroups: the model lists the shared groups in the order their keys first appear among the stations, where Java returns them in the unspecified order of a HashMap built by Collectors.toMap; for a station whose name and English name both key shared groups, findStationGroup may therefore find the other of the two groups in Java.
- RouteCalc.Search: PriorityQueue ties are broken by taking the first queued minimum; Java's heap may pick a different station of equal distance, and with it a different route of the same price.
- JavaScript localeCompare is modelled as lexicographic order on Unicode scalar values; toLowerCase is ASCII-only (Java's String.toLowerCase() likewise, see the lines below); property lookups on plain objects do not model inherited Object.prototype keys.
- Number(x) is modelled for an optional sign followed by ASCII digits; fractions, exponents and hexadecimal literals are not modelled.
- RouteCalculator findMinTransferRoute, findAllRoutes, getRouteDescription and Route.getDescription/toString are text or unused alternatives and are not modelled.
- NetworkManager getLinesContainingStation and getStationLineInfo, and the FareManager methods that only delegate to the registry in one line, are covered by the registry methods themselves; LineManager is not part of this model.
- LineData.Line.SetStationCodes: the Java setter keeps the caller's list, so later changes to that list show through the line; the model copies the sequence and does not model this aliasing.
- StationCompat: getStationData returns the station's coordinates as a map; only the lookup is modelled.
- Gate: the detection areas and their update (GateBlockEntity.java:89-126, 220-249), closeGate (252-260), the player tags (164-166), the failure messages and logging (409-438), and the setters and getters (491-570), which only assign and send block updates.
- TicketMachine: dropContents (201-223), the item handler and capabilities.
- IdGen: getStats only formats counts into a string.
- ApiConfig: updateUi (78-134) only writes the DOM; whether a URL parses is a parameter of the model.
- Login: the WebCrypto branch of sha256Hex (login.js:68-71) is a foreign call; the model uses the JavaScript fallback, which equals FIPS 180-4 SHA-256 for inputs below 2^29 bytes. The /api/log report after login is not modelled.
- Logs: formatTime, the timeline view, the markup, fetch and the event listeners are not modelled; JSON.stringify of an entry's detail is the given serialized text.
- Logs.SortNewestFirst: states that the result is a permutation sorted newest first, not the order among entries with equal time stamps (JavaScript's sort is stable).
- SecureRandom is a stream of draws given to the generators, and the clock is a parameter; the concurrency of the web server's thread pool is not modelled (handlers run one at a time).
- MainEditor.BulkSelection.ApplyBulk: always clears the selection after sending, whereas main.js:96-99 leaves it selected when the refresh that reloads stations, lines and fares rejects; the refresh is network I/O, which the model does not have.
- Java's String.toLowerCase() lower-cases all of Unicode under the default locale, and Integer.parseInt accepts any Unicode decimal digit; the model lower-cases ASCII only, in a fixed locale, and parses ASCII digits only. The members below inherit this:
- IdGen.IdRegistry.NormalizeId: lower-cases ASCII only, so a character that Java's toLowerCase() (IdGenerator.java:128) maps into [a-z], such as the Kelvin sign U+212A, becomes '_' in the model, and an id made only of such characters falls back to a random id where Java keeps it; under a Turkish default locale Java turns 'I' into 'ı', which the model does not.
- IdGen.Normalized: keeps the length because lower-casing is ASCII; Java's toLowerCase() turns 'İ' (U+0130) into two characters, so the Java result can be longer than its input.
- StationCompat.CodeBase: lower-cases ASCII only; under a Turkish default locale Java's toLowerCase() (StationManagerCompat.java:156) turns 'I' into 'ı', which lies outside [a-z0-9_].
- StationMgr.MaxSuffix: reads only ASCII digits after the prefix; Integer.parseInt (StationManager.java:237) also reads other Unicode decimal digits, so a code such as "L1-٠٥" counts as 5 in Java and is skipped by the model.
- StationMgr.LargestNumber: ignores suffixes written in non-ASCII decimal digits, which Integer.parseInt (StationManager.java:237) counts.
- FareEngine.ParseCodeBadNumber: "not an int" means not ASCII digits; Integer.parseInt (FareCalculationEngine.java:47) reads any Unicode decimal digit, so "A-٠٥" parses to ("A", 5) in Java and to ("A", 0) in the model.
- ApiConfig.ApiConfigManager.SaveToBrowser: runs the re-initialisation to completion before returning; api-config.js:156 calls init() without await, so in the browser the call returns and shows its alert while the old address is still current.
- ApiConfig.ApiConfigManager.ClearBrowserCache: likewise runs init() to completion, where api-config.js:168 does not await it.
- Network.Registry.ValidateData: states which issues occur, not how many; Java adds one message per occurrence, so a line that lists an unknown code twice yields two messages where the model's statement is about the set of issues.
- Java's String.compareTo (NetworkManager.java:367 and 385, PriceCalculator.java:252) compares UTF-16 code units, while the model's code order compares Unicode scalar values. The two orders differ only when a character above U+FFFF meets one in U+E000 to U+FFFF: for the codes "Ａ" (U+FF21) and "😀" (U+1F600) Java puts "😀" first and the model puts "Ａ" first. The symmetry lemmas hold under either order; the members below inherit the difference in which code comes first:
- Network.FareKey: joins the codes in Unicode scalar order, so for such a pair its key has the codes the other way round from getFareKey's (Network.FareKeySymmetric is unaffected).
- Network.NormalizeFare: orders the endpoints in Unicode scalar order, so for such a pair it keeps the codes where normalizeFare swaps them, and the reverse.
- PriceCalc.CacheKeySymmetric: the cache key behind it orders the identifiers in Unicode scalar order, so for such a pair the key string differs from getNormalizedCacheKey's; symmetry is unaffected.
