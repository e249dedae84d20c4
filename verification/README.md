# masterbot: verified model

A Dafny model of the parts of masterbot (a chat bot written in Go) in which several actors, or
several representations of one thing, have to agree, with proofs that they do. Each module models
one component; classes and loops stand where the Go code updates state in place, functions where it
computes.

- **Flights, Registration, RegistrationRuns, Refresh, RefreshSpacing, RefreshRuns** (`internal/coupang`):
  the product tracker. Lookups, jobs, refreshes and sweeps interleave freely: one event of one agent is
  one store call, one critical section of the mutex, or one channel close, and every answer of a store
  or provider is chosen by the event. A theorem over all event lists therefore covers every schedule, any number of agents
  and every provider behaviour. `Flights` holds the flight map twice: as the class of the mutex's
  critical sections, and as a ledger that also records who must complete each flight.
- **Budget, BudgetClock, Capacity** (`internal/coupang`): the sliding-window budget with its
  in-place compaction, first on the stamps it is given, then in real time with sweeps whose stamps
  are late; and eviction of the least recently queried products.
- **CalcSyntax, CalcLexer, Calculator, CalcMeaning** (`internal/command/calc.go`): lexer, grammar and the
  evaluator that computes while it parses, over any number type.
- **Grouping**: the three printers of thousands separators.
- **AutoQuery, AutoQueryRuns, AutoQueryRace** (`internal/bot/auto_query.go`): budget, cooldown and degradation,
  first with one evaluation after another, then with evaluations interleaved.
- **LottoCalendar, LottoNumbers, LottoTickets, LottoAnswers** (`internal/lotto`, `internal/store/lotto.go`):
  draws, number sets and the ticket book.
- **AccessTables, Access, AccessLog, AccessRace** (`internal/store/access_runtime.go`, `internal/bot/access.go`,
  `internal/bot/access_manager.go`): the ACL tables and the controller's copy of them, first with one
  mutation after another, then with mutations interleaved.
- **Stamps, Rollups, Retention, RollupCounts** (`internal/metrics/sqlite.go`): rollups as aggregates of
  the log.
- **Dispatch, Router, DispatchAnswers** (`internal/bot/router_dispatch.go`, `router_parse.go`): what one message
  runs, first as a function of the registry and the answers, then as the router's own steps.
- **Options, Text, Sublists**: an option type; trimming and splitting of strings; what it means that a
  list is the wanted part of another.

Where a machine or a specification function says step by step what happens, a module beside it
(RegistrationRuns, RefreshRuns, CalcMeaning, AutoQueryRuns, LottoAnswers, AccessLog, RollupCounts,
DispatchAnswers) says what comes of it in other terms: by the answers that were given, by what was
typed, by the messages granted before, by the rows and events themselves.

## Where the code does less than expected

- Exactly-once bootstrap needs coalescing: `Registration.ExactlyOnceIffCoalescing` has the run
  that breaks it without.
- The in-flight flag implies a held flight only while the deferred clearing write succeeds; the
  code logs nothing and goes on when it fails (`Refresh.FlagImpliesFlightIffClearIsReliable`).
- Refresh spacing rests on sweeps running one after the other, as the watchlist's loop does
  (`internal/scraper/coupang_watchlist.go:53-98`), not on the in-flight check: a sweep decides on
  the rows it listed at its beginning (`RefreshSpacing.SpacingIffSweepsDoNotOverlap`).
- The refresh budget answers as if it remembered every grant only while no stamp is later than both
  an earlier and a later one, and a sweep breaks that: it stamps every product with its starting time
  (`internal/coupang/service_refresh.go:157-187`) while scheduled and read-through refreshes use the
  present time (`Budget.ForgettingIsSafeIffNoPeak`, `BudgetClock.SweepMakesPeak`). In real time the
  limit holds for intervals up to the window less a sweep's longest duration, and for no longer ones
  (`BudgetClock.RealBoundIffWindowLessDelay`).
- A degraded room can still get a grant from an evaluation that read the old policy before
  (`AutoQueryRace.StickyIffNothingInFlight`), and a late degradation overwrites a newer policy.
- Two access mutations at the same time can leave the controller with a stale copy, when the reload
  that read first is applied last (`AccessRace.CopyInStepIffReloadsDoNotOverlap`).
- The audit log rebuilds the tables only while no chat id of an intent call has a colon
  (`AccessLog.ColonsConfuse`).
- Two rooms whose names go on from each other with a bar can share a cooldown
  (`AutoQueryRuns.SharesCooldownIff`).
- Eviction restores the capacity only when enough products were queried within the year.
- `formatKRW` of a negative amount with 3, 6, 9, ... digits prints "-,123".
- The registration round is too high when the known draw is dated on or after the open Saturday.
- Degrading a room's policy has no effect for messages without a room.
- A policy listing only unknown handlers reads back with all the default handlers of the catalog.
- A message that is the bare prefix is no slash command and reaches the fallbacks.

## Assumptions

- Times are integers that do not decrease along a run where a statement says so; Korean time is a
  fixed offset. Integers are unbounded but for `Grouping`, where 64-bit negation wraps.
- A SQL statement or transaction is atomic, and a read sees all earlier commits. Foreign keys are
  enforced (`internal/sqliteutil/sqliteutil.go:19`).
- Clocks, random numbers, and the answers of providers, stores, catalogs and handlers are
  parameters, with no condition on them unless a statement names one.
- Arithmetic of the calculator is a parameter; nothing depends on how numbers round.

## Model

| member | source | states |
|---|---|---|
| Flights.FlightTable.Begin | internal/coupang/service_registration.go:330-339 | the first caller for a track gets a new, open flight and leads; any other gets the open one and the map is unchanged |
| Flights.FlightTable.Complete | internal/coupang/service_registration.go:341-354 | the open flight of the track leaves the map and its channel, still open until then, is closed; without one nothing changes |
| Flights.FlightTable.Detach | internal/coupang/service_registration.go:342-350 | under the mutex: the outcome is published and the flight leaves the map, its channel still open |
| Flights.FlightTable.CloseChannel | internal/coupang/service_registration.go:351-353 | after the mutex: an open channel of a flight off the map is closed |
| Flights.BeginDuties | internal/coupang/service_registration.go:52-69 | a new flight gives its leader the duty to complete it and leaves all other duties |
| Flights.HandOverDuties | internal/coupang/service_registration.go:200-263 | the job gets the leader's duty, the leader has none left, all others keep theirs |
| Flights.RemoveDuties | internal/coupang/service_registration.go:341-350 | the duty to complete becomes the duty to close that flight, all others stay |
| Flights.CloseDuties | internal/coupang/service_registration.go:351-353 | the duty to close goes, all others stay |
| Flights.BeginKeeps | internal/coupang/service_registration.go:330-339 | beginning a flight keeps: every open flight has one owner who means that very flight, and every flight is open, closing or closed once |
| Flights.HandOverKeeps | internal/coupang/service_registration.go:200-263 | handing the leader's flight to its job keeps the same |
| Flights.RemoveKeeps | internal/coupang/service_registration.go:341-354 | taking a flight off the map by track id takes the caller's own flight, and keeps the same |
| Flights.CloseKeeps | internal/coupang/service_registration.go:341-354 | closing outside the mutex keeps the same, so no channel is closed twice |
| Flights.QuietMeansClosedOnce | internal/coupang/service_registration.go:341-354 | a channel is closed at most once, and exactly once when nobody has a duty left |
| Registration.ExactlyOnceIffCoalescing | internal/coupang/service_registration.go:52-103 | over every interleaving of lookups, timed-out leaders, jobs and evictions, a track id that was never evicted is bootstrapped at most once, exactly when coalescing is on; without it two lookups in step upsert twice |
| Registration.OneOwnerPerFlight | internal/coupang/service_registration.go:105-140 | in every reachable state an open registration flight has exactly one agent that must complete it, and completion by track id hits that agent's own flight |
| Registration.ChannelsClosedExactlyOnce | internal/coupang/service_registration.go:200-263 | on every exit of leader and job: no done channel is closed twice, and when all have left each was closed once |
| Registration.StepKeepsRows | internal/coupang/service_registration.go:82-103 | every step keeps: an agent that saw no row inside its flight is right about that until it upserts, and a track that was bootstrapped was bootstrapped once and has its row (evicted track ids aside) |
| Registration.RaceUpsertsTwice | internal/coupang/service_registration.go:71-103 | the concrete run in which two lookups without coalescing both upsert |
| RegistrationRuns.LookupsRegister | internal/coupang/service_registration.go:12-103 | in every run in which nothing is deleted and nothing fails, coalescing or not, time-outs and jobs included: the rows are those from the start and those upserted, a track with a row from the start is not upserted, and once all have left every track looked up has its row, but for mobile lookups answered with a row of the base product; with coalescing an upserted track was upserted once |
| RegistrationRuns.NothingIsRegisteredUnasked | internal/coupang/service_registration.go:30-103 | over every run, failures, time-outs and evictions included, a track is upserted only after it was missed outside and inside its registration (under the base id too for a mobile URL), was admitted and was resolved; no other row appears but by the merge of a product that was found |
| RegistrationRuns.TimeOutStartsOneJob | internal/coupang/service_registration.go:105-124 | a leader whose provider call timed out leaves without completing, one job takes over its track and flight, and a job that times out starts no other |
| RegistrationRuns.EveryAnswerLeadsOut | internal/coupang/service_registration.go:52-140 | each answered question takes a lookup or job closer to its end, twelve at most |
| Refresh.RefreshMutualExclusion | internal/coupang/service_refresh.go:211-242 | at most one refresh body runs per track whatever started it, and it holds the flight |
| Refresh.FlightsFinishedExactlyOnce | internal/coupang/service_refresh.go:390-415 | every begun refresh flight is finished once, budget-denied ones too |
| Refresh.FlagImpliesFlightIffClearIsReliable | internal/coupang/service_refresh.go:211-268 | refresh_in_flight implies a held flight in every run from a fresh start exactly when the deferred clear always reaches the store |
| RefreshSpacing.SpacingIffSweepsDoNotOverlap | internal/coupang/service_refresh.go:137-171 | two sweep refreshes of a settled product reach the in-flight mark with starts at least MinRefreshInterval apart, in every run, whatever tier a sweep has just given the product, exactly when sweeps run one at a time or the interval is not positive |
| RefreshSpacing.StepKeepsTimes | internal/coupang/service_refresh.go:211-242 | every step keeps: the attempt column is never behind a sweep's start nor ahead of the clock, and from the mark to the clear it is the running refresh's own start |
| RefreshSpacing.OverlapBreaksSpacing | internal/coupang/service_refresh.go:152-171 | the concrete run of two overlapping sweeps that refresh one product twice at once |
| RefreshRuns.PickedIff | internal/coupang/service_refresh.go:497-547 | a sweep never picks a product in flight, tried within the minimum interval or backing off; any other never seen is picked, one seen at v exactly from the interval of its tier after v on (and the recheck backoff when its mapping needs one), in a warm-up exactly past the freshness |
| RefreshRuns.HotterIsPickedSooner | internal/coupang/service_refresh.go:538-547 | with hot at most warm at most cold, what is picked as cold is picked as warm, and what is picked as warm as hot |
| RefreshRuns.TierIff | internal/coupang/service_refresh.go:549-560 | cold when not queried within twice the window; within it hot and warm exactly from their thresholds on |
| RefreshRuns.MoreUsedIsPickedSooner | internal/coupang/service_refresh.go:173-181 | a product used at least as much is picked whenever it would be with less use |
| RefreshRuns.SweepBegins | internal/coupang/service_refresh.go:152-157 | a sweep lists every product as it is then and reads the clock once after that |
| RefreshRuns.PickedOnce | internal/coupang/service_refresh.go:158-171 | a sweep picks only what it listed, and each product once |
| RefreshRuns.NothingIsFetchedUnasked | internal/coupang/service_refresh.go:183-242 | in every run a refresh asks the provider only after the budget granted it (but a direct one), the product was loaded and the mark was stored, and stores only what the provider answered |
| RefreshRuns.OtherWrites | internal/coupang/service_refresh.go:293-334 | registrations, queries, evictions and a refresh of a product evicted meanwhile: what each leaves in the two columns, all other rows as they were |
| RefreshRuns.RefreshEndToEnd | internal/coupang/service_refresh.go:211-242 | a refresh nobody interrupts marks the product in flight with the present time and, fetched or not, leaves it not in flight and tried now, its flight closed once, all else as it was |
| Budget.CompactAfter | internal/coupang/service_refresh.go:672-678 | compacting the history in place leaves, in front, exactly the entries after the cutoff in order |
| Budget.BudgetWindow.Allow | internal/coupang/service_refresh.go:665-685 | the answer and the new history are those of PrunedAllow on the old history |
| Budget.ForgettingIsSafeIffNoPeak | internal/coupang/service_refresh.go:665-685 | forgetting old grants changes no answer, for any limit and positive window, exactly when no call is later than both an earlier and a later one |
| Budget.PruningRefinesRemembering | internal/coupang/service_refresh.go:665-685 | on a clock without such a peak (or, for a window that is not positive, one that does not go back) forgetting changes no answer |
| Budget.PeakTells | internal/coupang/service_refresh.go:672-678 | for the first peak of any run, the limit and window with which the window grants a call that remembering denies |
| Budget.ClockMustNotGoBack | internal/coupang/service_refresh.go:672-678 | a concrete run with a clock that goes back in which forgetting changes an answer |
| Budget.SpecNeverExceedsLimit | internal/coupang/service_refresh.go:665-685 | with every grant remembered, no half-open window of the configured length holds more than limit grants, whatever the clock does |
| Budget.NoWindowExceedsLimit | internal/coupang/service_refresh.go:665-685 | on a clock without a peak no such window holds more than limit of the pruning window's own grants |
| Budget.Replay | internal/coupang/service_refresh.go:665-685 | driving one window object through any run gives the answers of PrunedRun, and of the specification when the clock has no peak |
| Budget.GrantedIffRoomLeft | internal/coupang/service_refresh.go:665-685 | on a clock without a peak a call is granted exactly when fewer than limit of the calls granted before it are within the window |
| BudgetClock.SweepMakesPeak | internal/coupang/service_refresh.go:157-187 | a sweep that asks again with its starting time after a scheduled refresh makes a peak, for any such times, and is granted what remembering denies |
| BudgetClock.RealIntervalKeepsLimit | internal/coupang/service_refresh.go:183-193 | with stamps that lag at most a delay behind real time, no real interval up to the window less the delay holds more than limit grants |
| BudgetClock.RealBoundIffWindowLessDelay | internal/coupang/service_refresh.go:183-193 | over all runs of sweeps lasting at most the delay and other callers, that is so exactly for intervals up to the window less the delay |
| Capacity.ProductStore.DeleteProducts | internal/store/sqlite.go:527-565 | exactly the named products and their price history go, and the count says how many products went |
| Capacity.ProductStore.EnforceCapacity | internal/coupang/service_refresh.go:562-589 | nothing below capacity; otherwise exactly the tail of the listing goes, only rows queried within the year, and no survivor of that year was queried before a deleted one; an error when nothing is listed |
| Capacity.CapacityRestoredIffEnoughListed | internal/coupang/service_refresh.go:562-589 | the table is back under capacity exactly when the excess is at most the number of products queried within the year, and then it fits exactly |
| Capacity.CapacityRestored | internal/coupang/service_refresh.go:562-589 | with all products queried within the year and reserve at most MaxProducts, capacity is restored |
| CalcSyntax.ParseIffPrint | internal/command/calc.go:203-253 | parseExpr(0) consumes a whole token list into a tree exactly when the tree is well formed and prints as that list; so no list has two readings |
| CalcSyntax.ParenthesizeKeepsMeaning | internal/command/calc.go:248-253 | minimal parentheses make a well-formed tree and stripping them gives the tree back |
| CalcSyntax.ParenthesizeIsMinimal | internal/command/calc.go:316-327 | no well-formed writing of the same tree has fewer parentheses |
| CalcSyntax.ParsePrintMinimal | internal/command/calc.go:203-253 | a tree printed with minimal parentheses parses back to itself up to the end |
| CalcLexer.LexSpell | internal/command/calc.go:107-178 | lexing gives back the tokens that were spelled, whatever blanks stand between them |
| CalcLexer.LexKeepsText | internal/command/calc.go:107-178 | the tokens of a text that lexes are the text without its blanks |
| CalcLexer.CalculatorRoundTrip | internal/command/calc.go:330-346 | every tree, written with minimal parentheses and any blanks, lexes and parses back to itself with nothing left over |
| Calculator.FusedExpr | internal/command/calc.go:203-231 | a successful call leaves strictly less input |
| Calculator.FusedIsParseThenEval | internal/command/calc.go:203-246 | evaluating while parsing gives the same value and rest as parsing first and evaluating the tree, at every binding power |
| Calculator.EvalTextIffTree | internal/command/calc.go:330-346 | evalExpr returns v exactly when the text spells a well-formed tree with value v, and v is finite |
| CalcMeaning.ParsesTheGrammar | internal/command/calc.go:248-253 | the calculator reads exactly the layered grammar: + and - below *, / and %, those below ^, which goes to the right as all others to the left, and signs tightest |
| CalcMeaning.TwoOperators | internal/command/calc.go:316-327 | of two operators the left one is applied first when it is of a tighter group, or of the same one other than ^; else the right one |
| CalcMeaning.SignFirst | internal/command/calc.go:288-297 | a sign belongs to the number behind it, before any operator |
| CalcMeaning.TypedOperation | internal/command/calc.go:255-278 | what each of the six operators computes as typed between two numbers; dividing by zero or a result that is not finite is an error |
| CalcMeaning.TypedNumber | internal/command/calc.go:280-314 | a number, a signed number and a number in parentheses, as typed |
| CalcMeaning.NumeralIsLongest | internal/command/calc.go:148-172 | the lexer takes the longest run of digits with at most one dot |
| Calculator.Lexer.Next | internal/command/calc.go:107-146 | the lexer object returns the next token of the rest of the text and moves past it |
| Calculator.Parser.ParseExpr | internal/command/calc.go:203-231 | the parser object returns what the fused evaluator returns and stands where it stops |
| Calculator.Parser.ParsePrefix | internal/command/calc.go:233-246 | likewise for prefix forms |
| Calculator.Parser.ParseUnary | internal/command/calc.go:288-297 | likewise for signs |
| Calculator.Parser.ParseParenthesized | internal/command/calc.go:299-314 | likewise for parentheses |
| Calculator.EvalExpr | internal/command/calc.go:330-346 | the whole method returns EvalText of its input |
| Grouping.Itoa | internal/scraper/coin_cache.go:269-279 | the decimal numeral of n |
| Grouping.FormatWithCommasCoin | internal/scraper/coin_cache.go:239-267 | the grouped decimal of the absolute value; 0 for the smallest 64-bit integer |
| Grouping.FormatKRW | internal/command/lotto.go:407-421 | the characters of the signed numeral grouped in threes from the right |
| Grouping.FormatChartPrice | internal/command/chart.go:946-974 | sign, grouped whole part, two digits of cents |
| Grouping.ThreePrinters | internal/command/chart.go:960-973 | the three printers agree on every non-negative 64-bit integer (as cents for the chart printer, which the code reaches through a float64 that is exact up to 2^53), and deleting the commas and reading gives it back |
| Grouping.GroupedReadsBack | internal/scraper/coin_cache.go:239-279 | deleting the commas of a grouped decimal and reading it gives the number |
| Grouping.CommaPlaces | internal/scraper/coin_cache.go:239-267 | a grouped numeral has its commas exactly at every fourth place from the right |
| Grouping.ScannedIsGroup | internal/command/chart.go:960-973 | scanning by index puts the same commas as slicing from the right |
| Grouping.NegativeKRWIffDigitCount | internal/command/lotto.go:407-421 | formatKRW of a negative amount is the sign and the grouped digits exactly when the digit count is no multiple of three |
| AutoQuery.LimiterDecidesByGrants | internal/bot/auto_query.go:285-307 | with a clock that does not go back every decision is the one the whole log of grants calls for, so denials use up neither budget nor cooldown |
| AutoQuery.GrantsKeepLimits | internal/bot/auto_query.go:285-307 | with each grant the room has at most its budget of grants in the trailing hour, and every earlier grant of the same room and query is at least its cooldown ago |
| AutoQuery.AutoQueryManager.PruneWindow | internal/bot/middleware.go:233-242 | keeps exactly the hits after the cutoff, in order |
| AutoQuery.AutoQueryManager.HasAllowedHandler | internal/bot/auto_query.go:261-268 | finds a handler exactly when one is allowed |
| AutoQuery.AutoQueryManager.EvaluateUnderLock | internal/bot/auto_query.go:285-307 | decision and new limits are those of EvaluateLocked |
| AutoQuery.AutoQueryManager.SetRoomPolicy | internal/bot/auto_query.go:189-194 | messages of the room then read back the policy, normalized, exactly when it lists no handlers or one the catalog knows; those of other rooms read what they did; without a store nothing changes |
| AutoQuery.AutoQueryManager.EvaluateAutomatic | internal/bot/auto_query.go:209-248 | decision and new state are those of Evaluate, degradation included |
| AutoQuery.DegradationIsSticky | internal/bot/auto_query.go:309-316 | after a budget denial that degrades a known room, no automatic query of it is granted until its policy is set |
| AutoQueryRace.StickyIffNothingInFlight | internal/bot/auto_query.go:209-248 | with evaluations interleaved between reading the policy, deciding and storing: once a room's degraded policy is stored, no query of it is granted until its policy is set exactly when no evaluation that read a policy with a budget before is still to decide |
| AutoQueryRace.RunGrantsNone | internal/bot/auto_query.go:209-248 | the run-level half: nothing in flight, then no new grant in any run |
| AutoQueryRace.SlipsThrough | internal/bot/auto_query.go:228-235 | the other half: any evaluation in flight with a budget has a continuation in which it is granted |
| AutoQueryRace.StoreDegrades | internal/bot/auto_query.go:239-245 | a late store degrades the room also over a policy set since |
| AutoQueryRace.AloneIsEvaluate | internal/bot/auto_query.go:209-248 | the three steps without anything between are the evaluation of AutoQuery |
| AutoQuery.NormalizedTwice | internal/bot/auto_query.go:56-85 | normalizing a normalized policy changes nothing exactly when it listed no handlers or one the catalog knows |
| AutoQuery.DegradationTakesEffectIffRoomKnown | internal/bot/auto_query.go:270-316 | the degradation is read back exactly when the message names its room |
| AutoQuery.StoredPolicyReadsBack | internal/bot/auto_query.go:56-137 | a policy that was set reads back normalized exactly when it lists no handlers or one the catalog knows |
| AutoQueryRuns.DecidedByGrants | internal/bot/auto_query.go:209-307 | over every run of queries and policy changes with a clock that does not go back, each decision by the messages granted before: for the cooldown exactly when one of the same room and query (trimmed, lowered) is less than its policy's cooldown ago, for the budget exactly when the room was granted that many within the hour |
| AutoQueryRuns.SharesCooldownIff | internal/bot/auto_query.go:318-320 | two messages share a cooldown exactly when room and query agree, trimmed and lowered, or one room's name goes on from the other's with a bar and the query takes up the rest |
| AutoQueryRuns.SharesOnlyWithBar | internal/bot/auto_query.go:318-320 | in one room that means the same query, and rooms whose lowered names differ and have no bar never share one |
| AutoQueryRuns.RoomOf | internal/bot/auto_query.go:250-276 | a message counts for its chat id, else its room, trimmed, else for a common one |
| AutoQueryRuns.SetIsInForce | internal/bot/auto_query.go:56-194 | a policy that was set is in force field by field, the catalog's default where it says nothing |
| AutoQueryRuns.AllowsIff | internal/bot/auto_query.go:87-103 | a handler is allowed exactly when it and a listed one stand for the same id, or a default one when none is listed |
| AutoQueryRuns.QueryStores | internal/bot/auto_query.go:239-316 | a query changes a stored policy exactly on a budget denial under a policy with another mode to fall back to, its own room's, which then has that mode and the budget, cooldown and target it had |
| LottoCalendar.OpenIff | internal/lotto/service.go:610-619 | registration is open for T exactly from 20:00 of the Saturday before T until 20:00 of the Saturday T |
| LottoCalendar.ExpectedIff | internal/lotto/service.go:601-608 | the draw of P is the expected one exactly from 21:30 of the Saturday P for a week |
| LottoCalendar.ClockIsTimeOfDay | internal/lotto/service.go:651-655 | comparing hour and minute compares the time of day |
| LottoCalendar.GapIsOneOrTwoWeeks | internal/lotto/service.go:601-625 | open and expected date are a week apart, but two weeks exactly on Saturdays from 20:00 to 21:30 |
| LottoCalendar.RoundIsTrueIffDrawIsEarlier | internal/lotto/service.go:253-284 | the registration round is the true weekly round exactly when the known draw is dated before the open date; otherwise it is too high |
| LottoCalendar.RoundsDoNotDependOnTheDraw | internal/lotto/service.go:253-284 | counted from any such draws, rounds never go back in time and are equal exactly for the same open Saturday |
| LottoCalendar.PendingIsBetween | internal/lotto/service.go:268-273 | a round is pending exactly when a whole draw is missing; it is the one after the known draw and before the open one |
| LottoCalendar.UpToDatePendingIffAwaiting | internal/lotto/service.go:268-273 | with the expected draw known, a round is pending exactly on Saturdays from 20:00 to 21:30 |
| LottoCalendar.LatestStateIs | internal/lotto/service.go:253-284 | for a draw dated any day: registration is for the open Saturday and its round is ahead by the whole weeks between the dates, one at least; with more, the round after the draw's is pending, a week after it |
| LottoCalendar.DrawBook.LatestDraw | internal/store/lotto.go:194-212 | the row with the largest round, none for an empty table |
| LottoCalendar.DrawBook.EnsureLatestDraw | internal/lotto/service.go:286-318 | which draw is served and what is stored, for a fresh, cooling-down, fetched and failed fetch; a book of true past draws stays one, and then the round counted from the answer is the true one |
| LottoCalendar.TrueDrawStaysTrue | internal/lotto/service.go:286-318 | a truthful book stays truthful as time passes |
| LottoNumbers.UniqueSortedInts | internal/store/lotto.go:595-616 | the strictly increasing list of the given values |
| LottoNumbers.ExchangeSort | internal/store/lotto.go:608-614 | sorts distinct values in place, keeping their set |
| LottoNumbers.IncreasingIsUnique | internal/store/lotto.go:595-616 | a set of numbers has one strictly increasing list |
| LottoNumbers.NormalizedSetIsNumbers | internal/lotto/types.go:182-189 | six different numbers of 1..45, sorted, are strictly increasing and in range |
| LottoNumbers.NormalizeManualNumberSets | internal/lotto/service.go:490-511 | accepts exactly a positive multiple of six values, each six different and in 1..45, and returns each six sorted |
| LottoNumbers.GenerateRandomNumbers | internal/lotto/service.go:513-525 | six different numbers in order, those of a prefix of the random values; it ends exactly when six different ones come |
| LottoTickets.MaxLineIsLargest | internal/store/lotto.go:326-337 | the largest line number of the owner's tickets, active or not, 0 without any |
| LottoTickets.TicketStore.InsertTickets | internal/store/lotto.go:339-373 | inserts all tickets exactly when no line is taken, else none |
| LottoTickets.TicketStore.ListUserTickets | internal/store/lotto.go:375-393 | the owner's active tickets of the round in line order |
| LottoTickets.TicketStore.DeactivateAllUserTickets | internal/store/lotto.go:415-434 | flips exactly the owner's active tickets of the round and returns them |
| LottoTickets.TicketStore.DeactivateTicketLines | internal/store/lotto.go:436-485 | flips exactly the owner's active tickets of the named lines and returns them |
| LottoTickets.NewTicketsFit | internal/store/lotto.go:111-111 | tickets numbered from the next line on never hit the unique index |
| LottoTickets.Service.Recommend | internal/lotto/service.go:89-135 | new rows and answer are those of Apply and Reply |
| LottoTickets.Service.RegisterManual | internal/lotto/service.go:137-180 | new rows and answer are those of Apply and Reply |
| LottoTickets.Service.DeleteMine | internal/lotto/service.go:228-251 | new rows and answer are those of Apply and Reply |
| LottoTickets.StepKeepsBook | internal/lotto/service.go:89-180 | every operation keeps: lines of an owner numbered upwards, all numbers proper, at most five active recommended tickets per owner |
| LottoTickets.LineNumbersNeverReused | internal/lotto/service.go:89-251 | over every run from an empty book: rows stay, deleted lines stay deleted, and a later line has a larger number than every earlier one of its owner, deleted ones included |
| LottoTickets.RecommendAgainChangesNothing | internal/lotto/service.go:93-113 | after any run in which the owner deletes nothing of the round, recommending again changes nothing and returns the same tickets |
| LottoTickets.RecommendGives | internal/lotto/service.go:89-135 | the answer is the owner's active recommended tickets afterwards, never none |
| LottoTickets.RegisterCountsActive | internal/lotto/service.go:137-180 | TotalLines is the number of active lines afterwards, one more per number set |
| LottoTickets.DeletedAreTheFlipped | internal/lotto/service.go:228-251 | the lines reported are exactly the rows that changed, and with the still active ones make up the active ones before |
| LottoTickets.OverviewListsAreDisjoint | internal/lotto/service.go:182-226 | no ticket is in two of the three lists of QueryMine |
| LottoAnswers.RecommendAnswers | internal/lotto/service.go:89-135 | without an active recommended line the user gets and the table is given five new ones, the i-th with the i-th generated set, numbered on from the user's largest line; with some, exactly those are returned and nothing is stored |
| LottoAnswers.RegisterAnswers | internal/lotto/service.go:137-180 | values in sixes of different numbers of 1..45 become one line each, in the order typed, with exactly their numbers in increasing order, numbered on from the user's largest line, returned and stored, and the total counts the active lines before too; anything else is refused and nothing is stored |
| LottoAnswers.DeleteAnswers | internal/lotto/service.go:228-251 | exactly the user's active lines of the round, or the one named, become inactive, and they are the answer in table order |
| LottoAnswers.WithoutRound | internal/lotto/service.go:137-152 | without a round nothing is stored, and bad numbers are told first |
| AccessTables.ChangeKeepsSound | internal/store/access_runtime.go:82-124 | every mutation keeps intents on filed rooms and all ids trimmed and not blank, the cascade included |
| AccessTables.UnchangedMeansSame | internal/store/access_runtime.go:205-327 | a call that reports no change left the tables alone |
| AccessTables.ChangedIffDifferent | internal/store/access_runtime.go:205-327 | a call that reports a change made one, but for the upsert of a room as it is |
| AccessTables.SeedIffNoDuplicates | internal/store/access_runtime.go:126-169 | seeding rooms works exactly when each room is new and listed once and each intent once in its room |
| AccessTables.SeededContents | internal/store/access_runtime.go:145-169 | seeding adds exactly the intents some configured room grants |
| AccessTables.BootFailsIffDuplicates | internal/store/access_runtime.go:126-183 | startup fails exactly on an empty store with a duplicate in the configuration; otherwise an empty store gets exactly the configured intents |
| AccessTables.BootTwice | internal/bot/access_manager.go:38-64 | starting again changes no table |
| AccessTables.ChangeRowByRow | internal/store/access_runtime.go:205-327 | for each row of each table whether it is there after a mutation: the mutation's own row, a deleted room's intents, and every other row as before |
| AccessTables.FailsIff | internal/store/access_runtime.go:237-253 | the database refuses exactly a new intent for a room that is not on file |
| Access.ACLStore.UpsertRoom | internal/store/access_runtime.go:205-222 | changed flag and tables of the mutation |
| Access.ACLStore.DeleteRoom | internal/store/access_runtime.go:224-235 | changed flag and tables of the mutation, the room's intents gone |
| Access.ACLStore.UpsertRoomIntent | internal/store/access_runtime.go:237-253 | changed flag and tables of the mutation; an error for an unknown room |
| Access.ACLStore.DeleteRoomIntent | internal/store/access_runtime.go:255-267 | changed flag and tables of the mutation |
| Access.ACLStore.UpsertAdminRoom | internal/store/access_runtime.go:269-284 | changed flag and tables of the mutation |
| Access.ACLStore.DeleteAdminRoom | internal/store/access_runtime.go:286-297 | changed flag and tables of the mutation |
| Access.ACLStore.UpsertAdminUser | internal/store/access_runtime.go:299-314 | changed flag and tables of the mutation |
| Access.ACLStore.DeleteAdminUser | internal/store/access_runtime.go:316-327 | changed flag and tables of the mutation |
| Access.ACLStore.AppendAudit | internal/store/access_runtime.go:329-347 | a log whose entries all have trimmed texts stays one and grows by one; an entry that was trimmed already is stored as it is; no table is touched |
| Access.ACLStore.SeedBootstrap | internal/store/access_runtime.go:126-143 | the seeded tables, or the old ones when it fails |
| Access.ACLStore.ListRooms | internal/store/access_runtime.go:357-407 | every room with its alias and exactly its intents |
| Access.ACLStore.Snapshot | internal/store/access_runtime.go:185-203 | shows the tables |
| Access.AccessController.ApplySnapshot | internal/bot/access.go:251-274 | the last row of each chat and the trimmed principals, and nothing else |
| Access.AccessController.LoadRuntimeSnapshot | internal/bot/access.go:192-210 | loading what a snapshot of sound tables shows makes the copy agree with them |
| Access.AccessController.IsAllowed | internal/bot/access.go:76-100 | a copy that agrees answers as the tables do |
| Access.AccessController.CanExecute | internal/bot/access.go:102-111 | a copy that agrees answers as the tables do, admins and super admins included |
| Access.AccessController.IsRuntimeAdmin | internal/bot/access.go:120-136 | a copy that agrees answers as the tables do |
| Access.AccessManager.Bootstrap | internal/bot/access_manager.go:38-64 | fails exactly when seeding does; otherwise the copy agrees with the tables, the principals are in them, and each that was missing is audited once |
| Access.AccessManager.Mutate | internal/bot/access_manager.go:102-188 | the copy agrees with the tables after every call, and exactly the calls that report a change append one entry |
| Access.AccessManager.AfterMutation | internal/bot/access_manager.go:190-210 | no entry and no reload without a change, both with one |
| AccessRace.CopyInStepIffReloadsDoNotOverlap | internal/bot/access_manager.go:190-210 | over all runs of concurrent mutations the controller's copy is the tables whenever no call is under way, exactly when no reload begins before another has ended |
| AccessRace.CrossingLeavesStale | internal/bot/access_manager.go:66-76 | the run in which two reloads cross and leave a stale copy |
| AccessRace.OneEntryPerChange | internal/bot/access_manager.go:190-210 | however mutations interleave, once all are done the log has one entry per change, and never more |
| Access.AuditedCallsTellAll | internal/bot/access_manager.go:190-210 | over any run the audited calls alone give the same tables, and each would be audited again |
| Access.DeletedRoomAllowsNothing | internal/store/access_runtime.go:91-97 | after a room's deletion and whatever follows without adding an intent to it, the room, when on file again, allows nothing |
| Access.WhoMayExecute | internal/bot/access.go:102-151 | a super admin, or the configured admin user in the configured admin room, may do everything while runtime administration is on; administration otherwise exactly an admin user in an admin room; any other intent as the room allows |
| AccessLog.LogRebuildsTables | internal/bot/access_manager.go:190-210 | reading the audit log back from the tables a run began with gives the tables it ended with, when no intent call names a chat id with a colon |
| AccessLog.EntriesAreOfCalls | internal/bot/access_manager.go:190-210 | every entry of the log names the actor of a call that was made and reads as that call |
| AccessLog.ColonsConfuse | internal/bot/access_manager.go:124-144 | with colons in chat ids no reading can: two calls leave the same entry and different tables |
| Stamps.TimestampOrder | internal/metrics/sqlite.go:536-538 | comparing stored timestamps as strings compares the times |
| Stamps.HourBucketOrder | internal/metrics/sqlite.go:544-546 | comparing hour buckets as strings compares the hours |
| Stamps.DateOrder | internal/metrics/sqlite.go:540-542 | comparing dates as strings compares the dates |
| Stamps.BucketsArePrefixes | internal/metrics/sqlite.go:536-546 | the bucket keys cut from a timestamp are the date and hour strings |
| Stamps.TimestampReads | internal/metrics/sqlite.go:536-538 | the digits of a stored timestamp read back as year, month, day, hour, minute and second |
| Rollups.HoursSumToDay | internal/metrics/sqlite.go:366-414 | for every event log and additive counter, the hourly rows of a day sum to its daily row |
| Rollups.UniqueUsersBetween | internal/metrics/sqlite.go:366-414 | a day's unique users are at least those of each hour and at most their sum |
| RollupCounts.HourlyRowCounts | internal/metrics/sqlite.go:365-390 | every event has its hourly row, which counts by kind the events of its hour, room, command and source, and their users once |
| RollupCounts.DailyRowCounts | internal/metrics/sqlite.go:392-416 | every event has its daily row, which counts those of its day |
| RollupCounts.SharesRowIff | internal/metrics/sqlite.go:536-546 | two events share an hourly row exactly when hour, room, command and source agree, a daily one when day, room, command and source do |
| Retention.FirstDayIsEarliest | internal/metrics/sqlite.go:460-470 | the cohort date is the date of the user's earliest activation in the group |
| Retention.RetainedWithinCohort | internal/metrics/sqlite.go:460-514 | every retention row has between one retained user and the whole cohort, and is not before its cohort |
| Retention.CohortsPartitionUsers | internal/metrics/sqlite.go:472-481 | cohort sizes sum to the number of activated users of the group |
| Retention.MetricsStore.InsertEvents | internal/metrics/sqlite.go:180-240 | all events are appended in order, or none when a statement fails; no rollup is touched |
| Retention.MetricsStore.RebuildRollups | internal/metrics/sqlite.go:348-520 | both tables have one correct row per key, the retention rows are those of the log, the log is unchanged |
| Retention.MetricsStore.Cleanup | internal/metrics/sqlite.go:323-346 | keeps exactly the events not before their cutoff in time, the hourly rows of hours not starting before theirs, and the daily and retention rows of dates not before theirs |
| Retention.KeptIsSince | internal/metrics/sqlite.go:323-346 | comparing strings keeps exactly the events not before the cutoff in time, in order |
| Retention.CleanupKeepsHours | internal/metrics/sqlite.go:323-346 | comparing strings keeps exactly the hourly rows that do not start before the cutoff's hour |
| Retention.CleanupKeepsDays | internal/metrics/sqlite.go:323-346 | comparing strings keeps exactly the daily rows that are not before the cutoff's date |
| RollupCounts.RetainedIff | internal/metrics/sqlite.go:460-514 | a user is retained on a day exactly when the first activation in the group is of the cohort's day, that day is not later, and the user came back on the day |
| RollupCounts.RetentionRowIff | internal/metrics/sqlite.go:460-514 | there is a row for a group, cohort and day exactly when somebody was retained then, with the cohort's size and the number retained |
| Dispatch.DispatchIsSafe | internal/bot/router_dispatch.go:13-159 | for any registry and answers: only permitted handlers run, at most one command and then nothing else, fallbacks stop at the first answer, no automatic one after a denied deterministic one, and a slash command or a message of bare letters runs nothing |
| Dispatch.StageMeaning | internal/bot/router_dispatch.go:88-118 | a stage visits its fallbacks in order, each run or denied as the ACL says, and ends early exactly on an answer |
| Dispatch.DeniedIff | internal/bot/router_dispatch.go:88-118 | a stage reports denied exactly when it denied one |
| Dispatch.PrefixedExecutesNothing | internal/bot/router_parse.go:38-63 | a message that starts with the prefix executes no command |
| Dispatch.BarePrefixReachesFallbacks | internal/bot/router_parse.go:30-36 | a message that starts with the prefix runs a permitted first deterministic fallback exactly when only blanks follow the prefix |
| DispatchAnswers.IgnoredIff | internal/bot/router_dispatch.go:33-49 | a message is ignored exactly when something but blanks follows the prefix, or when it is made of letters that are no syllables and blanks |
| DispatchAnswers.NamedCommandRuns | internal/bot/router_parse.go:38-130 | a first word that names a registered command, the chart apart, runs that command alone and its answer comes back; without permission the denial is answered |
| DispatchAnswers.ImpliedCommandRuns | internal/bot/router_dispatch.go:51-86 | otherwise a theme runs the stock command, else the first handler that takes the message bare runs, else the fallbacks are tried |
| DispatchAnswers.DeterministicOutcome | internal/bot/router_dispatch.go:88-118 | the deterministic fallbacks in the order registered until one answers, whose error comes back; nothing follows a denial; what follows otherwise |
| DispatchAnswers.AutomaticOutcome | internal/bot/router_dispatch.go:120-159 | which automatic fallbacks are visited, in the order registered, and every way the message is skipped, unmatched or in error |
| Router.Router.DispatchMessage | internal/bot/router_dispatch.go:13-31 | the trace grows by, and the result is, what DispatchRun says |
| Router.Router.ParseExplicit | internal/bot/router_parse.go:38-63 | the command a message names |
| Router.Router.DispatchHandler | internal/bot/router_parse.go:76-130 | executes when permitted, else denies and replies |
| Router.Router.DispatchPrefixless | internal/bot/router_dispatch.go:51-86 | theme, bare query, then fallbacks |
| Router.Router.FindBareQuery | internal/bot/router_dispatch.go:187-218 | the first registered handler that takes the message |
| Router.Router.RunStage | internal/bot/router_dispatch.go:88-118 | the steps of the stage, its stop and whether one was denied |
| Router.Router.ExecuteFallbackEntry | internal/bot/router_parse.go:167-188 | one fallback's turn |
| Router.Router.DispatchAutomaticFallbacks | internal/bot/router_dispatch.go:120-159 | the automatic stage with its skips |
| Router.Router.FilterFallbacks | internal/bot/router_parse.go:197-205 | the fallbacks of a scope in order |
| Router.Router.MatchAutoFallbackCandidates | internal/bot/router_dispatch.go:242-252 | the matching fallbacks in order |
| Text.FieldsIffNotBlank | internal/bot/router_parse.go:30-36 | a text has a word exactly when trimming leaves something |
| Text.TrimIs | internal/bot/auto_query.go:250-258 | trimming takes the spaces off both ends and nothing else |
| Text.FirstWordIs | internal/bot/router_parse.go:38-50 | the first word stands behind spaces only and ends at the next one, and the other words are those of the rest |

## Left out

- Liveness of background work: the tracker's group of ten may block jobs that start jobs, so "every
  flight completes in the end" does not follow from the code; spawning is unbounded here.
- What a follower of a registration or refresh flight is given, and how long it waits: only that it
  leaves without touching the flight is modelled.
- Registration.ExactlyOnceIffCoalescing: counts successful bootstrap upserts; price history, source
  mappings and seed charts of a bootstrap are not modelled.
- Refresh.FlagImpliesFlightIffClearIsReliable: starts from a store without flags; a flag left by an
  earlier process is not modelled, nor are crashes and panics.
- Capacity.ProductStore.EnforceCapacity: counting, listing and deleting are one step here; a product
  queried in between is not modelled, nor are errors of the store.
- Writing back a mapping loaded before its failure count rose (refresh), backfills and chart seeds.
- Calculator.EvalExpr: floating-point rounding and the texts of errors are not modelled; errors are
  one value.
- Grouping.FormatChartPrice: rounding a price to cents is the caller's; the number comes as cents.
- Grouping.ThreePrinters: the chart printer's argument is a float64 in the code, so integers above
  2^53 do not all reach it; which of them do is not modelled.
- The coin cache's amounts in eok and jo, and everything else about quotes.
- AutoQuery.AutoQueryManager.EvaluateAutomatic: one evaluation at a time (AutoQueryRace interleaves
  them); errors of the policy store are not modelled. Slices of hits are sequences here, and the
  catalog that AllowsHandler asks is the manager's.
- AutoQuery.LimiterDecidesByGrants: the time is read just before the lock is taken, so evaluations
  could decide in another order than their times; this is not modelled.
- AutoQuery.DegradationIsSticky: for evaluations one after another; the interleaved statement with its
  exact condition is AutoQueryRace.StickyIffNothingInFlight.
- LottoCalendar.DrawBook.EnsureLatestDraw: errors of the draw table and the first-prize shops are
  not modelled. Durations that do not fit 64 bits of nanoseconds are not modelled.
- LottoTickets.Service.Recommend: ids and time stamps of tickets, display names and the user profile
  table are not modelled; the five sets come as an argument; operations run one after the other.
- LottoTickets.Service.DeleteMine: as for recommending.
- LottoTickets.Service.RegisterManual: as for recommending; a failing profile write is not modelled.
- Prizes, winners and shop regions of the lottery.
- Access.AccessManager.Mutate: failures of the audit write or of the reload after a change are not
  modelled, so agreement is stated for calls whose audit and reload succeed; the eight methods of the
  manager are one method over a mutation here, one call at a time (AccessRace interleaves them).
- Access.AccessManager.Bootstrap: failures of the audit write or of the reload are not modelled.
- Access.AccessManager.AfterMutation: failures of the audit write or of the reload are not modelled.
- Access.ACLStore.ListRooms: the order of rows is not modelled.
- AccessRace.CopyInStepIffReloadsDoNotOverlap: a snapshot is one read, and the copy is the tables
  themselves rather than the controller's maps, which Access ties to them.
- Access.ACLStore.Snapshot: the order of rows is not modelled, and the three queries of a snapshot
  are one read here.
- Access.ACLStore.AppendAudit: the time of an entry is not modelled; an action stands for its text.
- Finding a room by alias, the visible help entries, and checking a configuration for unknown intents.
- Retention.MetricsStore.RebuildRollups: labels, name snapshots, average latency, error summaries and
  the product funnel are not modelled.
- Router.Router.DispatchMessage: middlewares are part of a handler's step and call it at most once;
  arguments, latencies and the follow-up metric events of a handler are not modelled.
- Router.Router.DispatchHandler: replies for a missing handler or one without slash commands are not
  modelled; no caller here gets there. Metric events of a command are part of its step.
- Router.Router.DispatchAutomaticFallbacks: the shape rules behind the prefix rule (stop words,
  themes, quantities) are parameters.
- Dispatch.DispatchIsSafe: panics inside handlers are not modelled.
- HTTP servers, the admin dashboard, chat transports, scrapers, providers, schema migrations,
  configuration loading and logging.
