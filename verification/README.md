# Same Page: the voting engine, proved

Same Page lets a group vote privately on batches of options until a plan is
done. This project models its voting engine and the pieces around it in Dafny
4.11 and proves what the engine promises: its invariant over every run of
requests, the confluence and privacy of voting, the order and the end of
dealing, the safety of cookies and double taps, and the agreement of the
in-place code with simple specifications. `dafny verify dfyconfig.toml` checks
everything.

## How the model is laid out

The database is a value, `Tables.Db`, with one map per table, keyed by primary
key. `Handlers` says what each request does to it: one function per POST
handler, each one atomic step that begins with the lazy expiry. A run is any
sequence of requests of any sessions, with library edits in between, from the
empty database; time, session codes drawn and shuffle draws are parameters of
the requests. `Engine` is the same thing as the source writes it: a class with
one field per table whose methods update rows in place, loop by loop, each
proved equal to its function in `Handlers`.

| file | what it holds |
|---|---|
| Prelude, SessionLogic, Tables, Pool, Handlers | options and results; the voting rules; tables and queries; the pool of a track; one function per request |
| Invariants, Preservation, Runs | the invariant, and that no request breaks it |
| History, Isolation | that records only move onward, and what each request deals; that a session answers from its own rows and others leave those alone |
| Discipline, TargetBounds, Deals | no re-offers, the over-target bound, the end of rounds and the deal order, each with the runs that keep it |
| Effects, Dealings | what each request leaves in the tables and what is dealt, told on the rows with every number written out |
| Confluence, Privacy, Reports | order of votes; non-interference; frozen tallies, counters and reject rates |
| Lifecycle, Endings, DoubleTap, Polls, Views | status and roster changes; ended sessions; repeated requests; quiet polls |
| CookieJar, Casting, Identity | the capped participant cookie; what writes and deletes votes; who a cookie resolves to and whose votes are cast, over runs of many browsers |
| RateLimit | the sliding-window limiter against the full log of hits |
| Ingredients, IngredientStore | ingredient names, their tables, and the edit form's round trip |
| Engine | the imperative engine |
| Gaps | short runs where code and documentation part |

## Where code and documentation part

The model follows the code. Each difference has a run that shows it and a
condition that says exactly when the promise holds.

- Starting over. `start_voting` is documented never to assemble a second batch
  (app/routes/sessions.py:1561-1568), but its guard is only that no batch is
  open (1586). A start sent to a session already voting, between two batches,
  deals its first track again from the top, passes nothing and looks at no
  target. `Gaps.StartingOverIsUnbounded` is a run that keeps one dish any number
  of times in a session that wants it once. `Discipline.StepDisciplined` says
  which starts over do harm: one that deals an offered item, or one that deals
  while something is undecided or for a track that has met its target. Over runs,
  a session is dealt no item twice exactly when no start over of its own deals
  an offered item (`Discipline.NoReofferMeans`), it is dealt at the right pace
  throughout exactly when none deals too soon (`Discipline.PacedThroughoutMeans`),
  and with its collection left alone it deals in pool order exactly when it is
  never started over (`Deals.DealsFollowThePool`). Other sessions do not enter
  into any of these.
- Finishing with an open batch. `finish_session` is documented to pass every
  undecided majority item (1908-1914), but the session does not autoflush
  (app/db.py:33), so the lookup (1750-1758) still sees the batch it has just
  closed as open. `Gaps.FinishCanLeaveUndecided` is a run that ends with an
  option without an outcome; `Endings.FinishDecidesAll` says exactly when none is
  left, and `Endings.FinishLeavesUndecided` which ones are.
- Quiet polls. `results_state_partial` is documented to stay quiet only while the
  displayed batch is still the most recent one (app/routes/sessions.py:1982-1987),
  but it compares no more than the open batch and the pending count of the batch
  on screen. Four things go unnoticed: a later batch that has opened and closed,
  even one that kept nothing (`Gaps.QuietYetChanged`, `Gaps.QuietYetGone`); a keep
  in an earlier batch that a start over had left undecided (`Gaps.QuietYetKept`);
  an edit of the library that changes whether the host is offered a next batch
  (`Gaps.QuietYetStocked`); and a new name for a dish the page lists
  (`Gaps.QuietYetRenamed`). `Polls.QuietPoll` says that after a quiet answer the
  session page would be the very same exactly when none of these has happened.
  With the session's collection left alone only the first two count
  (`Polls.QuietPollUnedited`); `Polls.QuietPollTrusted` is what a page can check:
  nothing undecided outside the shown batch when rendered, and the shown batch
  still the latest.
- Lobby to complete is possible (1932-1936) though `SESSION_TRANSITIONS` does not
  list it (app/session_logic.py:144-149); `Lifecycle.StatusChanges` has it.
- A vote without a participant row is redirected (1668-1670), not refused with
  403 as the docstring of `vote` says. Tracks go breakfast, lunch, dinner (565),
  not dinner first as the docstring of `start_voting` says.

## Model

| member | source | states |
|---|---|---|
| SessionLogic.AssembleBatchDeals | app/session_logic.py:28-38 | a batch is distinct un-offered pool members in pool order, at most the size, skipping none, and empty only when the pool is exhausted |
| SessionLogic.TallyCounts | app/session_logic.py:49-53 | the tally is how often each choice occurs |
| SessionLogic.VerdictMeans | app/session_logic.py:49-93 | agreed exactly when a nonempty roster all said yes, rejected exactly when the yeses are at most half the answers |
| SessionLogic.TransitionMeans | app/session_logic.py:144-170 | exactly which status changes are legal; applying one again is a no-op and none leads back |
| SessionLogic.NextSeq | app/session_logic.py:133-139 | the next sequence number is above every one in use, and one above the greatest |
| SessionLogic.MakeCodeMeans | app/session_logic.py:234-248 | the code is the first free draw among a hundred, and generation fails only when those are all taken |
| Pool.PoolIsEligible | app/routes/sessions.py:597-620 | a track's pool is exactly its eligible items, each once |
| Dealings.PoolIsDishes | app/routes/sessions.py:611-617 | told on the item's columns: not archived, of the collection, and of the track's meal unless the track takes any; an archived item is in no pool |
| Dealings.OnlyDishesAreDealt | app/routes/sessions.py:1583-1628 | over every request, each option it adds is of an item that was not archived, of the session's collection and of the batch's meal |
| Pool.FetchInOrder | app/routes/sessions.py:611-618 | the fetch is ordered by name, then id |
| Pool.NamesInDictionary | app/routes/sessions.py:618 | names are compared as in a dictionary: the first place where they differ decides |
| Pool.ShufflePermutes | app/routes/sessions.py:619-620 | the shuffle only permutes |
| Pool.EveryOrderOnce | app/routes/sessions.py:619-620 | the shuffle is fair: each order of the items comes from exactly one choice of draws |
| Pool.PoolCanBeAnyOrder | app/routes/sessions.py:598-610 | so a pool can stand in any order of its items, as the session's draws decide |
| Pool.PoolSame | app/routes/sessions.py:597-620 | a pool depends on the names, meal types and archive marks of its own collection's items only: neither counters nor other collections move it |
| Runs.FirstTrackIsFirst | app/routes/sessions.py:584-594 | no track before the first one has a positive target |
| Dealings.StartTrackIsFirst | app/routes/sessions.py:565-594 | a start deals to exactly the first track asked for, in the order breakfast, lunch, dinner, picks |
| Dealings.NextTrackIsFirst | app/routes/sessions.py:676-692 | the next batch goes to exactly the first track in that order that is short of its target and has an eligible item never dealt to the session, and there is none exactly when no track has |
| Dealings.StartOpensRound | app/routes/sessions.py:1583-1632 | an admitted start with nothing open deals one to fifteen distinct items of that track's shelf, all of it unless the batch is full, and is refused with nothing written if the shelf is empty |
| Dealings.StartOnlyStarts | app/routes/sessions.py:1629-1632 | with a batch open, or without a collection, it only starts the voting |
| Dealings.NextTooEarly | app/routes/sessions.py:1867-1870 | next-batch before voting or with a batch open does nothing |
| Dealings.NextOnlyPasses | app/routes/sessions.py:1871-1878 | between batches it passes every option left undecided, and that is all when no track wants a batch |
| Dealings.NextOpensRound | app/routes/sessions.py:1871-1901 | otherwise it also opens a batch of one to fifteen items never dealt to the session, all there are unless it is full, numbered next |
| Runs.AssemblyFinds | app/routes/sessions.py:676-692 | the next batch goes to the first unmet track with un-offered items, if there is one |
| Runs.NothingToDealMeans | app/routes/sessions.py:676-692 | `(None, [])` comes back exactly when every track is met or its pool exhausted |
| Runs.TargetsAreAsked | app/routes/sessions.py:1090-1109 | targets are accepted exactly when within the cap and not all zero, and are the numbers asked per track |
| Invariants.OneOpenBatch | app/routes/sessions.py:474-480 | an open batch is the only one of its session, and its newest |
| Invariants.FinishedMeansAllAnswered | app/routes/sessions.py:532-561 | as many finished voters as roster means every participant answered every option, both ways |
| Invariants.EverybodyFinishedMeans | app/routes/sessions.py:1708-1711 | the auto-close test holds exactly when nothing is missing from a nonempty roster |
| Runs.StepKeeps | app/models.py:206-328 | no request breaks the invariant: keys, rosters, one open batch, ballots only of open batches, unreported open options, conserved counters, no missed close |
| Runs.ReachedKeeps | app/models.py:206-328 | every database any run reaches satisfies it |
| Preservation.CloseTallies | app/routes/sessions.py:858-880 | closing judges every option on votes that sum to the roster, and keeps every tally of a session at one and the same roster size |
| Preservation.CloseCounts | app/routes/sessions.py:889-895 | closing keeps each item's counters equal to its rows in closed batches |
| Preservation.DecisionCounts | app/routes/sessions.py:1782-1790 | so does a host's decision |
| Discipline.DealtDisciplined | app/routes/sessions.py:1882-1898 | a deal keeps offers distinct exactly when its items are new, and the pace exactly when nothing is undecided and its track is short |
| Discipline.StepDisciplined | app/routes/sessions.py:1583-1632 | of all requests only a start over breaks the discipline: distinct offers exactly by dealing an offered item, the pace exactly by dealing too soon |
| Discipline.NoReofferMeans | app/routes/sessions.py:664-673 | over any run a session is dealt no item twice exactly when none of its starts over deals an offered item |
| Discipline.PacedThroughoutMeans | app/routes/sessions.py:1871-1898 | throughout a run undecided options sit in the newest batch and deals are made below target exactly when no start over of the session deals too soon |
| Discipline.DisciplinedThroughout | app/routes/sessions.py:1561-1568 | both hold throughout exactly when each of its starts over deals fairly or not at all |
| TargetBounds.OverTargetBound | app/routes/sessions.py:676-692 | unless a start over of the session deals too soon, a track's keeps stay at most target plus fourteen |
| TargetBounds.RoundsEnd | app/routes/sessions.py:676-692 | unless a start over of the session deals an offered item, it has at most as many rounds as its collection has items |
| TargetBounds.NextBatchShrinks | app/routes/sessions.py:1871-1898 | every round next-batch deals leaves strictly less to deal |
| Deals.DealsFollowThePool | app/routes/sessions.py:597-620 | with its collection left alone from the lobby on, a session's batches run through its tracks' shuffled pools in order and without gaps exactly when its voting is never started over, and exactly then no item is dealt twice |
| Deals.OneTrackDealsAPrefix | app/routes/sessions.py:603-606 | in such a run with one track, what was dealt is a prefix of the pool |
| Deals.StepPools | app/routes/sessions.py:597-620 | a session's pools move only when its own collection is edited |
| History.StepUnmoved | app/routes/sessions.py:1871-1898 | no request but a session's own start or next-batch deals to it |
| Confluence.VotingIsConfluent | app/routes/sessions.py:1690-1711 | covering vote sequences that agree on first votes end in the same database, times aside |
| Confluence.ClosesExactlyWhenCovered | app/routes/sessions.py:1704-1711 | the batch closes by itself exactly with the vote that completes roster times options |
| Confluence.FirstVoteIsEarliest | app/routes/sessions.py:1690-1703 | the vote that counts for a pair is the earliest cast |
| Privacy.CloseSeesTotals | app/routes/sessions.py:844-905 | a close depends on yes totals only |
| Privacy.StepKeepsRelated | README.md:9 | one request, or one vote cast either way, is answered the same by databases that differ only in who voted which way, and leaves them so, if a close in it publishes equal totals |
| Privacy.StepKeepsAlike | README.md:9 | where the totals agree already, nothing need be asked of the closes |
| Privacy.NothingLeaks | README.md:9 | two whole runs that differ in the choices cast, with equal published totals at each close, get the same replies and show everybody the same |
| Privacy.SameRequestsLeakNothing | README.md:9 | the same requests on databases with equal totals get the same replies throughout |
| Privacy.NothingShows | app/routes/sessions.py:908-983 | no page, progress line or poll tells who voted which way, nor any running total |
| Privacy.NothingRemains | app/routes/sessions.py:896-902 | once no batch is open, nothing of the votes is left at all |
| Reports.RosterIsFrozen | app/routes/sessions.py:858-880 | all options a session closed counted the same roster, within which each yes count lies |
| Reports.CloseResolvesMissing | app/session_logic.py:96-113 | the inline tally is `resolve_missing_as_no`, whose error never arises |
| Reports.AutoCloseCountsChoices | app/session_logic.py:49-53 | when all have answered it is also `tally_responses` of the recorded choices |
| Reports.ItemReport | app/routes/reports.py:75-87 | over every run an item's counters equal its rows in closed batches, kept is at most offered, and an offered item's reject rate lies in [0, 1] |
| Reports.TagReport | app/routes/reports.py:94-105 | a tag's sums equal the numbers of closed and of kept rows of its items, and its rate lies in [0, 1] |
| Reports.RateInRange | app/routes/reports.py:35-51 | the rate is rejected over offered, the percentage the nearest whole one, halves to even; both in range, at the ends exactly for always or never kept |
| Lifecycle.OnlyTheHostActs | app/routes/sessions.py:1572-1577 | a host request from anybody else does only what a look does, and says why |
| Effects.GateOpens | app/routes/sessions.py:1729-1737 | a host action is admitted exactly from the host, in lobby or voting, within 86400 seconds of the last activity |
| Lifecycle.StatusChanges | app/session_logic.py:144-170 | which request, from whom, makes each status change; a session expires only by a request that names it after 86400 seconds of silence, and then it does |
| Effects.ExpiresAfterADay | app/routes/sessions.py:704-731 | over every request, a live session expires exactly when one names it more than 86400 seconds after its last activity; then nobody is seated and no vote of it is left |
| Effects.EverySessionIsTimed | app/models.py:210-223 | in every reachable database each session's last activity is on record |
| Lifecycle.ExpiryLeavesReports | app/routes/sessions.py:713-731 | expiry drops the roster and the open batch's votes and leaves batches, outcomes and counters |
| Lifecycle.RosterChanges | app/routes/sessions.py:1483-1513 | a live session's roster changes only in its lobby, by one join or one removal |
| Lifecycle.RosterFrozen | app/routes/sessions.py:1483-1490 | between any two moments of a session's voting its roster is the same to the row |
| Effects.LooksLeaveAlone | app/routes/sessions.py:1177-1193 | looking at a session underway writes nothing; only an unknown code is not found |
| Effects.CreateStores | app/routes/sessions.py:1090-1144 | creation succeeds exactly when no number is over 20, some track is asked for and one of a hundred draws is free; the row stored is a lobby with the collection, the shuffle and per track the number asked for; its host alone is seated |
| Effects.NewcomerJoins | app/routes/sessions.py:1461-1513 | whoever has no seat: not found, ended page, waiting page, asked for a name, or seated under a fresh id, each exactly when |
| Effects.RejoinsAsOneself | app/routes/sessions.py:1470-1482 | an account at the table is shown to its own row again, also while voting, and nothing is written |
| Effects.HostRemoves | app/routes/sessions.py:2112-2126 | exactly the named lobby participant goes, never the host |
| Lifecycle.JoinedForLife | app/routes/sessions.py:1492-1513 | over any run a named newcomer of a fresh lobby gets a new seat and keeps that very row until removed or the session ends |
| Lifecycle.SeatKept | app/routes/sessions.py:2112-2126 | over any run a seated row stays until its own removal or the end |
| Identity.RemovedForGood | app/routes/sessions.py:2112-2126 | a participant the host removes is never seated again under that id |
| Lifecycle.StartStarts | app/routes/sessions.py:1578-1632 | an admitted start leads into voting with an open batch, or is refused with nothing written when there is nothing to deal |
| Lifecycle.FinishIsForGood | app/routes/sessions.py:1926-1942 | after an admitted finish the session is complete with nobody seated, whatever requests follow |
| Effects.VoteIsCounted | app/routes/sessions.py:1690-1713 | a known sender's vote on the open batch is recorded unless the pair has one, and closes the batch exactly if now everybody has answered everything |
| Effects.OtherVotes | app/routes/sessions.py:1658-1689 | any other vote writes no more than a due expiry; which are not found, which bad requests |
| Effects.HostClosesBatch | app/routes/sessions.py:1738-1743 | the host's close closes the open batch of any track: every option reported from its yes count and the roster, with the outcome those numbers give, its items counted, its votes gone, activity now |
| Effects.HostClosesNothing | app/routes/sessions.py:1738-1740 | with no open batch it writes nothing |
| Effects.DecisionStands | app/routes/sessions.py:1763-1791 | a decision falls exactly on an undecided option of a closed batch of the session, and a keep counts its item once |
| Effects.FinishWithoutBatch | app/routes/sessions.py:1926-1942 | finishing completes, empties the roster and passes exactly what waited for the host |
| Effects.FinishWithBatch | app/routes/sessions.py:1926-1942 | with a batch open it closes that first and leaves its majority options without an outcome |
| Effects.LibraryEdits | app/routes/library.py:829-858 | adding, editing and archiving change the one item named, in the columns named |
| Endings.NothingHappensToEnded | app/routes/sessions.py:1922-1925 | a request to an ended session writes nothing |
| Endings.EndedIsFinal | app/routes/sessions.py:1812-1813 | no request at all changes an ended session's row, batches or outcomes |
| Endings.EndedStaysEnded | app/routes/sessions.py:1928-1942 | over any run after the end the record stays, and no participant, vote or, once complete, open batch of it is left |
| Endings.FinishLeavesUndecided | app/routes/sessions.py:1928-1931 | finishing leaves undecided exactly the majority options of the batch it closes itself |
| Endings.FinishDecidesAll | app/routes/sessions.py:1746-1760 | so it decides everything exactly when there are none |
| Isolation.RequestsAreIsolated | app/routes/sessions.py:1765-1777 | a request naming a session is answered by that session's rows and its collection alone, in any two reachable databases |
| Isolation.StepElsewhere | app/routes/sessions.py:844-905 | a request that does not name a session changes no row of it: not its record, activity, seats or votes |
| Isolation.OthersGoUnnoticed | app/routes/sessions.py:1765-1777 | nor does any run of such requests, and with its collection left alone the session's next request is answered as if nothing had happened |
| Isolation.PollsAreIsolated | app/routes/sessions.py:1999-2007 | so are its polls, whatever batch they ask about: no oracle on a foreign batch |
| DoubleTap.TwiceIsOnce | app/routes/sessions.py:1778-1791 | in every reachable database start, vote, close, keep, pass, next, finish, remove and signed-in join sent twice equal once, activity time aside |
| DoubleTap.KeepCountsOnce | app/routes/sessions.py:1782-1788 | a keep increments the counter once, whatever decision follows |
| History.RunOnward | app/routes/sessions.py:1763-1791 | over any run batches only appear and close, and a decided outcome stands |
| Polls.QuietExactly | app/routes/sessions.py:2008-2054 | the results poll is quiet exactly while the session is live and not a day silent, no other batch of it is open, and a pending count sent for one of its batches is still the right one |
| Polls.FreshPageIsQuiet | app/routes/sessions.py:1982-1994 | so a page just rendered, decisions pending or not, is not told to reload |
| Polls.QuietReport | app/routes/sessions.py:2023-2053 | after a quiet answer what the batch reports is still true exactly when no later batch kept anything and nothing undecided in an earlier batch was kept since |
| Polls.QuietPoll | app/routes/sessions.py:1224-1239 | after a quiet answer the session page would be the very same exactly when the shown batch is still the latest, nothing undecided in an earlier batch was kept since, and the library reads the same: names of the listed dishes, and whether anything new is left to deal |
| Polls.QuietPollUnedited | app/routes/sessions.py:942-981 | with the session's collection left alone since, exactly when the first two hold |
| Polls.QuietPollTrusted | app/routes/sessions.py:1982-1994 | so the poll can be trusted when nothing was undecided outside the shown batch and that batch is still the latest |
| Polls.CardQuiet | app/routes/sessions.py:2078-2090 | the card's poll is quiet exactly while its batch is open in a live session |
| Polls.ReportAccounts | app/routes/sessions.py:931-982 | a results page shows exactly the session's kept options and its batch's waiting and not-kept ones, each with its batch number and name, and offers a next batch exactly when some track is short of its target with something new left |
| Dealings.ProgressTells | app/routes/sessions.py:623-658 | one progress line per target in the order of the day, with kept, missing and met right |
| Effects.VotersFinished | app/routes/sessions.py:532-561 | the two numbers are those seated with no card left, and those seated |
| Effects.ClosesWhenAllFinished | app/routes/sessions.py:1708-1711 | a batch closes by itself exactly when these two numbers meet |
| TargetBounds.CompletionAdds | app/routes/sessions.py:734-757 | the completion screen's batches and options add up, and it lists exactly what was kept |
| CookieJar.CappedWrite | app/routes/sessions.py:299-303 | evicting on every write equals capping the whole recency record once |
| CookieJar.LookupFinds | app/routes/sessions.py:272-284 | a code looks up to the id last written unless twenty other codes were written since |
| CookieJar.ParticipantCookie.Set | app/routes/sessions.py:287-303 | the loop keeps the last twenty distinct codes in recency order, and drops the legacy key |
| CookieJar.ParticipantCookie.Get | app/routes/sessions.py:272-284 | reading returns what the full history of writes says, and never the legacy key |
| Identity.CookieResolves | app/routes/sessions.py:306-337 | over all runs of many browsers a cookie resolves to the very row it was granted, or to nothing |
| Identity.JoiningIsRemembered | app/routes/sessions.py:1452-1513 | whoever creates or joins holds the cookie of the row given at once; no other request writes one, and no other browser's changes |
| Identity.NoGrantNoCookie | app/routes/sessions.py:287-303 | a browser holds an entry only for sessions whose row it was granted |
| Identity.NeverSomebodyElse | app/models.py:242-255 | a participant id is never reused, and its row never changes |
| Casting.StepVotes | app/routes/sessions.py:1690-1703 | a vote row is written only by the vote that casts it, for the row its sender is known by, and deleted only by a request naming its session |
| Identity.VotesAreOwn | app/routes/sessions.py:306-337 | over all runs of many browsers every vote row was cast, with that choice, by a request whose browser had been granted the very row that votes or whose account owns it |
| Identity.OneRowPerAccount | app/routes/sessions.py:1470-1482 | an account holds at most one row per session, and a live session seats its host |
| RateLimit.AdmittedAtMost | app/ratelimit.py:58-71 | no stretch as long as the window sees more than the limit of admitted hits of one key |
| RateLimit.RecentCounts | app/ratelimit.py:63-65 | a pruned queue is as long as the full log's window is full |
| RateLimit.SlidingWindowLimiter.RecordHit | app/ratelimit.py:58-71 | a hit is over exactly when the full log says so, for any clock that does not run back; then few keys are stored or each has a hit in the window |
| RateLimit.SlidingWindowLimiter.PruneAll | app/ratelimit.py:73-83 | the sweep keeps exactly the recent timestamps and the keys that have any |
| Ingredients.NormalizeIsWords | app/routes/library.py:84-87 | the canonical name is the folded words, one blank apart |
| Ingredients.SameIngredientMeans | app/routes/library.py:84-87 | two spellings are one ingredient exactly when their folded words agree |
| Ingredients.NormalizeFixes | app/routes/library.py:84-87 | normalising leaves exactly the canonical names alone |
| Ingredients.CleanIngredientNames | app/routes/library.py:90-100 | the loop with its list and seen-set computes the cleaned list |
| Ingredients.CleanedMeans | app/routes/library.py:90-100 | cleaning keeps every nonblank canonical name once, in first-seen order |
| Ingredients.CleanedTwice | app/routes/library.py:90-100 | cleaning is idempotent |
| Ingredients.SplitJoined | app/routes/library.py:341-357 | names joined by line ends split back into themselves, for either line end |
| Ingredients.SplitLinesKeepsText | app/routes/library.py:341-357 | splitting any posted text loses only line boundaries, and leaves none inside a line |
| Ingredients.FormRoundTrip | app/routes/library.py:341-357 | saving the form as rendered yields the same names |
| IngredientStore.Vocabulary.ResolveIngredients | app/routes/library.py:103-117 | rows are reused or added, in order, one per name and group |
| IngredientStore.Vocabulary.SetMealIngredients | app/routes/library.py:120-130 | set then read is the cleaned list, and no other meal changes |
| IngredientStore.Vocabulary.ItemIngredients | app/routes/library.py:133-142 | reads the names in entry order |
| IngredientStore.Vocabulary.ResaveForm | app/routes/library.py:811-813 | an untouched save changes no row and no order |
| Engine.Engine.CloseBatch | app/routes/sessions.py:844-905 | the option-by-option close computes the specified state |
| Engine.Engine.PassItems | app/routes/sessions.py:1746-1760 | the loop defaults exactly the given options |
| Engine.Engine.AddBatch | app/routes/sessions.py:1611-1627 | the inserts build the specified batch in deal order |
| Engine.Engine.ExpireIfStale | app/routes/sessions.py:695-731 | the in-place expiry is the specified one |
| Engine.Engine.CreateSession | app/routes/sessions.py:1090-1144 | run in place, does exactly what the proved step does, reply and code included; invariant kept |
| Engine.Engine.JoinSession | app/routes/sessions.py:1461-1513 | run in place, does exactly what the proved step does, reply and seat included; invariant kept |
| Engine.Engine.StartVoting | app/routes/sessions.py:1569-1632 | run in place, does exactly what the proved step does, reply included; invariant kept |
| Engine.Engine.Vote | app/routes/sessions.py:1656-1714 | run in place, does exactly what the proved step does, reply included; invariant kept |
| Engine.Engine.CloseByHand | app/routes/sessions.py:1729-1743 | run in place, does exactly what the proved step does, reply included; invariant kept |
| Engine.Engine.Decide | app/routes/sessions.py:1763-1816 | run in place, does exactly what the proved step does, reply included; invariant kept |
| Engine.Engine.NextBatch | app/routes/sessions.py:1858-1901 | run in place, does exactly what the proved step does, reply included; invariant kept |
| Engine.Engine.FinishSession | app/routes/sessions.py:1915-1942 | run in place, does exactly what the proved step does, unflushed lookup and reply included; invariant kept |
| Engine.Engine.RemoveParticipant | app/routes/sessions.py:2103-2126 | run in place, does exactly what the proved step does, reply included; invariant kept |
| Engine.Engine.MakeSessionCode | app/session_logic.py:234-248 | the retry loop is the specified search |
| Gaps.StartingOverIsUnbounded | app/routes/sessions.py:1583-1597 | a run in which starting over keeps one dish any number of times |
| Gaps.FinishCanLeaveUndecided | app/routes/sessions.py:1928-1931 | a run after whose finish an option stays undecided |
| Gaps.QuietYetChanged | app/routes/sessions.py:2012-2054 | a run in which a quiet page has missed a kept dish of a later batch |
| Gaps.QuietYetGone | app/routes/sessions.py:1982-1987 | a run in which it has missed that the session page moved on to the next batch's results |
| Gaps.QuietYetStocked | app/routes/sessions.py:968-981 | a run in which it has missed that the host is now offered a next batch |
| Gaps.QuietYetRenamed | app/routes/sessions.py:930-964 | a run in which it has missed a new name of a dish it lists |
| Gaps.QuietYetKept | app/routes/sessions.py:1763-1791 | a run in which it has missed a kept dish of an earlier one, its own batch still the latest |

## Left out

- TargetBounds.OverTargetBound: assumes that no start over of the session deals too soon, because with one the bound can fail (`Gaps.StartingOverIsUnbounded`); such a run may still happen to stay within it.
- TargetBounds.RoundsEnd: assumes that no start over of the session deals an offered item, with which the number of rounds has no bound (`Gaps.StartingOverIsUnbounded`).
- Deals.DealsFollowThePool: assumes that the session's collection is left alone from the lobby on, which is what the code's claim of a stable order needs.
- Deals.OneTrackDealsAPrefix: assumes the same, and that the session is never started over.
- Polls.QuietPollTrusted: assumes a collection left alone since the page was rendered; `Polls.QuietPoll` says what an edit can change.
- Polls.QuietPollUnedited: assumes the same.
- DoubleTap.TwiceIsOnce: a guest's join is not covered, because it seats a second row each time.
- Identity.CookieResolves: the cookie is the map of codes and ids; signing, transport and the JSON types of its values are not part of this model.
- RateLimit.SlidingWindowLimiter.RecordHit: timestamps are reals, so floating-point rounding of the cutoff is not modelled.
- Reports.RateInRange: rates are reals; only the final rounding to a percentage, halves to even, is modelled.
- Ingredients.NormalizeIsWords: case folding is a parameter with four laws (per character, settled after one pass, never empty, white space untouched).
- Ad hoc sessions end in the vote that a start opens: the code has no option entry for them yet, so they never get a batch.
- Sessions are keyed by their code; surrogate ids of sessions, votes and targets, and the timestamps nothing reads, are not part of this model.
- An item's name stands for its display name and for the normalised name the fetch sorts by; collections have no names, so renaming one under a results page is not part of this model.
- The generator of the shuffle is a table of draws per session and of the code search a list of draws: only that they are fixed matters.
- Handlers are atomic, as the single-process deployment has it; interleaving inside a handler and the two commits of `create_session` are not modelled.
- Form parsing, trimming of codes and names, group and collection ownership checks, sign-in, templates, redirect targets and the limiter's 429 in front of join: plumbing around the engine.
- The order in which a voter sees the cards, report sorting, the not-offered-lately list and `over_target_selection`: easy members.
- The JSON API and the MCP server, which repeat library writes.
