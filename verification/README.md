# Verified model of the log viewer's core

The repository collects the syslog of a UniFi gateway, enriches the remote addresses in it, and shows the
result. This project models the parts of it that decide what a user sees and what a quota is spent on, and
proves what they promise:

- **The filter language.** One query text is split into tokens (`Search`), typed, compiled to a `WHERE` clause
  with as few joins as possible (`Filters`), and interpreted a second time on rows that have just arrived
  (`Live`). The database is a table of rows whose columns may be NULL, conditions are trees evaluated in SQL's
  three-valued logic, and joins are LEFT JOINs over lookup tables (`Sql`). `FilterMeaning` and `JoinPruning`
  prove what the compiled query returns, `Agreement` exactly how far the live evaluator agrees with it, `Glob` how
  the two pattern languages relate. `Terms` and `Printers` cover the user interface's side: its own splitter, the
  removal of a term, and the two places that print queries.
- **The enrichment worker.** `Queue` is the status protocol of a log row as a step system. `Passes` says what one
  pass asks, learns and keeps, and proves what follows for any sequence of passes. `Worker` is the worker itself,
  a class whose methods change rows and cache in place; each is proved to be a step, or a run of steps, of the
  queue, and its contract determines the new rows, the new cache and the allowance. `Quota` is the threat source
  with its counters, `Refresh` the daily allowance for asking again. `Reopening` joins quota and queue into one
  system to say when deferred rows come back, and `Rounds` shows that the worker's rounds, fed by that source, are
  runs of it, and when such a row is claimed again.
- **The flow view** (`Sums`, `Ranking`, `Sankey`), the **CEF scanner** (`Cef`), the **log list's pages**
  (`Paging`), the **response cache** (`Cache`), the **column widths** (`Columns`) and the **chart axes**
  (`Chart`).

`Basics`, `Text`, `Numbers` and `Net` hold what several modules share. Loops and objects of the source are
methods and classes here; each is tied to a function, and the theorems are about that function. All lemmas
carry `{:induction false}`: every induction is written out.

## What turned out otherwise than expected

- **The threat source can lock itself up.** The source takes care that an empty quota always has an end, but its
  check comes before the branch for status 429. A 429 whose reset header is the number 0 while nothing remains
  leaves remaining 0, reset 0 and pause 0, and only a new key ends that
  (`crates/uip-enrich/src/abuseipdb.rs:158-186`). `Quota.ExactlyTheseAnswersLock` gives the exact condition for one
  answer, `Quota.ExactlyTheseRunsLock` for any run, `Quota.ZeroResetLocksUp` an answer that meets it, and
  `Quota.NeverLocksUp` the theorem for reset times after the epoch.
- **A rating that is seen often is never refreshed.** The comment at `crates/uip-enrich/src/worker.rs:18-23` says
  ratings are asked again after two weeks. But every pass that meets an address writes its known score back, and
  that write stamps the rating time (`crates/uip-enrich/src/worker.rs:264-305`), so the two weeks start anew each
  time. Over every sequence of passes, an address met at gaps of at most two weeks is never asked about again
  (`Passes.SeenAddressIsNeverAskedAgain`, with `Passes.RatingGrowsOld` for an instance); after a longer gap it is
  due, and as many of the due ones are asked as the allowance has left (`Passes.MetAgain`,
  `Worker.EnrichmentWorker.LookUpOne`). The model follows the code.
- **Deferred rows wait for other traffic.** Rows deferred for want of quota are to come back with the next quota
  window (`crates/uip-enrich/src/worker.rs:604-611`). But only a lookup clears the counters after the reset, and
  only its answer tells of a new window; until some other row causes one, nothing is reopened, however much time
  passes and however often the process restarts (`Reopening.DeferredWaitForTraffic`; `Reopening.RowsGetDeferred` is
  a run that leads there). An answer that tells of quota but not of a reset time reopens nothing either
  (`Reopening.AfterTheReset`).
- **Text under an address or port prefix breaks the count.** For `src:foo` the condition searches all text columns,
  but no join is added for it (`crates/uip-api/src/filters.rs:199-215`, `433-526`); a query that does not join
  everything anyway then names tables it has not joined. `JoinPruning.EveryNamedTableIsJoined` is the exact
  condition, `JoinPruning.StrayTextFails` an instance.
- **Where live and stored part.** For every term that needs no enrichment and uses no characters special to LIKE,
  `Agreement.TermsReadAlike` gives the exact condition, on the term alone, under which the two evaluators agree on
  every event, and `Agreement.UnsafeLiveHit` and `Agreement.UnsafeStoredTerm` an event on which they part otherwise.
  What hits live and fails stored: a wildcard that does not end in a star, because the live pattern leaves its end
  free (`Glob.FreeEndMattersUnlessStarred`), the name of an action or a kind that is not in lower case
  (`Agreement.SpellingDiffers`), and every text under no prefix, or under one the live check does not know. What
  holds stored and misses live: `sev:` (`Agreement.SeverityTermDiffers`), `prog:` (`Agreement.ProgramTermDiffers`),
  `rule:` by its description, `host:` by the reverse name, and again all free text, since the columns differ. For
  the three lists `Agreement.ListsReadAlike` gives the exact condition in the same way, for any names in them. Of
  the names the interface offers (`Agreement.OfferedLists`) a live pass is always right, and a reject is right on
  every event exactly if no action and no direction is chosen, or neither `unknown` nor a kind other than the
  firewall is. Otherwise the stored filter lets through rows without the chosen action or direction that the live
  check rejects; `Agreement.UnsafeStoredMeet` gives such an event for every filter, `Agreement.UnknownActionDiffers`
  the simplest.
- **Rounding never yields 2.5.** The comment at `ui/src/DashChartMath.ts:88-90` lists 2.5 among the round mantissas;
  the code never returns it, nor does the model.

## Model

| member | source | states |
|---|---|---|
| Search.SplitTokens | crates/uip-api/src/search.rs:76-95 | the loop over the characters yields exactly the tokens of the recursive definition; white space inside quotes does not divide, an open quote runs to the end |
| Search.EveryParsedTermIsWellTyped | crates/uip-api/src/search.rs:97-206 | every parsed term has a value its field allows: text fields carry text, port fields ports in 1 to 65535 or text, ASN fields positive numbers or text, MACs in lower case, and its wildcard flag says whether it holds a star |
| Search.OneWordIsRead | crates/uip-api/src/search.rs:97-206 | for every query of one word: one term, negated exactly behind a sign, under the field its prefix names; without a field the value is a network with its slash exactly if it parses as one, else an address exactly if it parses, else a partial address, a hardware address, a port in range, and text otherwise; under a field only what that field takes |
| Search.PrefixesOf | crates/uip-api/src/search.rs:23-43 | which prefixes name which field |
| Search.PartialAddressIs | crates/uip-api/src/search.rs:213-227 | a token is a partial address if and only if, trailing stars and then dots aside, it is two or three numbers from 0 to 255 between dots, and stands for their network |
| Search.MacIsShaped | crates/uip-api/src/search.rs:208-211 | a token is a hardware address if and only if it is six pairs of hexadecimal digits between colons or hyphens |
| Search.OctetNetworkCovers | crates/uip-api/src/search.rs:214-227 | the network of two or three octets contains exactly the IPv4 addresses that begin with them |
| Search.PartialAddressCoversItsOctets | crates/uip-api/src/search.rs:214-227 | the same for a partial address as typed, trailing stars and dots included |
| Filters.NeededJoins | crates/uip-api/src/filters.rs:244-258 | the loop over the terms computes the union of what the fields and each term need |
| Filters.QueryBuilder.PushJoins | crates/uip-api/src/filters.rs:267-290 | the builder gains exactly the joins of the needs of the filter and the endpoint, in order |
| Filters.QueryBuilder.PushWhere | crates/uip-api/src/filters.rs:319-410 | the builder gains exactly the conditions of every clause, in order |
| Filters.QueryBuilder.PushTypes | crates/uip-api/src/filters.rs:322-334 | the type list and, where the firewall is not chosen, the planner hint before it |
| Filters.QueryBuilder.PushActions | crates/uip-api/src/filters.rs:338-363 | the action condition with the unknown choice and the exemption for kinds without actions |
| Filters.QueryBuilder.PushTerm | crates/uip-api/src/filters.rs:433-526 | one condition per term; a negated one is the negation of the condition with NULL read as false |
| Filters.QueryBuilder.AnyOf | crates/uip-api/src/filters.rs:517-522 | the columns of a text term joined by OR |
| FilterMeaning.WhereMeansFilter | crates/uip-api/src/filters.rs:319-410 | for every filter and every row with any NULLs, the WHERE clause is TRUE exactly when the row meets the filter in the plain two-valued reading |
| FilterMeaning.ActionClauseMeans | crates/uip-api/src/filters.rs:335-363 | the action clause is TRUE exactly when the row has a chosen action, or has none and either unknown was chosen or its kind was chosen by name and is not the firewall |
| FilterMeaning.DirectionClauseMeans | crates/uip-api/src/filters.rs:364-372 | the same for directions, where a chosen kind other than the firewall is always let through |
| FilterMeaning.PlannerHintChangesNothing | crates/uip-api/src/filters.rs:322-334 | with and without the hint the type clause has the same truth value for every row |
| FilterMeaning.NegationComplements | crates/uip-api/src/filters.rs:433-437 | a negated term keeps exactly the rows the plain term drops, rows with NULL columns included |
| FilterMeaning.NakedNegationLosesRows | crates/uip-api/src/filters.rs:433-437 | without the COALESCE a row with a NULL column would be lost under both the term and its negation |
| FilterMeaning.TextCondMeans | crates/uip-api/src/filters.rs:475-523 | a text term is TRUE exactly when its field's id, severity or one of its columns reads as asked |
| FilterMeaning.ReadsByPieces | crates/uip-api/src/filters.rs:500-523 | a text reads as asked, whatever characters the term holds, exactly if it falls into stretches that the pieces of the pattern fill |
| FilterMeaning.TextIsSearchedIn | crates/uip-api/src/filters.rs:500-523 | a text without a field is looked for in fifteen columns, named one by one |
| FilterMeaning.ScopedTextIsSearchedIn | crates/uip-api/src/filters.rs:500-523 | a text under a field is looked for in the columns of that field |
| FilterMeaning.TimeBounds | crates/uip-api/src/filters.rs:390-410 | the lower bound is the one given or else the start of the range, and both bounds are included |
| Filters.SeveritiesAre | crates/uip-api/src/filters.rs:415-431 | which names and numbers are which severity |
| JoinPruning.EveryNamedTableIsJoined | crates/uip-api/src/filters.rs:199-290 | every alias the condition names has been joined, if and only if no text stands under an address or port prefix or all tables were asked for |
| JoinPruning.QueryReturnsMeetingRows | crates/uip-api/src/filters.rs:199-410 | with unique ids in the lookup tables and no pattern that ends in an escape, the query returns exactly the rows that meet the filter, in table order, and an error exactly in the stray case |
| JoinPruning.OnlyBackslashesAreRefused | crates/uip-api/src/filters.rs:500-503 | the texts the two statements about whole queries leave out are wildcard texts that end in a backslash |
| JoinPruning.PruningPreservesMeaning | crates/uip-api/src/filters.rs:244-290 | the query with the reduced joins and any extra returns what the query with all joins returns, unless a pattern ends in an escape |
| JoinPruning.StrayTextFails | crates/uip-api/src/filters.rs:199-215 | `src:foo` counted with the joins it asks for fails, with all joins it does not |
| JoinPruning.OutInterfaceIsFound | crates/uip-api/src/filters.rs:267-290 | end to end for one filter: a row is returned if and only if some interface with the id it left on has that name, case aside |
| Sql.UnknownIsBetween | crates/uip-api/src/filters.rs:433-437 | SQL's AND, OR and NOT with unknown between false and true |
| Sql.ExecuteKeeps | crates/uip-api/src/filters.rs:267-290 | LEFT JOINs over tables with unique ids neither lose nor duplicate a row, needed or not |
| Sql.NamesShow | crates/uip-api/src/filters.rs:267-290 | with unique ids a joined name, for each of the six aliases and the rule's description, is that of the entry whose id the row holds in that column |
| Sql.OwnTextsShow | crates/uip-api/src/filters.rs:199-215 | every other text column shows the row's own text |
| Sql.EvalNeedsOnlyItsAliases | crates/uip-api/src/filters.rs:199-215 | the truth value of a condition depends on the log row and the aliases it names, and on nothing else |
| Live.Combine | crates/uip-api/src/stream.rs:29-43 | one sure no rejects, otherwise one unknowable leaves the row unknowable, otherwise it passes |
| Live.Overall | crates/uip-api/src/stream.rs:274-287 | when the whole verdict is pass and when it is reject, in terms of its parts |
| Live.CombinedSearch | crates/uip-api/src/stream.rs:257-272 | a query rejects exactly if some decidable term is not met, and passes exactly if all are decidable and met |
| Live.FreeTextIsSearchedIn | crates/uip-api/src/stream.rs:233-255 | text without a field of the row's own is looked for in twelve texts, named one by one |
| Live.VerdictsAreStable | crates/uip-api/src/stream.rs:91-120 | filling in a missing country or score with any value never overturns a verdict once given |
| Live.WhatStaysUnknowable | crates/uip-api/src/stream.rs:155-287 | with country and score known, a row stays unknowable exactly if a country or ASN term is asked and it passes everything else |
| Agreement.TermsReadAlike | crates/uip-api/src/stream.rs:122-255 | for every comparable term: every live hit holds stored if and only if the term is live-safe, everything that holds stored is a live hit if and only if it is stored-safe, and both evaluators agree on all events if and only if it is both |
| Agreement.UnsafeLiveHit | crates/uip-api/src/stream.rs:122-255 | for every other comparable term an event that hits live and fails stored |
| Agreement.UnsafeStoredTerm | crates/uip-api/src/stream.rs:122-255 | for every comparable term that is not stored-safe an event that holds stored and misses live |
| Agreement.ListsReadAlike | crates/uip-api/src/stream.rs:47-287 | for the type, action and direction lists of any filter, whatever names they hold: every live pass is kept stored if and only if the lists are live-safe, every kept row passes live if and only if they are stored-safe, and both evaluators agree on all events if and only if they are both |
| Agreement.UnsafeLivePass | crates/uip-api/src/stream.rs:47-55 | for lists that are not live-safe a plain row that passes all three live and not stored |
| Agreement.UnsafeStoredMeet | crates/uip-api/src/filters.rs:335-372 | for lists that are not stored-safe a plain row that is kept stored and rejected live, of a kind that is let through if one is asked for |
| Agreement.OfferedLists | crates/uip-api/src/filters.rs:335-372 | of names the interface offers live passes are right, and both evaluators agree if and only if neither actions nor directions are chosen or neither unknown nor a kind other than the firewall is |
| Agreement.PassIsKept | crates/uip-api/src/stream.rs:47-287 | a live pass implies that the compiled condition is TRUE of the stored row, if the lists are live-safe and each term is safe in the direction its polarity needs |
| Agreement.LiveAgreesWithStored | crates/uip-api/src/stream.rs:47-287 | for faithful terms and live-safe lists a given verdict is pass if and only if the stored condition is TRUE and no list leaves the stored row unnamed; with faithful lists, if and only if the condition is TRUE |
| Agreement.RejectIsDropped | crates/uip-api/src/stream.rs:47-287 | a live reject implies that the stored condition is not TRUE, if the lists are stored-safe and each term is safe in the other direction |
| Agreement.UnknownActionDiffers | crates/uip-api/src/stream.rs:47-55 | with unknown as the only choice, the whole WHERE clause is TRUE of every stored row without an action, and the same row is rejected live |
| Agreement.SeverityTermDiffers | crates/uip-api/src/stream.rs:233-255 | a severity term that any stored row meets is rejected live unless the word stands in one of its texts |
| Agreement.ProgramTermDiffers | crates/uip-api/src/stream.rs:233-255 | so is a program term a stored row meets by its program |
| Agreement.SpellingDiffers | crates/uip-api/src/stream.rs:233-255 | the name of an action or a kind with a capital in it passes live on the rows it names and holds of no stored one |
| Glob.GlobMatch | crates/uip-api/src/stream.rs:122-143 | the greedy leftmost search succeeds exactly when the folded text matches the folded pattern with its end left free |
| Glob.OpenMeansPlacement | crates/uip-api/src/stream.rs:122-143 | that is exactly when the text starts with the first part and the other parts can be placed behind it in order without overlap |
| Glob.GreedyStep | crates/uip-api/src/stream.rs:122-143 | taking the leftmost hit of a part loses no match |
| Glob.SqlGlobIsLiveGlob | crates/uip-api/src/stream.rs:122-143 | what the SQL pattern matches the live pattern matches, and the two coincide on all texts if and only if the pattern ends in a star |
| Glob.FreeEndMattersUnlessStarred | crates/uip-api/src/stream.rs:122-143 | matching from the start and matching whole are the same if and only if the pattern ends in a star |
| Glob.FreeEndDiffers | crates/uip-api/src/stream.rs:122-143 | a pattern and a text that match live and not in SQL |
| Glob.PlainPatternIsContains | crates/uip-api/src/filters.rs:500-523 | without stars the pattern finds exactly the texts that contain the term, case aside |
| Glob.LikeMeansDivision | crates/uip-api/src/filters.rs:500-523 | for every pattern, metacharacters and escapes included, LIKE holds exactly if no escape dangles and the text falls into consecutive stretches that the pieces of the pattern fill |
| Terms.SplitTerms | ui/src/filters.ts:216-234 | the loop yields exactly the terms of the recursive definition, quotes kept |
| Terms.SplittersAgree | ui/src/filters.ts:216-234 | on every string the backend's tokens are the interface's terms with quotes removed and empties dropped |
| Terms.RemoveTermRemovesJustThat | ui/src/filters.ts:236-239 | splitting what is left gives the old terms without the removed one, an open final quote included |
| Terms.RemoveTermForBackend | ui/src/filters.ts:236-239 | and the backend searches for just the others |
| Printers.PanelRoundTrip | ui/src/FilterPanel.tsx:41-116 | for any query and drafts: the drafts' tokens come back behind those of the query if and only if no draft holds a quotation mark and either the query has no open one or nothing is added to it and nothing trimmed; and then each comes back as one term with the same field, polarity and value, behind the old terms, if and only if every free-text draft neither looks negated nor scoped |
| Printers.ComposeQ | ui/src/filters.ts:171-186 | the filled fields as terms, in order, and the typed query last |
| Printers.ComposedQueryRoundTrip | ui/src/filters.ts:142-186 | the composed query has the tokens of the filled fields and then those of the typed query if and only if no field holds a quotation mark; and then it parses to one term per filled field and the terms of the typed query if and only if the two free fields read as written |
| Printers.FieldIsSearchedFor | ui/src/filters.ts:171-186 | each filled field is searched for in its own field and read as such: source port, destination port, rule, network |
| Queue.StepKeepsInv | crates/uip-enrich/src/worker.rs:118-189 | every step keeps the accounting of claims and loses no row |
| Queue.NoRowLostNoneClaimedInVain | crates/uip-enrich/src/worker.rs:118-189 | over every run no row is lost and none is claimed more often than once plus the reopenings that found it deferred plus the restarts that found it in progress |
| Queue.StrandedUntilRestart | crates/uip-enrich/src/worker.rs:118-133 | a row left behind by a failed write-back stays in progress through any run until a restart releases it |
| Queue.SuccessiveReopeningsDiffer | crates/uip-enrich/src/worker.rs:603-642 | two successive reopenings of one process are for different reset times, none of them zero |
| Queue.QueueDrains | crates/uip-enrich/src/worker.rs:603-642 | without inserts and reopenings the pending count falls by a full batch, or to zero, with every pass |
| Queue.LoopReachesSleep | crates/uip-enrich/src/worker.rs:603-642 | so after enough passes a claim comes back empty and the loop sleeps |
| Queue.PassShrinks | crates/uip-enrich/src/worker.rs:307-391 | every non-empty pass strictly shrinks the pending rows, whether its write-back succeeds or not |
| Queue.SomeNewest | crates/uip-enrich/src/worker.rs:148-189 | a claim of the newest pending rows is always possible |
| Worker.EnrichmentWorker.StartUp | crates/uip-enrich/src/worker.rs:118-133 | is the restart step: exactly the rows in progress return to pending, unless the database fails |
| Worker.EnrichmentWorker.ReopenDeferred | crates/uip-enrich/src/worker.rs:135-146 | is the reopening step: exactly the deferred rows return to pending |
| Worker.EnrichmentWorker.ClaimRows | crates/uip-enrich/src/worker.rs:148-189 | is the claiming step on the newest pending rows; the claims name each row's own far end and wish for a score, and no other row changes |
| Worker.EnrichmentWorker.LookUpOne | crates/uip-enrich/src/worker.rs:318-377 | exactly which sources one address is looked up in, a stale rating being refreshed if and only if a score is wanted and the allowance grants it; exactly what is learned, what the cache keeps of it and what the allowance pays; what that means field by field is in `Passes` |
| Worker.EnrichmentWorker.LookUp | crates/uip-enrich/src/worker.rs:307-377 | one pass asks each source at most once per address, asks threat for far ends of blocked firewall rows wherever no score is known and for as many due ratings as the allowance has left; each address gets what its sources say, and the cache changes for these addresses only |
| Worker.EnrichmentWorker.CollectUpdates | crates/uip-enrich/src/worker.rs:445-482 | one update per claimed row with its own facts and status, and a category list exactly for the rows that have one, in order |
| Worker.EnrichmentWorker.WriteBack | crates/uip-enrich/src/worker.rs:428-526 | the new rows, for every way the database may fail: nothing written, or all but some of the categories; it succeeds if and only if all updates do, and it is the write-back step of the queue |
| Worker.EnrichmentWorker.RunOnce | crates/uip-enrich/src/worker.rs:307-391 | a whole pass: it claims the newest waiting rows up to the limit; its result is their number, or an error if and only if the database failed; every row is accounted for, every address asked about is the far end of some blocked firewall row and none is asked about twice; and it is a valid run of the queue |
| Worker.EnrichmentWorker.Iterate | crates/uip-enrich/src/worker.rs:603-642 | the loop body: it reopens exactly when the reported quota is there and its window is a new one, then makes one pass on the rows as they are then, and sleeps if and only if the pass failed or found nothing |
| Worker.EnrichmentWorker.Work | crates/uip-enrich/src/worker.rs:589-642 | start-up and any number of rounds with rows arriving in between: each round is a pass over the newest waiting rows as the arrivals, the reopening and the round before left them, and so for the quota window and the cache; the whole is one valid run of the queue |
| Worker.PassAccounts | crates/uip-enrich/src/worker.rs:307-526 | after a pass each row is untouched if it was not claimed, in progress if nothing was written, and else has the facts of its own far end, its score included; it is deferred if and only if it wanted a score, has a far end, got none and a lookup of the pass was refused, and done otherwise |
| Worker.QuotaGoesToBlockedRows | crates/uip-enrich/src/worker.rs:307-377 | every address asked about is the far end of some blocked firewall row, and none is asked about twice |
| Worker.WriteBackSteps | crates/uip-enrich/src/worker.rs:428-526 | seen from the queue the write-back is its step: claimed rows are done or deferred, no other moves |
| Worker.RefreshedRatingIsWritten | crates/uip-enrich/src/worker.rs:354-391 | after a pass that refreshed a rating, a written row of that far end has the score, reports, time, exit node and usage of the new rating, and its categories once the write-back is complete |
| Passes.FarEndIs | crates/uip-core/src/target.rs:35-55 | an address is a row's far end if and only if it is usable and the side the kind and direction of the row ask for: the source inbound, the destination outbound, else the source before the destination |
| Passes.RefreshedRatingArrives | crates/uip-enrich/src/worker.rs:354-366 | when a due rating is asked for and found, all six of its fields replace the old ones, gaps included, and place, network and name stay |
| Passes.RefreshedRatingIsCached | crates/uip-enrich/src/worker.rs:254-305 | the cache then holds the new score as of now, and of the rest the new value where there is one |
| Passes.LocatingFillsGaps | crates/uip-enrich/src/worker.rs:337-344 | field by field: the place is looked up only if neither country nor network is known and fills gaps; a missing name is asked for if that is on |
| Passes.FirstRatingFillsGaps | crates/uip-enrich/src/worker.rs:352-377 | field by field: a first rating fills gaps; without an answer nothing changes |
| Passes.CacheTakesNews | crates/uip-enrich/src/worker.rs:254-305 | field by field: new values win, gaps keep the old ones, and a score moves the stamp |
| Passes.StaleAfterTwoWeeks | crates/uip-enrich/src/worker.rs:220-226 | a rating is due exactly if it is older than fourteen days or was never dated |
| Passes.VisitStamps | crates/uip-enrich/src/worker.rs:254-305 | whenever a pass meets an address and ends knowing its score, the stamp is the time of the pass, asked about or not |
| Passes.VisitForgetsNothing | crates/uip-enrich/src/worker.rs:264-305 | the cache loses no fact, and keeps all that was learned |
| Passes.AllowanceDecides | crates/uip-enrich/src/worker.rs:345-351 | with enough of the allowance left every due rating is refreshed, with none left none is |
| Passes.MetAgain | crates/uip-enrich/src/worker.rs:191-377 | over every sequence of passes, of a rated address met again: within two weeks of the last meeting it is not asked about and stays rated; after that it is due if and only if a score is wanted, and the due ones asked about are as many as there are or the allowance has left |
| Passes.SeenAddressIsNeverAskedAgain | crates/uip-enrich/src/worker.rs:191-377 | over every sequence of passes, a rated address met at gaps of at most two weeks is never asked about again |
| Passes.RatingGrowsOld | crates/uip-enrich/src/worker.rs:254-305 | three passes ten days apart in which a wanted rating passes its two weeks unasked, with the whole allowance left |
| Reopening.OnlyAReportReopens | crates/uip-enrich/src/worker.rs:604-628 | a deferred row leaves its state in no step but a check that finds quota left and a window that is known and new, and then it is pending |
| Reopening.DeferredUntilTold | crates/uip-enrich/src/worker.rs:604-628 | with the quota used up or unknown, no deferred row comes back over any run in which no answer tells of quota left |
| Reopening.DeferredWaitForTraffic | crates/uip-enrich/src/worker.rs:604-628 | over any run without lookups, restarts and key changes included, a deferred row that may not come back now never does |
| Reopening.RowsGetDeferred | crates/uip-enrich/src/abuseipdb.rs:175-186 | a run from the start that ends there: a row comes in, is claimed, its lookup is refused with nothing left, and it is deferred |
| Reopening.ExactlyTheseAnswersReopen | crates/uip-enrich/src/abuseipdb.rs:120-191 | with the quota used up or unknown, the answer to a lookup brings deferred rows back at the next check if and only if it tells of quota left in a window that is known and new |
| Reopening.AfterTheReset | crates/uip-enrich/src/abuseipdb.rs:72-84 | once the reset has passed the next lookup asks, and an answer that tells of quota brings deferred rows back if and only if it names a new reset time |
| Rounds.SourceRunsOut | crates/uip-enrich/src/worker.rs:354-371 | with outcomes from the source's own counters a pass runs out of quota if and only if one of its lookups, each after those before it, is refused |
| Rounds.RoundIsJoint | crates/uip-enrich/src/worker.rs:612-642 | a round whose report is that of its source is a valid run of quota and queue together: the counters end as its lookups leave them, the queue as the worker leaves it |
| Rounds.ClaimReaches | crates/uip-enrich/src/worker.rs:148-160 | a claim takes a pending row if at most a batch of them is not older, and does not if a batch of them is newer |
| Rounds.WhenClaimedAgain | crates/uip-enrich/src/worker.rs:604-642 | of a deferred row over two rounds: the first does not claim it; the second does only if the first one's lookups left the counters with quota in a new window, the database reopens and less than a batch is newer, and does if at most a batch is not older |
| Rounds.ClaimedOnlyAfterReport | crates/uip-enrich/src/worker.rs:604-628 | over any run of quota and queue together, a deferred row is claimed again only after a look at a quota that is left in a new window |
| Quota.AbuseIpDb.GetQuota | crates/uip-enrich/src/abuseipdb.rs:104-118 | nothing without a key or before an answer told of a quota, otherwise the four counters |
| Quota.ReportedIs | crates/uip-enrich/src/abuseipdb.rs:104-118 | a count of zero is reported, an unknown one is not |
| Quota.AbuseIpDb.SetApiKey | crates/uip-enrich/src/abuseipdb.rs:89-102 | another key starts with fresh counters, the same one changes nothing |
| Quota.AbuseIpDb.ClearAfterReset | crates/uip-enrich/src/abuseipdb.rs:72-84 | once the later of reset and pause has passed, both and the remaining count are forgotten |
| Quota.AbuseIpDb.Lookup | crates/uip-enrich/src/abuseipdb.rs:120-191 | when a request is sent, what each header and status leaves in the counters, and what the caller is told |
| Quota.AnswerIsRecorded | crates/uip-enrich/src/abuseipdb.rs:140-186 | counter by counter, what an answer leaves behind: the headers where they are there, for a refusal the reset time, the delay or an hour, for an empty quota without a time midnight |
| Quota.UnansweredIsUnchanged | crates/uip-enrich/src/abuseipdb.rs:120-137 | without a request or an answer to it only times that are over are forgotten |
| Quota.ToldIs | crates/uip-enrich/src/abuseipdb.rs:120-191 | when a lookup is told found, disabled or out of quota |
| Quota.WhenItAsks | crates/uip-enrich/src/abuseipdb.rs:120-128 | no request while paused or with an unexpired empty quota; with a key and both times past, one goes out if and only if the source is not locked up |
| Quota.ExactlyTheseAnswersLock | crates/uip-enrich/src/abuseipdb.rs:120-191 | a lookup locks the source up if and only if its answer has nothing remaining and either a 429 with retry time zero or another status with a negative reset and no pause on record |
| Quota.ZeroResetLocksUp | crates/uip-enrich/src/abuseipdb.rs:167-186 | one such answer, after which no lookup ever asks again |
| Quota.LockedUpIsForGood | crates/uip-enrich/src/abuseipdb.rs:120-128 | a locked-up source never asks and never changes by lookups |
| Quota.ExactlyTheseRunsLock | crates/uip-enrich/src/abuseipdb.rs:60-191 | over every run of lookups and key changes, the source ends locked up if and only if some answer in it locked it up and no other key was set after that |
| Quota.NeverLocksUp | crates/uip-enrich/src/abuseipdb.rs:60-191 | in every state reachable by key changes and answers with reset times after the epoch, an empty quota has an end, and a lookup with a key after both times asks |
| Quota.PauseIsKept | crates/uip-enrich/src/abuseipdb.rs:60-84 | any run of lookups before the end of a pause sends nothing and changes nothing |
| Quota.RefusalPauses | crates/uip-enrich/src/abuseipdb.rs:175-186 | a 429 pauses until the reset time, the retry delay or an hour, in that order, and a new key ends the pause |
| Refresh.RefreshBudget.Take | crates/uip-enrich/src/worker.rs:63-81 | grants while the day's count is below the allowance; a new day starts at zero |
| Refresh.RefreshBudget.SetPerDay | crates/uip-enrich/src/worker.rs:57-59 | a new allowance leaves what was used today as it is |
| Refresh.OneDayGrantsWhatIsLeft | crates/uip-enrich/src/worker.rs:63-81 | any number of requests on one day is granted exactly up to what is left, which is nothing if the allowance was lowered below what was used |
| Refresh.OneTakeMore | crates/uip-enrich/src/worker.rs:63-81 | after any number of requests the next is granted exactly while some of the allowance is left |
| Refresh.NewDayNewAllowance | crates/uip-enrich/src/worker.rs:63-81 | after any history the first request of another day finds the whole allowance |
| Sums.GroupingConserves | crates/uip-api/src/flows.rs:131-143 | summing group by group over any subset of groups gives the sum over the rows in those groups |
| Ranking.TopKeys | crates/uip-api/src/flows.rs:31-35 | the kept keys are exactly those with fewer than `limit` keys ahead of them by volume descending, key ascending, whatever the hash order |
| Ranking.KeptAreLargest | crates/uip-api/src/flows.rs:31-35 | no dropped key has a larger volume than a kept one, nor as large a one and a smaller name |
| Ranking.PlaceIsRank | crates/uip-api/src/flows.rs:31-35 | in the sorted list the key at place i has exactly i keys ahead of it |
| Sankey.Volumes | crates/uip-api/src/flows.rs:107-116 | each map holds for every key of its column the sum over its rows, and no other key |
| Sankey.VolumesAre | crates/uip-api/src/flows.rs:107-116 | the three columns are the sources, services and destinations of the rows, each with the sum of its counts |
| Sankey.IdsDiffer | crates/uip-api/src/flows.rs:55-67 | nodes of different columns or keys have different ids |
| Sankey.ColumnKeys | crates/uip-api/src/flows.rs:43-51 | the kept keys in order, and the collecting node last exactly if something collapsed |
| Sankey.NodeList.PushColumn | crates/uip-api/src/flows.rs:55-67 | the list gains one node per key, and the index maps each key to its own |
| Sankey.LookupsHit | crates/uip-api/src/flows.rs:131-152 | what any row's key resolves to is in its column's index, so no lookup can miss |
| Sankey.GroupHops | crates/uip-api/src/flows.rs:129-143 | both hops group the rows by the pair of resolved keys, summing counts and blocked counts |
| Sankey.LinksCarryRows | crates/uip-api/src/flows.rs:145-156 | any selection of links carries the count and blocked count of the rows behind it |
| Sankey.MiddleConserves | crates/uip-api/src/flows.rs:129-156 | what flows into a service node flows out of it, count and blocked count |
| Sankey.BuildSankey | crates/uip-api/src/flows.rs:107-156 | three columns of at most limit + 1 nodes in rank order; links run from column to column with valid indices; each hop carries the total count and blocked count; inflow equals outflow in the middle, and each node's flow is that of its rows |
| Cef.KeyChars | crates/uip-ingest/src/cef.rs:61-81 | by their ASCII codes: a key begins with a letter or an underscore and goes on with these and digits |
| Cef.KeyStarts | crates/uip-ingest/src/cef.rs:61-81 | the nested index loops yield exactly the spans of the recursive scan |
| Cef.ScanIsComplete | crates/uip-ingest/src/cef.rs:55-81 | the scan finds exactly the stretches that start at the beginning or behind a space, consist of word characters led by a letter or underscore, and end at an equals sign |
| Cef.ScanIsIncreasing | crates/uip-ingest/src/cef.rs:61-81 | for any input the spans are strictly increasing and disjoint |
| Cef.Extension | crates/uip-ingest/src/cef.rs:86-107 | the loop builds exactly the map of the cut-out pairs, later ones winning, empty and null values left out |
| Cef.ExtensionRoundTrip | crates/uip-ingest/src/cef.rs:61-107 | printing pairs whose values hide no key and scanning them gives back the normalised map, for any values with spaces and equals signs |
| Cef.ProperPairsComeBack | crates/uip-ingest/src/cef.rs:86-107 | with distinct normalised names and trimmed, non-empty, non-null values that map has one entry per pair, value unchanged |
| Cef.PrintedIsFound | crates/uip-ingest/src/cef.rs:86-107 | for any pairs whose values hide no key: a name is in the map if and only if some pair's key becomes it, vendor prefix off and first letter small, with a value that is neither empty nor null; and then it has the trimmed value of the last such pair |
| Cef.KeyBecomes | crates/uip-ingest/src/cef.rs:88-103 | what a key with and without the vendor prefix becomes, letter by letter |
| Cef.PrintedKeysAreTheOnlyOnes | crates/uip-ingest/src/cef.rs:61-81 | the scan takes the printed keys and no others if and only if no value holds a space-preceded key-shaped word with an equals sign |
| Cef.HeaderRoundTrip | crates/uip-ingest/src/cef.rs:43-54 | seven fields without bars come back from a glued header, and the extension with them, bars and all |
| Paging.CursorRoundTrip | crates/uip-api/src/logs.rs:18-22 | parsing a printed cursor gives the same pair, if and only if both parts fit 64 bits and the calendar knows the moment |
| Paging.GetLogs | crates/uip-api/src/logs.rs:24-123 | the answer holds the newest matching rows behind the cursor up to the limit, and the cursor of the last of them |
| Paging.LatestFirst | crates/uip-api/src/logs.rs:60-78 | on every page the later time comes first, and of equal times the larger id |
| Paging.EarlierThanCursor | crates/uip-api/src/logs.rs:60-78 | every row of a page matches and is earlier than the cursor by time and then id |
| Paging.OthersAreEarlier | crates/uip-api/src/logs.rs:60-78 | a matching row behind the cursor that is not on the page is earlier than all rows on it, and the page then is full |
| Paging.PageStep | crates/uip-api/src/logs.rs:60-78 | a page whose cursor skips `from` rows holds exactly the next ones, and hands out a cursor that skips up to its own end |
| Paging.WalkShrinks | crates/uip-api/src/logs.rs:60-78 | every page that is not empty leaves strictly fewer rows to come, so following the cursors ends, even with equal keys |
| Paging.WalkVisitsAll | crates/uip-api/src/logs.rs:60-78 | following the cursors with any limit visits every matching row exactly once, in strictly descending order |
| Paging.LogsView.GoNext | ui/src/LogsView.tsx:921-927 | pushes the next cursor and shows its page; without one, nothing changes |
| Paging.LogsView.GoPrev | ui/src/LogsView.tsx:929-936 | pops and shows the page below; on the first page, nothing changes |
| Paging.LogsView.RefreshPage | ui/src/LogsView.tsx:938-943 | shows the current page's answer again and leaves the stack alone |
| Paging.LogsView.NextThenPrevious | ui/src/LogsView.tsx:921-936 | next and then previous leads back to the same stack, rows and next cursor |
| Paging.PageShowsItsRows | ui/src/LogsView.tsx:947-948 | on page n, however reached, stand exactly the rows the footer's numbers name |
| Cache.ResponseCache.Get | crates/uip-api/src/cache.rs:68-76 | a hit is the body of the latest accepted answer for the key and at most 20 seconds old; the latest answer is a hit for 20 seconds unless 128 were accepted behind it |
| Cache.LatestIsKept | crates/uip-api/src/cache.rs:68-93 | in numbers: kept is the latest answer while it is at most 20 seconds old and at most 128 were accepted since, itself among them |
| Cache.ResponseCache.Put | crates/uip-api/src/cache.rs:78-93 | an answer over the size limit is refused, any other accepted; never more than 128 entries |
| Cache.MakeRoom | crates/uip-api/src/cache.rs:86-91 | a full memory gives up exactly one entry, and none is older |
| Cache.KeysAreCounted | crates/uip-api/src/cache.rs:78-93 | as many different keys as hold entries from some moment on, so many answers were accepted since |
| Cache.KeysDiffer | crates/uip-api/src/cache.rs:101-103 | two requests share a key exactly if path and query agree, an absent query counting as an empty one |
| Cache.Layer | crates/uip-api/src/cache.rs:105-133 | a request is answered from memory only as above, otherwise by the endpoint, whose answer is kept exactly if it is a 200 and not too large; other requests pass through |
| Columns.FitColumns | ui/src/LogsView.tsx:653-683 | the loops compute the fitted widths: first the bounds, then the shares of the slack |
| Columns.BaseBounds | ui/src/LogsView.tsx:656-665 | a column is at least as wide as its heading, stays within its bounds, and is never cut if it is the last |
| Columns.CountsFor | ui/src/LogsView.tsx:653-683 | the last column counts for no more than 420 pixels of the window, any other for its width |
| Columns.DividingTheSlack | ui/src/LogsView.tsx:674-681 | shares never exceed the slack or the need; with enough slack everybody gets all, otherwise fewer pixels stay over than there are columns that need some |
| Columns.FittedColumn | ui/src/LogsView.tsx:653-683 | no fitted column is narrower than its heading, none that was cut grows past what it wants, none that was not grows |
| Columns.FittedRoom | ui/src/LogsView.tsx:653-683 | columns that fitted still fit; with room for all that was cut nothing stays cut; otherwise fewer pixels stay free than columns were cut |
| Columns.Table.GrowIntoSlack | ui/src/LogsView.tsx:716-779 | the new widths and remembered wishes, from what runs over and what is free |
| Columns.WishesFollow | ui/src/LogsView.tsx:753-779 | a remembered wish never falls, and is at least the grown width where something ran over |
| Columns.GrowthBounds | ui/src/LogsView.tsx:753-779 | no column shrinks or gains more than it lacks, the last gains all it lacks, the others together at most the slack, all they lack if that is enough, and otherwise leave fewer pixels than there are of them |
| Columns.FixedStays | ui/src/LogsView.tsx:731-735 | a column set by hand stays as it is |
| Columns.NeedCoversAsks | ui/src/LogsView.tsx:731-750 | what a column needs covers everything that runs over in it |
| Columns.NeedWasAsked | ui/src/LogsView.tsx:731-750 | and is no more than the most that was asked, rounded up |
| Chart.Log10Bounds | ui/src/DashChartMath.ts:91-93 | the exponent puts the number between two neighbouring powers of ten |
| Chart.MantissaIs | ui/src/DashChartMath.ts:91-101 | rounded, the bounds between 1, 2, 5 and 10 are 1.5, 3 and 7; otherwise the least of them that is not smaller |
| Chart.NiceIsLeast | ui/src/DashChartMath.ts:91-101 | without rounding, the least of 1, 2 and 5 times a power of ten that covers the range |
| Chart.NiceIsNear | ui/src/DashChartMath.ts:91-101 | with rounding, between two thirds and five thirds of the range |
| Chart.NiceAxis | ui/src/DashChartMath.ts:112-124 | for a positive maximum the top is a whole number of steps and the ticks run evenly from 0 to it; otherwise the axis from 0 to 1 |
| Chart.TopIsLeastMultiple | ui/src/DashChartMath.ts:116-117 | the top is the least multiple of the step that covers the maximum |
| Chart.StepTable | ui/src/DashChartMath.ts:116 | with the default count the step is a fifth, a half, one or two of the power of ten below the maximum |
| Chart.ThreeToFiveIntervals | ui/src/DashChartMath.ts:112-124 | with the default count there are always three to five intervals |
| Chart.TickIndices | ui/src/DashChartMath.ts:78-86 | no index, all of them, or the evenly spread ones, as the set and the sort yield them |
| Chart.MarksIncrease | ui/src/DashChartMath.ts:78-86 | exactly `count` strictly increasing indices from 0 to n - 1 |
| Chart.TickIsNearest | ui/src/DashChartMath.ts:78-86 | every mark is the whole number nearest to its place on the even scale, halves going up |
| Chart.EvenGaps | ui/src/DashChartMath.ts:78-86 | neighbouring indices are as far apart as the points divide over the gaps, rounded down or up |

## Left out

- PostgreSQL itself, sqlx binding, migrations, aggregates: tables are sequences and maps of rows, and a query is its joins and its list of conditions, not its text. `ORDER BY`, `sort_by` and `min_by_key` are their specifications or an insertion sort.
- HTTP, SSE, UDP, DNS, MaxMind and the other services: their answers are arbitrary inputs. The query parameters arrive typed; `q` arrives as its parsed terms, the start of a named range as a parameter.
- Time: every decision reads one clock value, given as a parameter, where the source may read the clock several times in a row. Races between requests, between the worker and the writer, and between two page loads in flight are not modelled.
- Case folding is ASCII. White space is one class for both languages; Rust and JavaScript differ at U+0085 and U+FEFF.
- Strings are sequences of characters; the byte loops of the scanner only meet ASCII characters at its decisions.
- Address text: `IpAddr` and `IpNetwork` parsing are two unknown partial functions, addresses bit strings, and containment a prefix test.
- LIKE metacharacters typed by the user keep their SQL meaning in `FilterMeaning`, read out piece by piece in `FilterMeaning.ReadsByPieces`; the statements that compare with the live evaluator exclude them.
- Agreement.PassIsKept: takes the stored row and the fresh one to describe one event, names equal up to case, countries stored in upper case, and leaves the time bounds to the caller, because the stream has none.
- Agreement.LiveAgreesWithStored: speaks about terms both sides read alike and lists a live pass can be trusted on; their exact conditions are `Agreement.TermsReadAlike` and `Agreement.ListsReadAlike`.
- Agreement.ListsReadAlike: an event may be of any kind with any action and direction, though the parser gives some kinds neither.
- Agreement.TermsReadAlike: an event gives the stored row all the live one has, with the same names up to case; stored names and columns the live row lacks are arbitrary. Texts have any length, while the database keeps only 10 characters of a protocol's name and 20 of an interface's, so for longer patterns the events of `Agreement.UnsafeLiveHit` cannot be stored there.
- JoinPruning.QueryReturnsMeetingRows: a wildcard text that ends in a single backslash is left out, since PostgreSQL refuses such a pattern only if a comparison gets that far; so is it in `JoinPruning.PruningPreservesMeaning`.
- Printers.PanelRoundTrip: of drafts with a quotation mark, or under an open quote, it says that they do not come back, not what comes instead.
- Worker: a cache that cannot be read or written is not modelled; a pass always sees what the last one stored. All of one pass happens at one moment. Announcements of facts and status reporting are not modelled.
- Worker.EnrichmentWorker.Work: the reported quota and the answers of the sources are arbitrary in every round; rounds whose report comes from the source's own counters are in `Rounds`.
- Reopening: moves rows and counters by their own steps, in any order the queue allows; which address a lookup is for does not matter there.
- Sankey.BuildSankey: begins with the fetched rows; the limit is any number, the endpoint clamps it to 1 to 50.
- Cef: of the event only the header and the extension; what becomes of each field is a table of single cases.
- Paging: which moments the calendar knows is an unknown predicate, since the time library is not part of this model. Of a row only its key counts, the rest is arbitrary.
- Paging.LogsView: rows arriving live on the first page are not shown, loads answer in the order they were asked.
- Columns: measuring is an input. Every column on screen has been measured once.
- Chart: exact reals and integers; the last digits of floating point, and the rounding of ticks to ten decimals, are not modelled, nor are infinite and undefined maxima.
- Devices, networks, rules, CSV export, settings, the syslog header and the DNS, DHCP and WiFi line parsers: single cases beside the cores above.
