# Verified models of the payment backend

This project models the database-backed protocols and the small exact algorithms of the backend,
and proves what they promise. Tables are fields of classes or parts of a state; each awaited SQL,
Redis, Horizon or Soroban call is one atomic step; requests and workers interleave freely between
steps and may crash at any of them.

| Files | Subject |
|---|---|
| `RefreshRotation`, `RefreshInvariant`, `RefreshTheorems`, `RefreshAnswers`, `RefreshService` | Refresh tokens: rotation, the 20 s grace period, reuse revocation, logout, password reset |
| `AccountLockout` | The failure counter and the account lock |
| `DailyLimit`, `PaymentService` | The daily send limit under concurrent sends and batches |
| `PaymentHistory`, `HistoryCursor`, `HistoryWalk`, `WorkerPool` | Keyset pagination, the text form of its cursor, the client's walk, the bounded worker pool |
| `LoyaltyQueue`, `LoyaltyService` | The loyalty mint queue |
| `OfferSync` | Trade events and their cursor |
| `CsvText`, `CsvTable`, `ContactImport` | The CSV reader and the contact import |
| `AgentEscrow`, `AgentEscrowService`, `Stroops` | Escrow rows against the escrow contract, partial releases, amounts |
| `Fees` | Fee breakdown, batches, deposits |
| `FeeActivation` | Scheduled fee configurations |
| `Indexer` | The contract event indexer |
| `StepUp`, `SorobanPoll` | Single-use step-up tokens, the confirmation poller |
| `Wrappers` | `Option`, `Min` and `Max`, and names that are not in use yet |

Protocols come in two layers. A machine of actions on a value (`Enabled`, `Apply`, `Runs`, `Final`)
carries the invariants and the theorems over every run. Beside it a class has the tables as fields
and the handlers as methods, step by step in the order of the code; its ghost `log` is the run so
far, `Valid()` says that the fields are what that run leads to, and every statement books one action.
`Await` stands for an await: its contract says only that other requests may have acted and that the
caller still stands where it stood. So every theorem about runs holds of the handlers, at any time.

Amounts are whole stroops (1e-7 units) in `Fees`, `Stroops` and `AgentEscrow`, and exact reals where
the code multiplies with rates. Times are milliseconds.

Where a promise is false of the code, the code is kept, and a lemma says exactly when it holds:

- The daily limit holds in every run exactly if XLM_USD_RATE is at most 1 and no insert of a batch
  throws while another one is under way (`DailyLimit.LimitHoldsExactly`): a day without rows takes a
  path that compares the amount itself, not its worth, and what is under way is then not waited for.
- The recipients of a submitted batch end with exactly one right row each if and only if no insert
  throws (`PaymentService.OneRightRowIffNoInsertThrows`): the inserts share the try of the submission.
- Reading a CSV file, its fields quoted or not, gives its records back exactly if no record is blank and no field
  holds a quote or a comma, because the line splitter already drops the quotes that the field parser
  needs (`CsvTable.FileRoundTrip`); a comment beside the code promises RFC 4180 fields.
- A loyalty payment is minted at most once in every run exactly if neither the mint nor a write after
  it throws once the mint took effect (`LoyaltyQueue.MintsOnceIffNoFault`), and has at most one ledger
  row exactly if a written ledger insert never throws (`LoyaltyQueue.RecordsOnceIffWrittenEntriesAnswer`).
- A trade can still be stored exactly until the cursor and all workers are past it
  (`OfferSync.StorableIffNotPassed`); a trade whose insert threw ends there.
- The recovery branch of the indexer never changes where a run starts (`Indexer.RecoveryChangesNothing`),
  although its comments promise recovery; a failed event is asked for again exactly until its ledger is
  passed (`Indexer.RetriedIffNothingPassedIt`), and the last indexed ledger moves back exactly when a run
  that read a lower one stores nothing as high (`Indexer.WriteMovesBackIff`).
- Events whose inserts all go through end with a row each exactly if no batch ends inside a ledger, whose
  rest is lost, and, where the table has a unique key, no two events share it (`Indexer.EveryEventHasItsRowIff`).
  The migrations describe `contract_events` twice: only 1710000041000 has the columns that the insert
  names, and no unique key; 1710000052000 has a unique key on transaction and event name. Both are covered.
- After the contract has settled, a pending escrow row can follow exactly if a request still has its
  write to do (`AgentEscrow.SettlesIffSomeoneHeard`); a release is accepted exactly as long as the row is
  pending and not fully released, whatever the contract did (`AgentEscrow.ReleaseCanFollowIff`).
- A step-up token can pass a second time exactly if that request marks it at or after its expiry
  (`StepUp.SecondPassPossibleIff`).
- A repeated activation run changes nothing for sure exactly if every key with something due has one
  newest effective row (`FeeActivation.SecondRunChangesNothingIff`), and a run passes over no pair exactly
  if the key strings tell the due pairs apart (`FeeActivation.AllServedIff`).

The source carries some duplicated hunks. The refresh lookup is taken to return the columns it names,
`send` to send once and record one row, `history` to look its wallet up once, and the fee breakdown to
be the one of `services/fees.js`.

## Model

| member | source | states |
|---|---|---|
| RefreshTheorems.HandedTokensFormOneChain | backend/src/controllers/authController.js:886-963 | In every run of refreshes, logouts, resets and reuse revocations, with crashes anywhere, the tokens ever handed out in a family form one linear chain of successors, each token on exactly one chain, and at most one of them has an unrevoked row, although successors are inserted before the old token is claimed |
| RefreshTheorems.DeadFamilyStaysDead | backend/src/controllers/authController.js:852-963 | Once a family is dead, after any further actions no token of its chain is live, its chain has not grown, and every claim still pending in it will fail, whether its successor was inserted before or after the kill |
| RefreshTheorems.KillersKill | backend/src/controllers/authController.js:852-865 | Reuse revocation and logout kill the family of the request they serve, a password reset kills all families of the user |
| RefreshTheorems.SameTokenSameSuccessor | backend/src/controllers/authController.js:914-917 | Any two requests that presented one token and were answered with a token were answered with the same one, its successor on the chain |
| RefreshTheorems.GraceIsExact | backend/src/controllers/authController.js:914-917 | Deciding on a rotated token, at any time after the lookup, the request answers with the chain successor or turns to revoking the family; while the family lives it answers exactly within 20 s of the rotation that its copy of the row records |
| RefreshTheorems.LoserJoinsWinner | backend/src/controllers/authController.js:954-956 | The same for a request that lost the claim, with the row it looked up again; without one it revokes the family |
| RefreshTheorems.DeadFamilyAnswersNoOne | backend/src/controllers/authController.js:911-917 | A request that looks its token up after the family was killed is never answered with a token, not even within the grace period |
| RefreshTheorems.NewestTokenIsUsable | backend/src/controllers/authController.js:936-950 | As long as a family lives and its newest token has not expired, that token has an unrevoked row |
| RefreshTheorems.MissingMeansDeadOrExpired | backend/src/controllers/authController.js:931 | In every run a token on a chain that has no row belongs to a dead family or was removed as expired |
| RefreshTheorems.UndisturbedRefreshRotates | backend/src/controllers/authController.js:886-963 | Presenting the newest token without interference, with no live blacklist entry for it or no Redis to ask, ends with the request's own fresh successor as the new end of the chain |
| RefreshAnswers.BlacklistedIffLoggedOut | backend/src/controllers/authController.js:894-899 | In every run a request is answered as blacklisted exactly if at its check Redis answered and the last logout of that very token that left an entry left one that had not run out |
| RefreshAnswers.BlacklistIsLastMark | backend/src/controllers/authController.js:472-475 | In every run the blacklist holds of a token exactly what its last logout with a second left to live has set, for the whole seconds left |
| RefreshAnswers.UndisturbedRefreshAnswers | backend/src/controllers/authController.js:886-963 | A refresh that nothing disturbs, from any state and for any token: which of the seven answers it gives in which case, and the exact rows it leaves |
| RefreshAnswers.UndisturbedLogoutEnds | backend/src/controllers/authController.js:459-480 | A logout that nothing disturbs removes exactly the rows of the family and leaves exactly the entry for the whole seconds left |
| RefreshInvariant.ActionKeepsInv | backend/src/controllers/authController.js:886-963 | Every single step of every handler keeps the invariant: rows agree with the history, chains are linear, requests in flight hold copies that are at most out of date |
| RefreshService.TokenService.Refresh | backend/src/controllers/authController.js:886-963 | The handler is a run of the machine; a token in its answer follows the presented one on the chain, a reuse answer means the family is dead, and a family dead on arrival answers no one; it answers as blacklisted exactly if a logout of the token said so at the check, as suspended only for a suspended user, and as invalid for a token of a chain only if the family is dead or the token was removed as expired |
| RefreshService.TokenService.LookUp | backend/src/controllers/authController.js:901-912 | The lookup sees the row of the moment; in a family that was dead when the request arrived it sees none that offers a successor |
| RefreshService.TokenService.CheckRevocation | backend/src/controllers/authController.js:894-899 | The request is turned away exactly if Redis answers and holds an entry for the token that has not run out |
| RefreshService.TokenService.Judge | backend/src/controllers/authController.js:914-943 | The branches after the lookup: grace by the copy and the clock of the decision, reuse, suspended, expired, rotate |
| RefreshService.TokenService.InsertFresh | backend/src/controllers/authController.js:938-944 | The successor has an unrevoked row of the same family and user, with the full lifetime, before the claim |
| RefreshService.TokenService.TryClaim | backend/src/controllers/authController.js:945-950 | The claim succeeds exactly if the old row is there and unrevoked, then revokes it and stores the successor, and otherwise changes nothing |
| RefreshService.TokenService.DropSuccessor | backend/src/controllers/authController.js:953 | A loser removes its own successor |
| RefreshService.TokenService.JoinWinner | backend/src/controllers/authController.js:952-957 | It then answers with the token that follows the presented one on the chain, or the family is dead |
| RefreshService.TokenService.RevokeFamilyForReuse | backend/src/controllers/authController.js:852-865 | All rows of the family are revoked and stripped of their successors |
| RefreshService.TokenService.IssueRefreshResponse | backend/src/controllers/authController.js:867-876 | The answer carries the given token |
| RefreshService.TokenService.Logout | backend/src/controllers/authController.js:459-480 | After a logout a presented token that is on a chain belongs to a dead family, unless its row had been removed as expired |
| RefreshService.TokenService.DeleteFamilyRows | backend/src/controllers/authController.js:470 | After the delete no row of the family is left and the family is dead |
| RefreshService.TokenService.BlacklistToken | backend/src/controllers/authController.js:472-475 | The blacklist entry lasts for the whole seconds left of the token, if any |
| RefreshService.TokenService.ResetPassword | backend/src/controllers/authController.js:1028 | Exactly the user's rows go, and every family of the user is dead |
| AccountLockout.CounterIsLatestRun | backend/src/controllers/authController.js:51-80 | The stored counter is the length of the longest run of failures, with gaps of at most 15 minutes, that the history since the last reset ends in |
| AccountLockout.FiveAreABurst | backend/src/controllers/authController.js:61-67 | The counter reaches 5 exactly when the last five events are such a run |
| AccountLockout.LockedIffRecentBurst | backend/src/controllers/authController.js:258-275 | The account is locked at a time exactly when some such burst of five, not reset since, ended less than 15 minutes before it |
| AccountLockout.UserAuth.RecordFailedAuthAttempt | backend/src/controllers/authController.js:51-80 | The one UPDATE appends a failure to the history that counter, window and lock stand for, and returns both |
| AccountLockout.UserAuth.ResetCounters | backend/src/controllers/authController.js:409-413 | The reset appends a reset to that history |
| AccountLockout.UserAuth.IsLocked | backend/src/controllers/authController.js:259-266 | The stored lock answers whether the history locks the account now |
| AccountLockout.UserAuth.VerifyPIN | backend/src/controllers/authController.js:753-784 | A locked account is turned away without a trace, a wrong PIN books one failure and answers by the history, a right one books one reset, and nothing else is booked |
| AccountLockout.UserAuth.Login | backend/src/controllers/authController.js:246-413 | What is answered and booked in every case: a locked account is turned away without a trace; the request books a reset exactly if it found an expired lock, then one failure for a wrong password or backup code, or the final reset for a full success; nothing else |
| AccountLockout.FifthWrongPasswordLocks | backend/src/controllers/authController.js:258-330 | Undisturbed logins with wrong passwords and gaps of at most 15 minutes, from an account that is not locked: each is counted on top of what the first one still added to, and the account is locked from exactly the fifth on |
| AccountLockout.UserAuth.ExpireLock | backend/src/controllers/authController.js:267-275 | Without a stored lock nothing happens; with one, exactly one reset is booked |
| DailyLimit.LimitHoldsExactly | backend/src/controllers/paymentController.js:130-148 | In every run of sends and batches on one wallet the non-failed rows of every UTC day stay within the limit, exactly if one XLM is worth at most one dollar and no insert of a batch throws while another is under way |
| DailyLimit.AdmittedFits | backend/src/controllers/paymentController.js:146-147 | With a rate of at most 1 the check admits only what fits, in USD, into the day |
| DailyLimit.ExceedsIffRefuses | backend/src/controllers/paymentController.js:130-148 | With a row of today the check refuses exactly if the dollars of the day and the payment exceed the limit, and without one exactly if the amount itself does |
| DailyLimit.HighRateOvershoots | backend/src/controllers/paymentController.js:141-145 | A run that breaks the limit when the rate is above 1: with no row today the code compares the amount itself |
| DailyLimit.StrayOvershoots | backend/src/controllers/paymentController.js:758-799 | A run that breaks the limit when one insert of a batch throws while the other is under way: its row lands after the lock is given up |
| DailyLimit.TodayIsToday | backend/src/controllers/paymentController.js:132-137 | The rows since the start of the UTC day are those of the day, as no row lies in the future |
| DailyLimit.RunKeepsInv | backend/src/controllers/paymentController.js:495-563 | Every run keeps: the one section past its check still fits into the day, also when it straddles midnight |
| PaymentService.PaymentLedger.DailyLimitExceeded | backend/src/controllers/paymentController.js:130-148 | The query and its reduction refuse exactly what exceeds the limit: the dollars of the day with the payment if there is a row of today, else the amount itself |
| PaymentService.PaymentLedger.CheckPaymentPreflight | backend/src/controllers/paymentController.js:179-205 | The request is over the limit exactly if the check refuses its amount at that moment of the run, and then leaves the section; the velocity and fraud checks come after |
| PaymentService.PaymentLedger.InsertRow | backend/src/controllers/paymentController.js:546-560 | An insert that is written leaves one row with the gross amount, one that is not none, and one under way a row that may land later |
| PaymentService.PaymentLedger.InsertFailedRow | backend/src/controllers/paymentController.js:649-655 | A failed row of a catch branch |
| PaymentService.PaymentLedger.Send | backend/src/controllers/paymentController.js:491-668 | The payment is answered as over the limit exactly if it exceeded it when it was checked, and as busy only while the lock is held. The rows a payment leaves in every case: none when busy, over the limit or refused with 400 or 500; a failed one after any other error; its own one when it was submitted and the insert was written; with the catch branch working a submitted payment has exactly one |
| PaymentService.PaymentLedger.SendBatch | backend/src/controllers/paymentController.js:707-819 | The batch is answered as over the limit exactly if its total exceeded it when it was checked. The rows a batch leaves for every recipient, for every fate of every insert, those of the catch branch included |
| PaymentService.RowsOfRecipient | backend/src/controllers/paymentController.js:758-799 | Each recipient of a submitted batch has its row of the try, as its insert went, and after any throw a failed one as well |
| PaymentService.OneRightRowIffNoInsertThrows | backend/src/controllers/paymentController.js:758-799 | With the catch branch working every recipient of a submitted batch ends with exactly its one right row if and only if no insert threw |
| PaymentService.PaymentLedger.SumAmounts | backend/src/controllers/paymentController.js:707-709 | The total that the batch is checked with is the sum of its amounts |
| PaymentHistory.WalkIsFirstSnapshot | backend/src/controllers/paymentController.js:923-941 | Following next_cursor to the end, for any limit, filter and starting cursor, yields exactly the matching rows of the first table, in descending order, each once, if no matching row is added below the cursor; the walk ends |
| PaymentHistory.WalkMissesNothing | backend/src/controllers/paymentController.js:923-941 | Under arbitrary insertions a walk that ends repeats no row and misses no matching row of the first table |
| PaymentHistory.CursorsDecrease | backend/src/controllers/paymentController.js:901-904 | Cursors strictly decrease along a walk |
| PaymentHistory.NextPageSelects | backend/src/controllers/paymentController.js:901-940 | What the next page starts from is exactly what this page left over |
| PaymentHistory.SortedIsUnique | backend/src/controllers/paymentController.js:926 | There is one way to order the rows, so that pages do not depend on the database |
| PaymentHistory.BuildConditions | backend/src/controllers/paymentController.js:889-921 | The pushed conditions hold of a row exactly if it matches the query and lies below the cursor |
| PaymentHistory.History | backend/src/controllers/paymentController.js:831-941 | The handler returns the page that the walk is made of |
| PaymentHistory.ClampLimit | backend/src/controllers/paymentController.js:833 | The page size is the one asked for between 1 and 100, the nearer end outside, and 20 if none or zero is given |
| PaymentHistory.SentAndReceivedAreAll | backend/src/controllers/paymentController.js:889-897 | All payments of a wallet are exactly those it sent and those it received |
| PaymentHistory.FiltersNarrow | backend/src/controllers/paymentController.js:905-921 | Each filter narrows the selection on its own; both ends of the window belong to it |
| HistoryCursor.CursorRoundTrip | backend/src/controllers/paymentController.js:40-64 | A cursor that was handed out is read back as the position it was made from |
| HistoryCursor.AcceptsExactlyCanonicalCursors | backend/src/controllers/paymentController.js:40-59 | Exactly the canonical encodings of an object with a date and a UUID are accepted |
| HistoryCursor.Base64UrlRoundTrip | backend/src/controllers/paymentController.js:44-45 | Decoding base64url undoes encoding, for all bytes |
| HistoryCursor.GroupsKeepTheirBits | backend/src/controllers/paymentController.js:44 | Three bytes and their four letters are the same 24-bit number |
| HistoryCursor.AlphabetIsBase64Url | backend/src/controllers/paymentController.js:44 | The letters are the alphabet of section 5 of RFC 4648 |
| HistoryCursor.UuidIsGroups | backend/src/controllers/paymentController.js:53 | An id is accepted exactly if it is five groups of 8, 4, 4, 4 and 12 hexadecimal digits |
| HistoryCursor.ReencodingFindsCanonical | backend/src/controllers/paymentController.js:45 | The test by encoding again accepts exactly what the encoder writes |
| HistoryWalk.ClientCollectsFirstSnapshot | backend/src/controllers/paymentController.js:831-941 | A client that sends back every next_cursor as it got it collects exactly the matching rows of the first table, in order and each once, if no matching row is added below its position |
| HistoryWalk.CollectIsWalk | backend/src/controllers/paymentController.js:901-940 | Walking with cursor texts is walking with positions |
| HistoryWalk.History | backend/src/controllers/paymentController.js:833-941 | The handler refuses a cursor it cannot read and else answers the page from its position, with the next cursor as text |
| WorkerPool.MapWithConcurrency | backend/src/controllers/paymentController.js:207-217 | For every schedule each index is handed out in order and once, at most `concurrency` calls are in flight, the pool ends, and all indices are handed out as long as fewer calls throw than workers may run |
| LoyaltyQueue.MintsAreBounded | backend/src/jobs/loyaltyMintJob.js:37-195 | In every run a payment has at most three mint attempts, at most one on-chain mint more than its mints were lost, and pending rows hold retry_count 0, 2 or 4, twice its attempts; a row fails only after exactly three attempts |
| LoyaltyQueue.OnlyCompletedArePaid | backend/src/jobs/loyaltyMintJob.js:43-55 | In every run each execution, each mint on the chain and each ledger row belongs to a payment that its execution claimed as a pending row with a completed transaction |
| LoyaltyQueue.MintedAtMostOnce | backend/src/jobs/loyaltyMintJob.js:115-195 | Two on-chain mints of one payment mean that one of its mints was lost: no lost mint, no second mint |
| LoyaltyQueue.LedgerMatchesChain | backend/src/jobs/loyaltyMintJob.js:133-146 | Every ledger row records a mint that its own execution made; without a loss a payment has at most one |
| LoyaltyQueue.OneExecutionPerJob | backend/src/jobs/loyaltyMintJob.js:37-77 | At most one unfinished execution works on a payment, however many workers claim |
| LoyaltyQueue.MintsOnceIffNoFault | backend/src/jobs/loyaltyMintJob.js:115-195 | For every set of faults the environment may show (a mint, or either write after it, throws with or without effect): every payment is minted at most once in every run exactly if the set is empty |
| LoyaltyQueue.EveryFaultMintsTwice | backend/src/jobs/loyaltyMintJob.js:115-195 | Each of the five faults alone lets a payment be minted twice |
| LoyaltyQueue.RecordsOnceIffWrittenEntriesAnswer | backend/src/jobs/loyaltyMintJob.js:133-175 | Every payment has at most one ledger row in every run exactly if a ledger insert that was written never throws |
| LoyaltyQueue.ActionKeepsInv | backend/src/jobs/loyaltyMintJob.js:37-195 | Every step of every execution keeps the bookkeeping of attempts, losses and mints |
| LoyaltyService.LoyaltyMintJob.ClaimNextJob | backend/src/jobs/loyaltyMintJob.js:37-77 | The oldest pending row of a completed transaction that no other session has locked is claimed; none is claimed exactly if every such row is locked elsewhere |
| LoyaltyService.LoyaltyMintJob.DeferOrFail | backend/src/jobs/loyaltyMintJob.js:165-195 | The catch branch requeues below retry_count 3 and fails from there on, by the count that the claim read |
| LoyaltyService.LoyaltyMintJob.MintAndRecord | backend/src/jobs/loyaltyMintJob.js:117-195 | When everything answers the execution ends with a ledger row for a mint of its own; when anything throws the payment is pending again, or failed from retry_count 3 on |
| LoyaltyService.LoyaltyMintJob.CompareThreshold | backend/src/jobs/loyaltyMintJob.js:95-99 | Payments worth less than one XLM are the ones skipped |
| LoyaltyService.LoyaltyMintJob.EnqueueLoyaltyMint | backend/src/jobs/loyaltyMintJob.js:220-231 | Enqueuing a payment again changes nothing |
| LoyaltyService.LoyaltyMintJob.ProcessSlot | backend/src/jobs/loyaltyMintJob.js:89-199 | A slot finishes the job it claims: one worth less than one XLM is completed without a mint, any other minted and recorded or put back, as the environment answers; it leaves everything alone exactly if every row it could claim is locked elsewhere |
| LoyaltyService.LoyaltyMintJob.ProcessLoyaltyMintQueue | backend/src/jobs/loyaltyMintJob.js:79-212 | After any number of slots the bounds on attempts and mints hold |
| OfferSync.StoredIsPrefix | backend/src/jobs/syncOfferEvents.js:46-107 | If no insert threw, the stored events of a wallet are a duplicate-free prefix of its trade stream and the cursor lies within it, for any number of overlapping workers and crashes |
| OfferSync.CursorNeverSkipsUnseen | backend/src/jobs/syncOfferEvents.js:46-107 | In every run each trade below the cursor is stored or its insert threw, and no trade is stored twice |
| OfferSync.StorableIffNotPassed | backend/src/jobs/syncOfferEvents.js:46-107 | A published trade can still be stored, in some continuation, exactly as long as it is not missing below the cursor and below every position a worker will insert or save |
| OfferSync.PassedTradeStaysMissing | backend/src/jobs/syncOfferEvents.js:69-96 | Such a trade stays missing for good |
| OfferSync.PassedMeansFailed | backend/src/jobs/syncOfferEvents.js:91-95 | In every run such a trade is one whose insert threw |
| OfferSync.OneErrorLosesATrade | backend/src/jobs/syncOfferEvents.js:91-95 | The condition is needed: one insert error loses the first trade for good |
| OfferSync.OfferEvents.SyncWallet | backend/src/jobs/syncOfferEvents.js:46-107 | The job is a run of the machine: as many trades after the cursor as the source sends, at most fifty, each stored unless its insert threw, and the cursor on the last of them |
| OfferSync.OfferEvents.GetTradeHistory | backend/src/jobs/syncOfferEvents.js:54 | The consecutive trades after the cursor, as many as the source sends of those it has published, at most fifty |
| OfferSync.OfferEvents.InsertAndSave | backend/src/jobs/syncOfferEvents.js:57-106 | Every fetched trade whose insert did not throw is stored, and the cursor is the last fetched one, errors or not |
| CsvText.SplitCsvLines | backend/src/controllers/contactsController.js:124-148 | The splitter's loop computes the lines that the recursive reading defines, which SplitTable and LinesLieBetweenBreaks give meaning to |
| CsvText.ParseCsvFields | backend/src/controllers/contactsController.js:184-202 | The parser's loop computes the fields that the recursive reading defines |
| CsvText.ParseUndoesPrint | backend/src/controllers/contactsController.js:184-202 | The parser undoes RFC 4180 quoting for every list of fields, up to trimming, fields without quote and comma being quoted or not |
| CsvTable.SplitTable | backend/src/controllers/contactsController.js:124-148 | The lines of a table, fields quoted or, where they hold no quote, comma or line break, left as they are, are its records without their quotes, up to blank lines, with line breaks inside fields kept and LF, CRLF or CR between |
| CsvTable.LinesLieBetweenBreaks | backend/src/controllers/contactsController.js:124-148 | For any text without a quote the lines are what lies between the terminators; a last line without one counts unless it is empty and no line feed ends the text |
| CsvTable.BareParsesBack | backend/src/controllers/contactsController.js:124-202 | A record so split parses back to its trimmed fields exactly if no field holds a quote or a comma |
| CsvTable.LinesRoundTrip | backend/src/controllers/contactsController.js:171 | Splitting, dropping blank lines and parsing give every record back exactly if every record is non-blank and none of its fields holds a quote or a comma |
| CsvTable.FileRoundTrip | backend/src/controllers/contactsController.js:124-202 | The same for a whole printed file below its header, each field quoted or, where it may be, left as it is |
| ContactImport.RowsAreAccountedFor | backend/src/controllers/contactsController.js:204-255 | Every data line is counted once, as an error or as a valid row |
| ContactImport.ColumnsFound | backend/src/controllers/contactsController.js:156-167 | Which column is which: the first of its name in the lower-case header without its BOM; the import is refused exactly if name or address is missing |
| ContactImport.ImportReadsRecords | backend/src/controllers/contactsController.js:124-234 | A file of records that can be given back is judged record by record: accepted with its trimmed cells, or refused for the first rule it breaks, a name of 1 to 100 characters and a valid address |
| ContactImport.NewRowsAreUnknown | backend/src/controllers/contactsController.js:248-255 | The rows to insert are exactly the valid rows with an unknown address |
| ContactImport.InsertAllAddsExactly | backend/src/controllers/contactsController.js:263-270 | Inserting them adds exactly them and overwrites nothing |
| ContactImport.ContactBook.InsertRows | backend/src/controllers/contactsController.js:257-278 | The transaction commits exactly if the addresses are pairwise distinct and no statement throws, and otherwise changes nothing |
| ContactImport.ContactBook.ImportContacts | backend/src/controllers/contactsController.js:110-285 | Every rejection in its place, and otherwise all or nothing, exactly as the statements go, with every line counted once |
| ContactImport.ContactBook.SkipDuplicates | backend/src/controllers/contactsController.js:236-255 | Known addresses are skipped and counted |
| ContactImport.ContactBook.ValidateRows | backend/src/controllers/contactsController.js:204-234 | Every row is checked before any insert, by the first rule it breaks |
| AgentEscrow.DatabaseAgreesWithChain | backend/src/controllers/agentEscrowController.js:269-283 | In every interleaving a terminal database status agrees with the contract, and a refund never precedes the expiry |
| AgentEscrow.TerminalIsFrozen | backend/src/controllers/agentEscrowController.js:280-283 | A terminal status never flips, and with it the released amount is frozen |
| AgentEscrow.ReleasedIsSumOfAccepted | backend/src/controllers/agentEscrowController.js:434-475 | The released amount is the sum of the accepted releases and never exceeds the amount |
| AgentEscrow.SettlesIffSomeoneHeard | backend/src/controllers/agentEscrowController.js:276-283 | After the contract has settled, a pending row can still follow exactly if some request has its write yet to do: a lost write is never repaired |
| AgentEscrow.ReleaseCanFollowIff | backend/src/controllers/agentEscrowController.js:445-475 | A further release can still be accepted exactly as long as the row is pending and not fully released, whatever the contract has done and whoever has heard of it |
| AgentEscrow.CancelledYetReleased | backend/src/controllers/agentEscrowController.js:367-370 | Without anything lost an escrow can end cancelled and refunded with its whole amount released |
| AgentEscrow.RunKeepsInv | backend/src/controllers/agentEscrowController.js:230-490 | Every run keeps the agreement of row, contract, row lock and requests in flight |
| AgentEscrowService.EscrowStore.Confirm | backend/src/controllers/agentEscrowController.js:230-307 | Success means paid out and completed; every refusal in its case; a failed call that was answered means the contract had settled already |
| AgentEscrowService.EscrowStore.Cancel | backend/src/controllers/agentEscrowController.js:314-412 | The same for a refund, never before the expiry |
| AgentEscrowService.EscrowStore.PartialRelease | backend/src/controllers/agentEscrowController.js:422-490 | A release is recorded exactly if it is positive, fits the rest of a pending escrow and comes from the sender; the answer adds up |
| Stroops.AcceptsExactlyPositiveDecimals | backend/src/controllers/agentEscrowController.js:38-48 | Accepted are exactly the positive decimals of at most seven places, with the number of stroops they denote |
| Stroops.StroopsAreExact | backend/src/controllers/agentEscrowController.js:43-45 | That number is the exact value times ten to the seventh |
| Stroops.ZerosChangeNothing | backend/src/controllers/agentEscrowController.js:41-45 | Leading zeros, and trailing zeros within seven places, change nothing, with or without a point |
| Stroops.SpacesChangeNothing | backend/src/controllers/agentEscrowController.js:40 | Spaces around change nothing |
| Stroops.ReadsBackWhatWasPrinted | backend/src/controllers/agentEscrowController.js:38-48 | Every positive number of stroops is read back from its decimal with seven places |
| Fees.BreakdownBalances | backend/src/services/fees.js:25-50 | Also once the network fee is added, fee and net add up to the gross amount, neither is negative, and the fee does not exceed the maximum |
| Fees.FeeIsClampedRate | backend/src/services/fees.js:25 | The fee is the rounded rate moved to the minimum, the maximum and the amount, in the order of the code |
| Fees.FeeOfLookup | backend/src/services/fees.js:9-34 | The configuration that counts is the one found, with its rate, minimum and maximum, and otherwise 2.5 percent without either |
| Fees.FeeAndNetGrow | backend/src/services/fees.js:25-26 | Sending more never costs a smaller fee and never delivers less, for every configuration, also with rates above 100 % |
| Fees.ToFixedIsNearest | backend/src/services/fees.js:25 | Rounding is to the nearest stroop, halves up |
| Fees.SplittingIsNearlyNeutral | backend/src/services/fees.js:25 | Without minimum and maximum, n parts of an amount cost at most (n + 1) / 2 stroops more or less than the whole |
| Fees.SplittingCanDoubleTheFee | backend/src/services/fees.js:25 | The growth with n is real: at 0.5 %, n payments of 100 stroops cost twice what one costs |
| Fees.FeeDistributor.CollectPlatformFee | backend/src/services/fees.js:52-64 | A positive fee of a named asset is deposited if the contract answers, and nothing otherwise |
| Fees.FeeDistributor.SettleBatch | backend/src/controllers/paymentController.js:730-777 | The nets of a batch and its fee total add up to its gross total, and the fee total is what is deposited |
| FeeActivation.FeeConfigTable.ActivateScheduledFeeConfigs | backend/src/jobs/activateScheduledFeeConfigs.js:4-81 | For each key the first pair with a due row ends with its newest effective row active and no other, all else untouched; with keys that tell the pairs apart that is every pair with a due row; an error before the commit leaves the table as it was, one after it keeps the flips |
| FeeActivation.FeeConfigTable.FlipInTransaction | backend/src/jobs/activateScheduledFeeConfigs.js:41-58 | The flips are made together or not at all |
| FeeActivation.LookupIsTemporal | backend/src/jobs/activateScheduledFeeConfigs.js:22-28 | After a run the active row is the newest effective one for every key, also for keys that nothing was due for |
| FeeActivation.ActivatesMeans | backend/src/jobs/activateScheduledFeeConfigs.js:4-81 | What a run does in terms of the rows alone: of each type and asset with an inactive row in effect the newest row in effect ends active and no other; all else is untouched |
| FeeActivation.SecondRunChangesNothingIff | backend/src/jobs/activateScheduledFeeConfigs.js:4-81 | A second run at the same clock is sure to change nothing exactly if every key with something due has one newest effective row |
| FeeActivation.TiesMayAlternate | backend/src/jobs/activateScheduledFeeConfigs.js:25-26 | Without distinct dates two rows can take turns, run after run |
| FeeActivation.CommitKeepsUnique | database/migrations/1710000072000_fee_configs.js:46-51 | A run keeps the unique key on type, asset and flag, which is checked at the end of the transaction |
| FeeActivation.PlanServes | backend/src/jobs/activateScheduledFeeConfigs.js:17-56 | Flipping what the first loop collected serves the first pair of every key and no other |
| FeeActivation.AllServedIff | backend/src/jobs/activateScheduledFeeConfigs.js:18-20 | A run passes over no pair with something due exactly if their key strings tell them apart |
| FeeActivation.ServesActivates | backend/src/jobs/activateScheduledFeeConfigs.js:4-81 | Then every key with something due is settled |
| FeeActivation.FlipAllMeans | backend/src/jobs/activateScheduledFeeConfigs.js:45-56 | The flips of different keys do not disturb one another |
| FeeActivation.KeyIsInjective | backend/src/jobs/activateScheduledFeeConfigs.js:18-20 | Two pairs share a key string only if they are equal or a fee type holds a bar |
| FeeActivation.KeysAgreeIff | backend/src/jobs/activateScheduledFeeConfigs.js:18 | Two pairs have one key string exactly if they are equal or the longer type is the shorter one, a bar and more, that more being how the other asset begins |
| FeeActivation.NoBarsTellApart | backend/src/routes/admin.js:468-470 | Fee types without a bar, as the admin routes admit, are enough for keys to tell pairs apart |
| FeeActivation.FeeConfigTable.Plan | backend/src/jobs/activateScheduledFeeConfigs.js:14-37 | The newest effective row of each key with a due row, each key once |
| FeeActivation.FeeConfigTable.SelectLatest | backend/src/jobs/activateScheduledFeeConfigs.js:22-28 | Some newest effective row of the key, if there is one |
| Indexer.RunsTrackTheHighest | backend/src/jobs/contractEventIndexer.js:162-260 | After any sequence of runs the last indexed ledger is the highest ever stored, the gaps are bounded and right above it, and the next run starts right above it |
| Indexer.RunAdvances | backend/src/jobs/contractEventIndexer.js:196-250 | A run never moves back, and leaves gaps that are distinct, strictly above the last indexed ledger and without a hole |
| Indexer.RecoveryChangesNothing | backend/src/jobs/contractEventIndexer.js:167-178 | Starting at the lowest gap is starting at the next ledger: remembered gaps are never fetched again |
| Indexer.RetriedIffNothingPassedIt | backend/src/jobs/contractEventIndexer.js:233-247 | After a run a ledger is still asked for exactly if it lies above the last one before and every event stored lies below it |
| Indexer.FailedEventIsNotRetried | backend/src/jobs/contractEventIndexer.js:239-246 | A failed event is lost once an event of its ledger or a later one is stored, whatever runs follow |
| Indexer.LastNeverDecreases | backend/src/jobs/contractEventIndexer.js:233-250 | The last indexed ledger never decreases over runs that do not overlap |
| Indexer.StartIsAlwaysTheNextLedger | backend/src/jobs/contractEventIndexer.js:167-178 | However runs overlap, a run starts right above the last indexed ledger of the row it read |
| Indexer.WriteMovesBackIff | backend/src/jobs/contractEventIndexer.js:233-250 | A run moves the last indexed ledger back exactly if it got events, had read a lower ledger and stored nothing as high as the current one |
| Indexer.InTurnNeverMovesBack | backend/src/jobs/contractEventIndexer.js:233-250 | It never decreases as long as every run that writes still holds the current row |
| Indexer.OverlapMovesBack | backend/src/jobs/contractEventIndexer.js:249-250 | Two overlapping runs that do move it back |
| Indexer.EveryEventHasItsRowIff | backend/src/jobs/contractEventIndexer.js:162-250 | From any table, enough runs over a source in ledger order whose inserts go through leave every event a row of its own exactly if no batch of a hundred ends inside a ledger and, where keys are unique, no key comes twice or was there before |
| Indexer.EveryEventIsStoredIffCutFree | backend/src/jobs/contractEventIndexer.js:95-136 | Where no key comes twice, every event is found in the table exactly if no batch ends inside a ledger |
| Indexer.SharedKeySharesOneRow | backend/src/jobs/contractEventIndexer.js:217-233 | Where keys are unique, all events of one transaction and type share one row, after any number of runs over any source, whatever throws |
| Indexer.IndexedIsRowsWrittenIff | backend/src/jobs/contractEventIndexer.js:217-236 | The count that a run reports is the number of rows it wrote exactly if no key comes twice or keys need not be unique; otherwise it is too high |
| Indexer.ContractEventIndexer.IndexContractEvents | backend/src/jobs/contractEventIndexer.js:162-260 | The job asks for the batch right above the last indexed ledger, stores exactly the events whose insert went through, and writes the row that they amount to, or leaves it when the update throws |
| Indexer.ContractEventIndexer.IndexEvent | backend/src/jobs/contractEventIndexer.js:197-246 | One event: its gaps are noted before the insert, and the ledger moves on only after it |
| Indexer.ContractEventIndexer.NoteGaps | backend/src/jobs/contractEventIndexer.js:204-211 | The ledgers in between are listed once each, in order |
| Indexer.ContractEventIndexer.FetchContractEvents | backend/src/jobs/contractEventIndexer.js:95-136 | The first hundred events from a ledger on, or none on an error |
| Indexer.ContractEventIndexer.GetIndexerState | backend/src/jobs/contractEventIndexer.js:60-72 | The stored row, or a fresh one that is then stored |
| StepUp.SecondPassIsLate | backend/src/middleware/requireStepUp.js:18-36 | In every run, if a token lets two requests through, the second marked it after its expiry, although it had verified before |
| StepUp.SecondPassPossibleIff | backend/src/middleware/requireStepUp.js:18-36 | A token can let a second request through whose marker is set at a given time, exactly if the token has expired by then |
| StepUp.TokensMarkedInTimePassOnce | backend/src/middleware/requireStepUp.js:18-36 | If every pass is marked before its token expires, every token passes at most once |
| StepUp.SameSecondIsInTime | backend/src/middleware/requireStepUp.js:32-33 | Verifying and marking in one second is in time |
| StepUp.PassesIffMarkersRanOut | backend/src/middleware/requireStepUp.js:32-34 | At the mark a request passes exactly if the markers of all earlier passes have run out |
| StepUp.MarkedLatePassesAgain | backend/src/middleware/requireStepUp.js:32-34 | A run in which a token passes twice, for every expiry and every mark at or after it |
| StepUp.LifetimesKept | backend/src/middleware/requireStepUp.js:32 | A marker, whenever it is set, lasts until the token expires |
| StepUp.StepUpGate.RequireStepUp | backend/src/middleware/requireStepUp.js:18-40 | A request that passes has a step-up token of its user and marked it last; a refused good token has a live marker |
| StepUp.StepUpGate.SetIfAbsent | backend/src/utils/cache.js:84-94 | The marker is set exactly if no live one is there |
| StepUp.StepUpGate.IssueStepUpToken | backend/src/middleware/requireStepUp.js:8-16 | A new token of the user that expires after 120 seconds |
| SorobanPoll.WaitForSorobanTx | backend/src/config/soroban.js:41-60 | The first final answer is returned unless the deadline passes before; there are at most as many polls as fit in the time, never more than the timeout in seconds rounded up, and the sleep asked for never exceeds the timeout |
| SorobanPoll.OnePollASecond | backend/src/config/soroban.js:48-58 | The polls that fit in a time are at most its seconds, rounded up |
| SorobanPoll.LessTimeFewerPolls | backend/src/config/soroban.js:52-56 | Less time allows no more polls, so that delays never add any |
| SorobanPoll.WaitsAre | backend/src/config/soroban.js:49-57 | The waits: 1, 1.5, 2.25 and 3.375 s, and 5 s from the fifth on |
| SorobanPoll.PollsInTime | backend/src/config/soroban.js:50-58 | Exactly four polls fit into the first 8.125 s, and then one every 5 s, the last one at the deadline |

## Left out

- Horizon, Soroban, Stellar SDK, Redis outages, e-mail, webhooks, push, audit log: arbitrary answers that come in as parameters, or no part of this model.
- An error of a reading statement ends a request where it stands, as a crash does, unless a parameter says more.
- Express, validators, uploads, sessions and access tokens: only the branches that decide what is stored are modelled; who the caller is comes in as a boolean.
- Cryptography: a refresh token, its hash, its encrypted form and its row id share one name; signatures verify exactly for issued tokens; random values are fresh.
- RefreshService.TokenService.Refresh: that the user is suspended and whether Redis is up are parameters; a crash is a request that takes no further action.
- RefreshService.TokenService.BlacklistToken: Redis is taken to be up at a logout; without it no entry is left, and only the deleted rows turn the token away.
- RefreshService.TokenService.ResetPassword: only the deletion of refresh tokens, not the password and reset-token writes of the same transaction.
- The family insert of `login` is one step together with handing the token out.
- AccountLockout.UserAuth.Login: the second factor is one parameter; a user that vanishes between two statements is not modelled.
- AccountLockout.LockedIffRecentBurst: the history is in the order of its times; two concurrent failures take NOW() before they wait for the row, so that the later one in the table may carry a slightly earlier time.
- DailyLimit.LimitHoldsExactly: counts the rows written by `send` and `sendBatch`; other writers of `transactions` (scheduled and path payments) are not part of this model, and the distributed lock is taken to be a mutex that outlives its section.
- PaymentService.PaymentLedger.CheckPaymentPreflight: what the velocity and fraud checks answer is a parameter, as are memo and balance checks; the database clock is taken to be UTC.
- PaymentService.PaymentLedger.SendBatch: the inserts of a batch are taken in the order of its recipients, except that one which throws while another is under way is taken to answer first; failed rows that land after the answer are taken to land before it; none of this changes which rows there are.
- PaymentHistory.WalkIsFirstSnapshot: rows do not change their status between pages; the parsing of query parameters is not modelled.
- HistoryCursor.CursorRoundTrip: JSON and Date.parse are libraries, assumed to read back what was written.
- HistoryWalk.ClientCollectsFirstSnapshot: PostgreSQL is assumed to read back the timestamps and ids that it wrote.
- WorkerPool.MapWithConcurrency: the results of the calls are not modelled; a call that throws ends its worker, as it does in the code.
- LoyaltyQueue.MintsAreBounded: the number of points of a mint, and notifications, are not modelled.
- OfferSync.StoredIsPrefix: one wallet at a time, as wallets share nothing; columns of an event other than its paging token are not modelled.
- CsvText.SplitCsvLines: text is a sequence of characters, already decoded; toLowerCase and the Stellar key check are parameters of the import.
- ContactImport.ContactBook.ImportContacts: contacts that another request inserts between the duplicate check and the insert are not modelled.
- AgentEscrowService.EscrowStore.Cancel: POST /api/payments/:id/cancel is a second handler (paymentController.js, `cancelPendingEscrow`) that reads the row, checks the expiry, calls the contract and writes the row in the same steps, and is taken as one more cancel request; it only differs in which wallet of the caller has to be the sender.
- AgentEscrow.DatabaseAgreesWithChain: assumes that the contract lets at most one of confirm and cancel succeed; creation and listing of escrows are not modelled.
- AgentEscrowService.EscrowStore.PartialRelease: a wait for the row lock that ends without it is an error, a wait that succeeds is a later start; amounts are whole stroops, not floats.
- Fees.BreakdownBalances: exact arithmetic in stroops, not binary floating point; the configured minimum and maximum are whole stroops, as their columns are.
- FeeActivation.FeeConfigTable.ActivateScheduledFeeConfigs: the clock is fixed during a run, and no one else writes the table between its queries; of the cache refresh and the audit log only that they may throw is modelled.
- Indexer.ContractEventIndexer.IndexContractEvents: event payloads are not modelled, nor are keys whose transaction hash is NULL, which are never equal; the service is taken to answer no event below the ledger asked for.
- StepUp.StepUpGate.SetIfAbsent: Redis expiry and the in-process map are one store.
- SorobanPoll.WaitForSorobanTx: a sleep is taken to last at least as long as asked for.
- Idempotency keys, scheduled payments, session listing, guarded single-row updates, the frontend and the Rust contracts are not part of this model.
