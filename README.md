# Auction furniture back end — a Dafny model

This project models the rules at the core of an Express/MongoDB auction
service. The main part is the auction lifecycle:

- creating an auction;
- admitting bids;
- the scheduled and unscheduled expiry sweeps and the administrative force-close paths;
- handing an unpaid win to the second-ranked bid;
- the winning-bid filter and the auction listing;
- the deduplicated "ending soon" and "you won" notifications.

Around it sit the smaller sequential rules:

- device-session bookkeeping at login and logout, and the account writes of
  registration, password change and e-mail verification;
- the input validators of the account handlers;
- the PromptPay QR payment records;
- the alternate bid route;
- the order total.

Collections are sequences indexed by record id, or a map where records can be
deleted. Money is a whole number. Time is an integer `now` in milliseconds that
every operation takes as a parameter. Each request handler is one atomic step.
Handlers that change records in place are methods of a class. Their
postconditions state the new collections in terms of pure functions, and the
lemmas beside those functions prove what the service promises.

Files:

- `common.dfy`: `Option`, `Result`, JavaScript truthiness of a string field and JavaScript string length in UTF-16 code units.
- `ranking.dfy`: a descending sort that stands for the database's sort, with ties broken by storage position.
- `auction_engine.dfy`: auction and bid records and the pure lifecycle rules.
- `auction_views.dfy`: the winning-bid filter and the listing.
- `auction_notices.dfy`: the notification collection and its deduplicated passes.
- `auction_store.dfy`: the `Store` class whose methods are the auction handlers.
- `account_checks.dfy`: password policy, e-mail shape, phone and code checks, and the e-mail verification match.
- `sessions.dfy`: accounts, device lists and the `UserDirectory` class.
- `payments.dfy`: QR records and the `QrLedger` class.
- `user_bids.dfy`: the `BidBoard` class for the alternate bid route.
- `orders.dfy`: order validation and the total.

## Model

| member | source | states |
|---|---|---|
| AuctionEngine.NewAuction | controllers/auctionController.js:14-52 | refuses, in order, a missing name, start price (0 counts as missing) or category, then a category outside the 14 keys, then a missing caller; a new auction has current price = start price, increment given or 10, expiry now + 5 min, active, no bids, no leader |
| AuctionEngine.BidRejection | controllers/auctionController.js:232-256 | a bid below current price + increment is refused before the token and e-mail checks; an absent amount passes the price rule and fails at save; admitted iff amount ≥ price + increment, token present and e-mail cookie present |
| AuctionEngine.AdmittedBidRaisesPrice | controllers/auctionController.js:258-261 | an admitted bid raises the price by at least the increment, makes the bidder the leader, appends exactly its id and leaves earlier ids, status, expiry and settlement fields as they were |
| AuctionEngine.AdmissionIgnoresLifecycle | controllers/auctionController.js:232-254 | admission does not depend on status, expiry, owner or current leader: ended, expired, self-owned and repeat-leader bids are admitted on the same terms |
| AuctionEngine.PriceNeverFalls | controllers/auctionController.js:235-263 | over any series of bid requests with a non-negative increment, the price never falls and the earlier bid ids are a prefix of the later ones |
| AuctionEngine.NegativeIncrementLowersPrice | controllers/auctionController.js:43-46 | creation accepts a negative increment, after which an admitted bid lowers the price (start 100, increment -20, bid 90) |
| AuctionEngine.WithBid | controllers/auctionController.js:258-263 | an admitted bid makes its amount the price and its bidder and e-mail the leader, appends its id to the bid list, and changes no other field |
| AuctionEngine.Swept | controllers/auctionController.js:286-300 | the scheduled sweep keeps every auction in its place and leaves none of them due for closing |
| AuctionEngine.ForceSwept | controllers/auctionController.js:371-383 | force-closing keeps every auction in its place and leaves all of them ended |
| AuctionEngine.CheckSwept | controllers/auctionController.js:138-156 | the unscheduled sweep keeps every auction in its place and leaves none of them due for closing |
| AuctionEngine.ExpirePayment | controllers/auctionController.js:441-488 | the payment timeout keeps id, status, price and bid list; a success needs an ended auction and leaves it with a leader and a leader e-mail |
| AuctionEngine.ReassignFrom | controllers/auctionController.js:447-488 | the reassignment always leaves a payment deadline and keeps id, status, price and bid list; it succeeds iff a second-ranked bid exists whose user has an address |
| AuctionEngine.SweepClosesExactlyTheDue | controllers/auctionController.js:286-300 | the scheduled sweep ends every active auction with expiry ≤ now at its current price with a deadline now + 5 min, leaves every other auction unchanged, and leaves nothing due |
| AuctionEngine.SweepIdempotent | controllers/auctionController.js:286-300 | a second scheduled sweep at the same instant changes nothing |
| AuctionEngine.ClosedOnce | controllers/auctionController.js:286-300 | a later sweep never reopens, re-prices or moves the deadline of an auction already closed |
| AuctionEngine.ForceSweepClosesAllActive | controllers/auctionController.js:371-383 | force-closing ends every active auction whatever its expiry, at its current price, sets no payment deadline and leaves ended auctions unchanged |
| AuctionEngine.RepairNeverFires | controllers/auctionController.js:138-150 | the unscheduled sweep's winner-e-mail repair reads the same user record twice, so it never changes the stored e-mail |
| AuctionEngine.CheckSweepIsSweepWithoutDeadline | controllers/auctionController.js:138-156 | the unscheduled sweep closes the same auctions as the scheduled one, with the same price, but sets no payment deadline |
| AuctionEngine.ForceEndOne | controllers/auctionController.js:408-420 | closing one auction is refused iff it has already ended; otherwise it is the force-close of that auction |
| AuctionEngine.EmailOf | controllers/auctionController.js:466-476 | a user's address is found iff the user exists with a non-empty address |
| AuctionEngine.BidsFor | controllers/auctionController.js:454 | the bids of one auction are exactly the stored bids whose auction is that id |
| AuctionEngine.RankedBids | controllers/auctionController.js:454 | the bids of one auction ranked by amount, highest first, as a permutation of them |
| AuctionEngine.ReassignFromSecond | controllers/auctionController.js:457-488 | given the ranking, a successful reassignment makes the second-ranked bidder the leader at that bid's amount with a deadline now + 5 min, keeping price, status and bid list |
| AuctionEngine.ReassignTakesSecondRanked | controllers/auctionController.js:454-488 | a successful timeout hands the win to the second-ranked bid of that auction: at most one of its bids outranks it, and the top bid bounds every bid on the auction |
| AuctionEngine.ExpirePaymentRefusals | controllers/auctionController.js:441-491 | refusals in order: not ended, fewer than two bids, second bid without user, user without e-mail; an ended auction always leaves with a deadline, a missing one repaired to exactly now on a refusal, and a refusal changes nothing else |
| AuctionEngine.NoCascade | controllers/auctionController.js:457-458 | forcing the timeout again with the same bids picks the same bidder at the same price; there is no cascade to the third bid |
| AuctionEngine.ThreeBidsRanked | controllers/auctionController.js:454 | bids of 50, 70, 90 rank as 90, 70, 50 |
| AuctionEngine.TopRankedBid | controllers/auctionController.js:454 | the first-ranked bid is a stored bid on that auction and no bid on the auction is higher |
| AuctionEngine.SecondWithEmailSucceeds | controllers/auctionController.js:457-488 | whenever the second-ranked bid has a user with an address, the timeout hands that user the win at that bid's amount |
| AuctionEngine.RepeatedTimeoutPicksSameBidder | controllers/auctionController.js:457-488 | with bids of 50 by A, 70 by B and 90 by C, two forced timeouts both hand the win to B at 70 |
| Ranking.Insert | controllers/auctionController.js:454 | inserting into a descending list keeps it descending and adds exactly that element |
| Ranking.SortDesc | controllers/auctionController.js:646 | the sort is descending by key and a permutation of its input |
| Ranking.InsertLowest | controllers/auctionController.js:454 | an element ranking below everything already ordered goes to the end |
| Ranking.RisingThreeReversed | controllers/auctionController.js:454 | three records with rising keys come out in reverse order |
| Ranking.TopTwo | controllers/auctionController.js:457-458 | in a descending ranking of two or more, the first is at least every element and the second is at least every element other than the first |
| AuctionViews.BidsBy | controllers/auctionController.js:609-615 | a user's bids are exactly the stored bids with that user |
| AuctionViews.KeepWins | controllers/auctionController.js:618-620 | keeps exactly the bids whose auction has ended at that bid's amount, preserving newest-first order |
| AuctionViews.WinningBids | controllers/auctionController.js:609-620 | a user's winning bids are exactly their bids on ended auctions whose current price equals the bid amount, newest first |
| AuctionViews.ReassignedWinIsNotListed | controllers/auctionController.js:618-620 | after a payment-timeout reassignment the new leader's lower bid is not listed as a win, while the top bid stays listed for its own bidder |
| AuctionViews.ViewOf | controllers/auctionController.js:648-676 | an active auction shows the highest stored bid on it as price and leader (or its own price with no bids); an ended one shows its winner and current price as winning bid |
| AuctionViews.Views | controllers/auctionController.js:648 | one view per auction, position by position |
| AuctionViews.ViewsMatch | controllers/auctionController.js:648 | every auction of the list has its row among the rows, and every row is the row of one of them |
| AuctionViews.AllAuctions | controllers/auctionController.js:643-676 | the listing has one row per auction, latest expiry first, and its rows are exactly the views of the stored auctions |
| AuctionNotices.Leader | controllers/auctionController.js:726-729 | the leader seen through the populated reference: present iff the leader's user record exists |
| AuctionNotices.WarningFor | controllers/auctionController.js:723-746 | an "ending soon" notice is due iff the auction is active with now ≤ expiry ≤ now + 5 min and its leader's user record exists; it is addressed to that leader |
| AuctionNotices.EndNoticeFor | controllers/auctionController.js:749-770 | a "you won" notice is due iff the auction has ended with expiry ≤ now and its leader's user record exists; it is addressed to that leader |
| AuctionNotices.Pass | controllers/auctionController.js:728-747 | one pass keeps the stored notices as a prefix and adds at most one per auction |
| AuctionNotices.Notify | controllers/auctionController.js:723-770 | the job keeps the stored notices as a prefix and adds at most two per auction |
| AuctionNotices.PassAppendsFreshNotices | controllers/auctionController.js:728-747 | a notification pass only appends, appends no duplicates and nothing already stored, and each appended notice is the rule's notice for some auction |
| AuctionNotices.WarningsAreDue | controllers/auctionController.js:723-746 | the warning pass only appends "ending soon" notices addressed to the leader of an active auction with now ≤ expiry ≤ now + 5 min |
| AuctionNotices.EndNoticesAreDue | controllers/auctionController.js:749-770 | the end pass only appends "you won" notices addressed to the leader of an ended auction with expiry ≤ now |
| AuctionNotices.PassCovers | controllers/auctionController.js:728-747 | after a pass, every notice the rule calls for is stored |
| AuctionNotices.PassSaturated | controllers/auctionController.js:731-737 | a pass over a collection already holding every called-for notice changes nothing |
| AuctionNotices.NotifyIdempotent | controllers/auctionController.js:723-770 | running the notification job again at the same instant creates nothing |
| AuctionNotices.NotifyWritesOnlyDueNotices | controllers/auctionController.js:723-770 | the job writes only "ending soon" notices for active auctions with now ≤ expiry ≤ now + 5 min and "you won" notices for ended auctions with expiry ≤ now, each to the leader, never an existing one, never twice |
| AuctionStore.Store.CreateAuction | controllers/auctionController.js:12-60 | stores the new auction under the next id, or refuses with the creation error and changes nothing |
| AuctionStore.Store.PlaceBid | controllers/auctionController.js:224-271 | unknown auction is not-found; a refusal changes nothing; an admitted bid updates the auction's price, leader, e-mail and bid list, appends the bid and appends one bid-receipt notification |
| AuctionStore.Store.EndAuctions | controllers/auctionController.js:282-314 | the auctions after the loop are the scheduled sweep of those before; bids and notifications are unchanged |
| AuctionStore.Store.CheckAndEndAuctions | controllers/auctionController.js:121-176 | the auctions after the loop are the unscheduled sweep of those before |
| AuctionStore.Store.ForceEndAuctions | controllers/auctionController.js:366-397 | the auctions after the loop are the force-close of every active auction |
| AuctionStore.Store.ForceEndAuctionById | controllers/auctionController.js:399-434 | 404 for an unknown id and 400 for an ended auction, both changing nothing; otherwise only that auction is force-closed |
| AuctionStore.Store.ForceExpirePayment | controllers/auctionController.js:436-499 | 404 for an unknown id; otherwise the auction becomes the timeout outcome, including the deadline repair saved before a later refusal |
| AuctionStore.Store.HandleAuctionNotifications | controllers/auctionController.js:715-778 | the notifications after both loops are the warning pass then the end pass over the stored auctions |
| Sessions.FindDevice | controllers/authControllers.js:249-251 | the first position whose fingerprint matches, or -1 iff none matches |
| Sessions.Touched | controllers/authControllers.js:249-270 | an unseen fingerprint appends one entry (length + 1); a known one changes only its first entry; the entry a later login finds carries the new login time |
| Sessions.WithoutDevice | controllers/authControllers.js:336-338 | keeps exactly the entries with another fingerprint; an absent fingerprint leaves the list unchanged |
| Sessions.WithoutDeviceAppend | controllers/authControllers.js:336-338 | removal distributes over concatenation, so the kept entries stay in order |
| Sessions.RepeatLoginKeepsLength | controllers/authControllers.js:249-270 | a second login from the same device adds no entry |
| Sessions.WithoutDeviceFirst | controllers/authControllers.js:336-338 | a logout keeps the first entry iff it has another fingerprint, followed by what it keeps of the rest |
| Sessions.WithoutDeviceReplace | controllers/authControllers.js:336-338 | overwriting an entry of a fingerprint with another entry of that fingerprint does not change what a logout from it keeps |
| Sessions.LogoutUndoesLogin | controllers/authControllers.js:249-270 | logging out from a device after logging in from it leaves what logging out alone leaves |
| Sessions.LogoutIdempotent | controllers/authControllers.js:336-344 | a second logout from the same device changes nothing |
| Sessions.FindAccount | controllers/accountsControllers.js:55-59 | the first account with that e-mail, or -1 iff none |
| Sessions.RegisterRejection | controllers/authControllers.js:34-96 | refuses, in order, empty body, missing name, e-mail, password, business-id header, then an existing account with the same e-mail and business id (409), then a requested user type other than "regular" or "Organization" (the failed save, 500); accepts iff none applies |
| Sessions.RegisteredCanVerify | controllers/authControllers.js:111-122 | the token and reference stored at registration make e-mail verification of the new account succeed exactly while the pair is under ten minutes old |
| Sessions.UserDirectory.Register | controllers/authControllers.js:33-156 | a refusal, including an unknown user type, changes nothing; success appends an unverified account of the requested type ("regular" when none is sent) without devices and stores the activation pair, issued now, for its e-mail |
| Sessions.UserDirectory.Login | controllers/authControllers.js:203-271 | headers, body and authentication refusals change nothing; 50 or more devices is refused even for a known device; otherwise only that account's device list is touched and stays within 50 |
| Sessions.UserDirectory.Logout | controllers/authControllers.js:305-344 | 401 without fingerprint, 400 without business id, 404 for an unknown user, all changing nothing; otherwise only that account's devices lose the fingerprint |
| Sessions.UserDirectory.ChangePassword | controllers/accountsControllers.js:15-66 | a failed check changes nothing; no account with that e-mail is a 404; otherwise only the first such account's password hash is replaced |
| Sessions.UserDirectory.VerifyEmail | controllers/accountsControllers.js:253-299 | a failed check (including an expired pair) changes nothing; on a match the first account with that e-mail is activated with both verified flags and the stored pair is discarded |
| AccountChecks.Scan | controllers/accountsControllers.js:32-33 | one pass records exactly whether each character class occurs and whether every character is allowed |
| AccountChecks.PasswordStrong | controllers/accountsControllers.js:32-34 | accepts iff at least 8 characters, at least one lower-case, upper-case, digit and one of @$!%*?&, and nothing else |
| AccountChecks.FirstIndex | controllers/accountsControllers.js:44 | the first position of a character, or -1 iff absent |
| AccountChecks.LastIndex | controllers/accountsControllers.js:44 | the last position of a character, or -1 iff absent |
| AccountChecks.EmailLooksValid | controllers/accountsControllers.js:44 | the earliest-@/latest-dot test accepts exactly the texts matching \S+@\S+\.\S+ in full |
| AccountChecks.ChangePasswordCheck | controllers/accountsControllers.js:18-49 | in order: password missing, shorter than 8 UTF-16 units, not strong; only then the target e-mail shape; accepts iff all pass |
| AccountChecks.PhoneCheck | controllers/accountsControllers.js:196-204 | the rule that alone guards a code request: a phone is accepted iff it has 1 to 12 UTF-16 units; missing or empty gives the missing-phone error, longer gives the too-long error |
| AccountChecks.VerifyPhoneCheck | controllers/accountsControllers.js:350-368 | in order: e-mail, phone, phone length ≤ 12, code present, code of exactly 6 UTF-16 units |
| AccountChecks.VerifyPhoneTempCheck | controllers/accountsControllers.js:448-470 | in order: e-mail, phone, phone length ≤ 12, then a registered e-mail |
| AccountChecks.PhoneRuleShared | controllers/accountsControllers.js:198-204 | the three phone handlers refuse exactly the same phones, with the same error |
| Common.Utf16Length | controllers/accountsControllers.js:25 | a string's `.length` lies between its character count and twice that, equal to the count when no character is beyond U+FFFF and to twice it when all are |
| Common.Utf16LengthAppend | controllers/accountsControllers.js:25 | the code-unit length adds up over concatenation |
| AccountChecks.AstralCodePasses | controllers/accountsControllers.js:366 | lengths are JavaScript code-unit counts: a code of three characters beyond U+FFFF has six units and passes |
| AccountChecks.AstralPhoneTooLong | controllers/accountsControllers.js:202 | a phone number of seven characters beyond U+FFFF has fourteen units and is refused as too long |
| AccountChecks.AstralPasswordIsWeak | controllers/accountsControllers.js:25-35 | a password of four characters beyond U+FFFF has eight units, passes the length test and is refused as weak |
| AccountChecks.VerifyEmailCheck | controllers/accountsControllers.js:258-286 | in order: e-mail, reference, token present; accepted iff the e-mail is registered and both token and reference equal the stored pair, issued less than ten minutes ago |
| Payments.AllDigits | controllers/paymentController.js:12 | true iff every character is a decimal digit |
| Payments.RecipientOk | controllers/paymentController.js:12 | accepted iff exactly 10 or exactly 13 decimal digits |
| Payments.AmountOk | controllers/paymentController.js:17 | accepted iff present and above zero |
| Payments.NewQr | controllers/paymentController.js:12-35 | recipient checked before amount; a new record is unpaid, has no slip and expires 3 minutes after now |
| Payments.Checked | controllers/paymentController.js:58-75 | strictly after expiry the record is saved unpaid and the check fails; otherwise it is reported unchanged, with the paid message iff paid |
| Payments.Uploaded | controllers/paymentController.js:99-100 | the slip is attached and the record marked paid; recipient, amount and expiry are kept |
| Payments.FreshRecordLifetime | controllers/paymentController.js:24-63 | a new record reports unpaid up to and including its expiry instant and is expired from the next millisecond |
| Payments.SlipReportedWhileLive | controllers/paymentController.js:69-75 | a slip uploaded in time is reported, paid, by a check within the window |
| Payments.ExpiryRevokesPayment | controllers/paymentController.js:63-65 | a check after expiry clears the paid flag even of a record with an accepted slip |
| Payments.StoredAsDeclared | controllers/paymentController.js:99-101 | the record as the declared schema keeps it has no slip |
| Payments.SlipLostAsDeclared | controllers/paymentController.js:99-101 | as written, a later status check reports the uploaded record paid but without its slip |
| Payments.QrLedger.Generate | controllers/paymentController.js:6-37 | a refusal changes nothing; success stores the new record under the next id |
| Payments.QrLedger.CheckStatus | controllers/paymentController.js:53-75 | 404 for an unknown id; otherwise the record becomes its checked form and the report is the check's |
| Payments.QrLedger.UploadSlip | controllers/paymentController.js:83-101 | no file is refused before the lookup, an unknown id is a 404, both changing nothing; otherwise the slip is attached and the record marked paid |
| UserBids.Refused | routes/v1/userbidRoutes.js:36-38 | a bid is refused iff both amounts are present and the new one is not strictly greater |
| UserBids.MissingAmountClearsFloor | routes/v1/userbidRoutes.js:36-38 | a bid without an amount, or against a record without a current bid, is never refused by the price check |
| UserBids.BidBoard.AddBid | routes/v1/userbidRoutes.js:24-49 | 404 and 400 change nothing; success stores the bid under a new id, appends the id to participants and makes the amount the current bid, keeping ids unique |
| UserBids.BidBoard.EditBid | routes/v1/userbidRoutes.js:56-69 | 404 for an unknown bid; otherwise only the amount changes, with no price check |
| UserBids.BidBoard.DeleteBid | routes/v1/userbidRoutes.js:76-85 | 404 for an unknown bid; otherwise the bid is removed and participant lists keep its id |
| Orders.FoldIsSum | schemas/v1/order.js:24 | the left-to-right running total started at zero is the item-by-item sum of quantity × price |
| Orders.SumAppend | schemas/v1/order.js:24 | the total of two item lists joined is the sum of their totals |
| Orders.SumNonNegative | schemas/v1/order.js:24 | non-negative quantities and prices give a non-negative total |
| Orders.OrderTotal | schemas/v1/order.js:24 | the hook's total is the sum, and 0 for no items |
| Orders.ParsePaymentStatus | schemas/v1/order.js:15 | only "Unpaid" and "Paid" are accepted |
| Orders.LineErrors | schemas/v1/order.js:9-11 | reports exactly the items missing a product, a quantity or a price |
| Orders.ItemErrors | schemas/v1/order.js:9-11 | one item's failures are exactly its missing product, quantity and price |
| Orders.NoLineErrors | schemas/v1/order.js:9-11 | no item fails iff every item has a product, a quantity and a price |
| Orders.FieldErrors | schemas/v1/order.js:6-15 | no error iff user, shipping address, a valid payment status and every item field are present |
| Orders.Build | schemas/v1/order.js:17-24 | the stored order keeps the items, takes the recomputed total and defaults the status to "Pending" |
| Orders.SaveAsWritten | schemas/v1/order.js:16-26 | as written, a draft without a total is refused, since validation runs before the hook; otherwise the total is recomputed |
| Orders.Save | schemas/v1/order.js:16-26 | refused iff a field check fails; never for a missing total; the stored total is the sum, 0 for no items |
| Orders.SuppliedTotalIsOverwritten | schemas/v1/order.js:23-25 | any total a caller supplies is replaced by the recomputed one |
| Orders.OmittedTotalRefusedAsWritten | schemas/v1/order.js:16-26 | one complete order without a total is refused as written, and is stored with total 300 and status "Pending" once the total is computed first |

## Left out

- E-mail and notification delivery: SMTP sends and winner e-mails are not modelled. Only writes to the notification collection are.
- Database specifics are replaced by in-memory sequences and maps: population, object-id syntax checks, field selection.
  A non-existent id is an index past the end.
- Schema validation of the auction, bid, user and user-bid records is not modelled. The record shapes follow the handlers. `AuctionEngine.NewAuction` sets status "active": creation names no status and the schema declares no default, so a new auction is assumed to start "active", the value the handlers' queries for running auctions imply.
  As declared, the user-bid model is a user record and the auction schema lacks `participants` and `currentBid`, so the alternate bid route could not save as written.
- The user schema's e-mail pattern on save, and whether the `businessId` field it does not declare is stored.
- Concurrency and scheduling: find-modify-save races, cron schedules, the periodic bank poll. Each handler is one atomic step at a given `now`.
- Floating-point money (`parseFloat`, JavaScript numbers): amounts are whole numbers.
- Authentication plumbing. JWT signing, passport strategies, Google and LINE sign-in, Redis token and device keys, cookie options.
  Login takes the outcome of body validation and of password authentication as parameters.
  Bid placement reduces token and cookie handling to presence checks.
- Password hashing, random tokens, reference codes and one-time codes are parameters supplied by the caller.
- QR payload and image generation, and the external SMS and bank APIs.
- Profile upserts of winning entries, bid history, categories listing, notification reads and the other plain read handlers.
- `decodeURIComponent` failures on the e-mail cookie; date arithmetic beyond adding milliseconds.
- AuctionStore.Store.PlaceBid: the bid's creation time is taken to be `now`, since the bid schema is not part of this model.
- AccountChecks.VerifyEmailCheck: unknown user and mismatched code are kept apart, although both answer with the same 404.
- AuctionStore.Store.ForceExpirePayment: the repaired deadline and the reassignment reach the store in one write at the end, not in two saves; the resulting record is the same.
- AuctionEngine.RankedBids: the database sort guarantees no order among bids of equal amount; the model ranks tied bids by storage position. Which tied bid is second in a payment timeout, and which is the listed leader, is a modelling choice, not a promise of the service.
- AuctionEngine.NoCascade: "the same bidder" on a repeated timeout holds for the model's tie order; with tied amounts the service could pick another of the tied bidders.
- AuctionViews.ViewOf: an active auction's leader is the top bid's user id as stored; the listing's population of that user, which yields nothing for a deleted user record, is not applied here (it is in `AuctionNotices.Leader`).
- Payments.QrLedger.UploadSlip: the ledger keeps and reports the slip as the handler assigns it. The loss of the undeclared `slipImage` path on save is modelled only by `Payments.StoredAsDeclared` and `Payments.SlipLostAsDeclared` (see Findings); the QR schema is otherwise not modelled.
- AccountChecks.VerifyEmailCheck: an expired activation pair answers as a mismatch, as the handler does. The store's removal of the key after ten minutes is modelled as a pair that no longer matches, not as a deletion.
- UserBids.Refused: an amount sent as JSON `null` is not distinguished from a missing one; JavaScript compares `null` as 0, so the route would refuse it against a non-negative current bid.
- AuctionNotices: notices are identified by (user, message, type) with the message a template of the auction's name, so two auctions sharing a name share their notices, as in the handler.

## Findings

| source | as written | input that shows it | evidently intended | confidence | as-written member | corrected member |
|---|---|---|---|---|---|---|
| controllers/paymentController.js:99-101 | the slip path is assigned to a field the QR schema does not declare, so it is dropped when the record is saved | upload any slip, then check the status within three minutes: paid, but no slip | the slip is stored and reported by later status checks | medium, not executed | Payments.SlipLostAsDeclared | Payments.SlipReportedWhileLive |
| schemas/v1/order.js:16-26 | `totalPrice` is required, and validation runs before the pre-save hook that computes it | a complete order with one item of quantity 2 at 150 and no total is refused | the hook's total satisfies the requirement: stored with total 300 | medium, not executed | Orders.SaveAsWritten | Orders.Save |
