# A verified model of the gdk wallet core

gdk is the wallet library behind the Green wallets. This project models the parts of it with the most
branching, state and arithmetic in Dafny 4.11 and proves what they guarantee on every input, every run or
every interleaving. `dafny verify dfyconfig.toml` checks all of it.

- **Building a Bitcoin transaction** (`FeeLoop`, `FeeLoopProgress`, `Settling`, `CreateTransaction`,
  `TransactionBuilder`, `BuildOutcome`, `PassLimit`, `UtxoOrder`, `InputShuffle`, `BumpTransaction`, `BumpPayments`,
  `WideFees`). Coins are collected, then a loop weighs
  inputs, change output and fee against each other until they settle. Amounts wrap at 64 bits as in the source; the
  virtual size is an arbitrary function of the inputs and the multiset of output scripts, of which only the sizes of
  transactions the loop may visit (some first coins, with or without change) are assumed to fit in their words. A
  transaction built without error conserves value, pays every recipient in full and nobody dust, pays a tight fee at no less than the requested
  rate, and spends its signing inputs in order. Whether a request is built, refused for lack of funds or ends in an
  exception is decided exactly, from the request and the size function alone. Replacement (RBF) and child-pays-for-parent (CPFP) are built on
  the same function.
- **Authenticated calls** (`AuthHandlers`, `AuthRuns`, `SuccessfulRuns`, `AuthorisedCalls`, `AddressCollection`). One class holds
  the state machine common to all calls; the value in its `impl` field says what a particular call adds.
  Theorems quantify over every constructor and every sequence of caller actions and server replies.
- **The transaction-list cache** (`TxListCache`, `CachePurge`, `CacheReuse`). The cache refines "slice of the
  server's list"; under every interleaving of threads purging isolates old pages, and what is not purged is served.
- **Smaller pieces**: the reconnect flag (`Reconnect`), the fee-rate table (`FeeEstimates`), the Tor control
  reply parser (`TorReply`) and unbiased random choice (`UniformRandom`).

Loops of the source are loops here, proved against recursive functions (`Run`, `Built`, `Getting`, `Parse`, ...);
the properties are lemmas about those functions.

## What the proofs turned up

Where code and comments disagree the model follows the code.

- A change output, once added, is never dropped (src/ga_tx.cpp:698-718). So a request whose coins cover amount and fee
  can be refused for lack of funds: with one coin under a linear size, a coin 144 to 689 above the amount is spent
  without change, one 690 to 723 above is refused, and one 724 or more above is spent with change (`OneCoinExactly`,
  `PayableAndRefused`). `PayableIsRefusedExactly` says when that happens in general.
- The pass limit of the fee loop counts asset keys, not coins (src/ga_tx.cpp:604-605). For Bitcoin it is 8, while
  u spare coins can take 2u + 3 passes, or 2u + 2 if they settle. So a flawless request can end in the "endless loop"
  exception from three spare coins on, one that would settle from four on, and never below (`LimitFailsExactly`,
  `BitcoinLimit`).
- Inputs are shuffled after the result has been stored (src/ga_tx.cpp:766-803), so the returned transaction keeps
  the selection order (`CreateGaTransaction`).
- If the server fails while the transaction cache is being filled, pages already added stay but are fetched again
  by the next call and then served twice (src/tx_list_cache.cpp:33-36). The cache stays valid exactly when the first
  failing page is not needed while filling or is the very first one fetched; a corrupted cache never recovers
  (`GetKeepsValidExactly`, `RunStaysValidExactly`, `RetryAfterFailureRepeats`).
- With manual coin selection a child (CPFP) spends the picked coins and not the parent's output
  (src/ga_tx.cpp:404-409, src/ga_tx.cpp:521-528); `ChildLiftsPair` covers both.
- The remark that a send below the limit may come back to ask for a code (src/ga_auth_handlers.cpp:1249-1252) does
  not apply: that state is unreachable (`UnderLimitNeverAsks`).
- Old fee, old rate and network fee are read back as 32-bit numbers (src/ga_tx.cpp:572-574). A replacement may pay
  less than the transaction it replaces exactly when both old fee and old rate take more than 32 bits
  (`OldFeeIsProtectedExactly`); a child may leave its parent below the promised rate exactly when the parent's new
  fee does (`ChildrenFallShortExactly`). The network fee is the whole new fee of the parent rather than the
  difference the comment describes (src/ga_tx.cpp:186-195).
- A Tor reply line that ends in a bare keyword parses to the empty mapping (`LineIsReadBack`).

## Model

| member | source | states |
|---|---|---|
| FeeLoop.RunFeeLoop | src/ga_tx.cpp:608-723 | the loop over mutable locals computes exactly `Run`, for any fee function and pass limit |
| FeeLoop.PassKeepsInv | src/ga_tx.cpp:608-723 | a pass that goes round again keeps inputs, total, selection prefix, outputs and the reason for forcing a coin consistent, with no sum wrapping |
| FeeLoop.LeavingPassIsSound | src/ga_tx.cpp:662-696 | leaving without send-all reports a shortage exactly when all coins are used and do not suffice, and is balanced otherwise |
| FeeLoop.SendAllPassIsSound | src/ga_tx.cpp:642-660 | the same for send-all: everything minus the fee is paid, or funds are short of fee plus dust |
| FeeLoop.RunIsSound | src/ga_tx.cpp:608-723 | after any number of passes the loop is only ever left soundly |
| FeeLoopProgress.PassMakesProgress | src/ga_tx.cpp:608-723 | whatever the fee function returns, a pass that does not leave decreases 2 * unused + no change yet + not forcing |
| FeeLoopProgress.RunSettles | src/ga_tx.cpp:608-723 | the loop leaves by itself within that many passes plus one |
| FeeLoopProgress.OutcomeIsStable | src/ga_tx.cpp:608-723 | a larger pass limit never changes the outcome of a loop that has left |
| Settling.RunEndsExactly | src/ga_tx.cpp:608-723 | for every pass limit the loop ends as computed beforehand: with the fewest coins that cover amount and fee, or the fewest from there on that make change worth keeping, short if there are none, after an exact number of passes, or at the limit |
| Settling.PassesAreBounded | src/ga_tx.cpp:608-723 | that number is at most 2 * spare + 2 for a loop that settles and 2 * spare + 3 for one that runs short, one less with a change output from the start |
| Settling.ShortButPayable | src/ga_tx.cpp:698-718 | a loop runs short although some coins cover amount and fee exactly when change becomes affordable with the fewest such coins and then is dust with these and any more |
| PassLimit.LimitFailsExactly | src/ga_tx.cpp:604-608 | some flawless request with u spare coins (under a size linear in inputs and outputs) ends in the exception if and only if the limit is below 2u + 3, and under no size function otherwise; for requests that would settle, below 2u + 2 |
| PassLimit.LimitFailsBeyond | src/ga_tx.cpp:727-730 | a given request fails on the limit if and only if its outcome takes more passes |
| PassLimit.BitcoinLimit | src/ga_tx.cpp:604-608 | with Bitcoin as the only asset key, that is from three spare coins on, and from four on if it would settle |
| CreateTransaction.AddAddressees | src/transaction_utils.cpp:290-345 | outputs for all addressees in order, their sum, and an invalid-amount error exactly when some amount does not convert or is dust |
| CreateTransaction.CollectUtxos | src/ga_tx.cpp:530-546 | takes the shortest prefix of coins that covers the amount, or all of them, and totals what is available |
| CreateTransaction.PlaceChangeEffect | src/ga_tx.cpp:732-754 | placing the change at a random index keeps scripts, pays out exactly the change on top, and loses no output |
| CreateTransaction.RealRequestsFit | src/ga_tx.cpp:495-546 | amounts up to 21 million coins, sizes up to a block and 32-bit rates meet the word-size assumption of the theorems below |
| CreateTransaction.RateArithmetic | src/transaction_utils.cpp:256-264 | a fee of at least get_tx_fee is reported at a rate no lower than the one asked for, and not overstated |
| TransactionBuilder.CreateTxOutputs | src/ga_tx.cpp:490-787 | the builder method returns exactly `Built` whenever the two initial sums fit in 64 bits |
| TransactionBuilder.BuiltIsSound | src/ga_tx.cpp:490-787 | built without error: inputs = outputs + fee, no dust, every recipient paid, inputs aligned with signing inputs, tight fee, rate kept, replacement rules met |
| BuildOutcome.BuiltExactly | src/ga_tx.cpp:490-787 | a request is built without error if and only if it is proper, settles within the pass limit, sends something at an allowed rate and, for a replacement, passes the closing check on the settled fee and size; what is built has exactly those coins, change, fee and size |
| BuildOutcome.CoinsAreChosen | src/ga_tx.cpp:530-723 | automatic selection spends, on top of replaced inputs, the fewest coins that pay amount and fee; if they leave dust or more, the fewest from there on with which a change output is not dust; a replaced change output is there from the start |
| BuildOutcome.FirstCoinsCover | src/ga_tx.cpp:530-546 | on entering the loop the fewest coins are spent that cover the amount on top of replaced inputs |
| BuildOutcome.EntryErrorsExactly | src/ga_tx.cpp:419-434 | exactly when recipients are missing, too many for sending all, or an amount is unusable |
| BuildOutcome.ClosingErrorsExactly | src/ga_tx.cpp:756-786 | exactly when nothing is sent, the rate is below the minimum, or a replacement does not pay for old fee, bandwidth and rate |
| BuildOutcome.ChangeIsPlacedByChance | src/ga_tx.cpp:740-748 | the change output is at the position drawn |
| BuildOutcome.ShortageIsHonest | src/ga_tx.cpp:642-674 | "insufficient funds" is reported if and only if a proper request runs short within the pass limit; then, with every coin spent, amount plus fee (plus dust for a change output) is not covered |
| BuildOutcome.ExceptionExactly | src/ga_tx.cpp:490-787 | an exception ends a request if and only if it sends all of a replaced transaction, or is acceptable and exceeds the pass limit or runs short with no Bitcoin key among its coins |
| BuildOutcome.PayableIsRefusedExactly | src/ga_tx.cpp:698-718 | a request that some of its coins could pay for is refused for lack of funds if and only if its change output is a trap |
| BuildOutcome.OneCoinExactly | src/ga_tx.cpp:490-787 | one recipient, one coin, a linear size: the exact coins that are spent with or without change, soundly, and those refused |
| BuildOutcome.PayableAndRefused | src/ga_tx.cpp:698-718 | a coin of 100700 covers an amount of 100000 and the fee of 144, and is refused |
| UtxoOrder.BeforeIsStrictWeakOrder | src/ga_session.cpp:2680-2691 | the sort comparator, with height 0 as infinity, is a strict weak order |
| UtxoOrder.OldCoinsGoFirst | src/ga_tx.cpp:530-546 | for every request: no coin twice, nor one of a replaced transaction again, none with a higher block than a confirmed one left behind, an unconfirmed coin only together with every confirmed one |
| InputShuffle.RandomiseInputs | src/ga_tx.cpp:124-141 | in place: the inputs of a replaced transaction stay, each other input moves to the first position of its coin |
| InputShuffle.ShuffleKeepsPairing | src/ga_tx.cpp:124-141 | for every permutation, inputs still pair with coins if and only if no coin is listed twice |
| InputShuffle.CreateGaTransaction | src/ga_tx.cpp:789-808 | the returned transaction is the same for every shuffle, because it is stored before |
| InputShuffle.SigningIsAligned | src/ga_tx.cpp:901-926 | for every request and size function, input i of the returned transaction spends the outpoint of signing input i |
| BumpTransaction.SplitOutputs | src/ga_tx.cpp:199-218 | recipients are all outputs but the first relevant one, in order, and that one is the change |
| BumpTransaction.RebuildOldUtxos | src/ga_tx.cpp:253-280 | succeeds if and only if the listed inputs are ours and name every position; then coin i spends the old input i (pigeonhole) |
| BumpTransaction.Replace | src/ga_tx.cpp:198-284 | the RBF request is rebuilt from the old transaction and handed to the builder |
| BumpTransaction.ReplacementIsSound | src/ga_tx.cpp:774-786 | a replacement keeps every old input in place, pays every old recipient and obeys conditions 3 and 4 of "Implementation Details" in BIP 125 |
| BumpPayments.RedepositPaysBack | src/ga_tx.cpp:219-230 | replacing a transaction whose only output is ours pays everything less the fee to the same address |
| BumpPayments.ReplacementPaysAgain | src/ga_tx.cpp:204-240 | otherwise exactly the old payments but the change are made again, and the change goes to the address of the first old output that is ours |
| WideFees.OldFeeIsProtectedExactly | src/ga_tx.cpp:572-574 | for every old fee and size: some consistent old transaction has a replacement that is no smaller, built without error and cheaper, if and only if old fee and old rate both reach 2^32 |
| WideFees.NarrowIsProtected | src/ga_tx.cpp:774-786 | for any given old transaction, an undercutting replacement requires both to reach 2^32 |
| BumpTransaction.CreateChild | src/ga_tx.cpp:285-307 | the CPFP child spends the first relevant output, or the picked coins, to the wallet, with the network fee added |
| BumpTransaction.ChildLiftsPair | src/ga_tx.cpp:180-196 | the child spends the parent's output unless coins were picked; parent and child together pay the requested rate if and only if the network fee, as read back, with the parent's fee and the rounding of the child's fee pays for the parent |
| BumpPayments.ChildPaysWallet | src/ga_tx.cpp:332-343 | a child sends all it spends, less the fee, to a fresh wallet address, or to the recipient named |
| BumpTransaction.SmallFeesSuffice | src/ga_tx.cpp:186-195 | it does for every parent whose new fee is below 2^32 |
| WideFees.ChildrenFallShortExactly | src/ga_tx.cpp:572-574 | for every new fee: some parent with it gets a child, built without error, that leaves the pair below the rate, if and only if the new fee reaches 2^32 |
| TxListCache.GetServesView | src/tx_list_cache.cpp:10-50 | every get serves the window of the cache's own view and keeps the view, unless filling failed after adding pages, which are then held twice |
| TxListCache.GetKeepsValidExactly | src/tx_list_cache.cpp:33-36 | a valid cache stays valid if and only if the first failing page from the next uncached one on is that one itself, or lies past the end, the request or the size limit |
| TxListCache.GetAnswersExactly | src/tx_list_cache.cpp:10-50 | a valid cache answers if and only if no page needed for the request fails, and then with the slice asked for |
| TxListCache.RunStaysValidExactly | src/tx_list_cache.cpp:10-50 | after any series of calls, each with its own failures, the cache is valid if and only if no call broke off after adding pages |
| TxListCache.EveryGetServesListing | src/tx_list_cache.cpp:10-50 | after any such series the next get returns exactly the requested slice of the concatenated pages, or fails, exactly when a needed page fails |
| TxListCache.AnsweringServer | src/tx_list_cache.cpp:10-50 | against a server that always answers every get of every series is served its slice |
| TxListCache.CacheStaysBounded | src/tx_list_cache.cpp:8-36 | after any series of calls, failing or not, the cache holds fewer than 1024 plus one page of entries |
| TxListCache.RetryAfterFailureRepeats | src/tx_list_cache.cpp:33-36 | a two-page list whose first page is served twice after a failure |
| TxListCache.Cache.Fetch | src/tx_list_cache.cpp:20-31 | one page: its wanted part is appended, or an empty page is remembered, or nothing changes on an exception |
| TxListCache.Cache.Get | src/tx_list_cache.cpp:10-50 | the two loops update the fields and return the result exactly as `Getting` says |
| CachePurge.StepKeepsInv | src/tx_list_cache.cpp:52-72 | every lookup, fetch, return, failure and purge keeps: a reachable cache is younger than all purges of its subaccount in the history, and page times are requests in it |
| CachePurge.PurgedPagesAreNeverReturned | src/ga_session.cpp:2225 | for every interleaving, as a history of steps: if a purge of its subaccount precedes a thread's last lookup, every page the thread returns was asked for after that purge |
| CacheReuse.CachedPagesAreServed | src/tx_list_cache.cpp:58-72 | for every interleaving: a page cached before a lookup of the same subaccount is returned to it unless that subaccount was purged in between; purges of others do not matter |
| CacheReuse.OwnPagesAreReturned | src/tx_list_cache.cpp:20-50 | for every interleaving: a thread returns every page it asked for since its lookup, cached or spilled |
| AuthHandlers.AuthHandler.RequestCode | src/ga_auth_handlers.cpp:94-111 | new state of every handler after request_code, including the overrides of send and limits, and when it throws |
| AuthHandlers.AuthHandler.ResolveCode | src/ga_auth_handlers.cpp:113-118 | new state after resolve_code, and when it throws |
| AuthHandlers.AuthHandler.Call | src/ga_auth_handlers.cpp:126-162 | new state after operator() for every reply: data stamped, attempts counted, errors set |
| AuthRuns.CallFollowsReply | src/ga_auth_handlers.cpp:126-162 | success leads to the end or a next step, a refusal to an error with its message, a wrong code to another try with one attempt fewer (not for gauth) and to an error on the last; after a failure the call can be repeated |
| AuthRuns.EveryRunIsSane | src/ga_auth_handlers.cpp:48-215 | all handlers, all runs: error text only in the error state, a code is requested only without a device and with some method, wrong-code replies since the last request or successful step plus attempts left equal three, the third one is an error |
| SuccessfulRuns.SuccessfulRunEnds | src/ga_auth_handlers.cpp:220-1386 | every kind of call: if all server calls succeed, it goes through exactly the expected states and actions (second code of a two-factor change, steps of a hardware login, addresses one by one) to done |
| AuthRuns.ConstructorsEstablishInv | src/ga_auth_handlers.cpp:220-287 | every constructor, also when it catches an exception, starts in a sane state |
| AuthRuns.EndsAreFinal | src/ga_auth_handlers.cpp:1247-1260 | error is absorbing for every handler; done is, except for a request on a send |
| AuthorisedCalls.CodeComesBeforeCall | src/ga_auth_handlers.cpp:72-162 | calls that need a code reach the server only after a request and the code entered for it, carrying exactly the authorised data with that method and code, or neither |
| AuthorisedCalls.RequestShowsTheCall | src/ga_auth_handlers.cpp:100-111 | a request for a code shows the server exactly the value, limit, method, address or amounts to be authorised |
| AuthorisedCalls.SecondCodeIsForMethod | src/ga_auth_handlers.cpp:1041-1056 | after the first step the code of the method being enabled is asked for, and the first authorisation is kept for gauth |
| AuthorisedCalls.GauthStartsOver | src/ga_auth_handlers.cpp:1082-1103 | a wrong code on enabling gauth with other methods enabled leads back to where enabling starts |
| AuthorisedCalls.ResetIsConfirmedByEmail | src/ga_auth_handlers.cpp:1318-1333 | the confirmation of a reset carries method email and the code entered |
| AuthorisedCalls.RetriesSendTheSame | src/ga_auth_handlers.cpp:1247-1302 | all calls in a run of a Bitcoin send carry the same amount, fee and change index, or bump amount |
| AuthorisedCalls.SendKeysTwice | src/containers.cpp:11-20 | the key renames before a send are idempotent |
| AuthorisedCalls.UnderLimitNeverAsks | src/ga_auth_handlers.cpp:1193-1260 | a send below the limit never asks for a code and sends only its under-limit data |
| AddressCollection.LoginUploadsWhatIsRequired | src/ga_auth_handlers.cpp:289-388 | collected plus outstanding addresses equal what the server wants, per subaccount, and done means exactly those were uploaded, being the addresses answered for it over the run, in order |
| AddressCollection.CreationSendsAll | src/ga_auth_handlers.cpp:429-503 | collected plus remaining is constant (five or none) and done means all were sent, being the addresses answered over the run |
| Reconnect.StepKeepsInv | src/ga_session.hpp:103-112 | every load and compare-exchange keeps: at most one task, flag set exactly while there is one |
| Reconnect.SingleReconnector | src/ga_session.cpp:592-648 | under every interleaving at most one reconnect task exists, callers back off only while one does, and its end clears the flag |
| FeeEstimates.FillTable | src/ga_session.cpp:953-971 | entry b is the rate at the smallest accepted block not before b, or at the largest one; entry 0 is the minimum |
| FeeEstimates.FeeTable.SetFeeEstimates | src/ga_session.cpp:925-973 | the table is replaced by such a table if any quote is accepted, and kept otherwise; it always has 25 entries |
| FeeEstimates.FeeTable.SetMinFee | src/ga_session.cpp:1063-1067 | a changed minimum resets all 25 entries |
| FeeEstimates.FeeTable.SetAppearance | src/ga_session.cpp:1115-1116 | login stores the cleaned-up block target |
| FeeEstimates.FeeTable.ChangeSettings | src/ga_session.cpp:1553-1558 | a new target is stored cleaned up, otherwise the stored one stays |
| FeeEstimates.FeeTable.DefaultFeeRate | src/ga_session.cpp:1176-1182 | the lookup of the stored block target, or of entry 0 before login, is never out of range |
| FeeEstimates.CleanTarget | src/ga_session.cpp:213-243 | the block target becomes 3, 12 or 24, always within the table, and cleaning up twice changes nothing |
| FeeEstimates.TableFollowsQuotes | src/ga_session.cpp:925-973 | each entry is the rounded rate of the last accepted quote for the smallest quoted block not before it, or for the largest |
| FeeEstimates.NothingAccepted | src/ga_session.cpp:925-973 | nothing is accepted exactly when no quote is acceptable |
| FeeEstimates.RateIsUnique | src/ga_session.cpp:953-971 | the description of an entry leaves only one possible rate |
| TorReply.ParseTorReplyMapping | src/ga_tor.cpp:81-171 | the loops over the line compute exactly `Parse` |
| TorReply.UnescapeValue | src/ga_tor.cpp:125-160 | the unescape loop stays within the quoted value and computes `Unescape` |
| TorReply.QuotedIsBalanced | src/ga_tor.cpp:103-113 | the scan for the closing quote guarantees that every backslash is followed by a character |
| TorReply.OctalIsByte | src/ga_tor.cpp:141-156 | every octal escape fits in a byte |
| TorReply.LetterEscapes | src/ga_tor.cpp:125-160 | backslash n, t and r read as control characters, any other non-digit as itself |
| TorReply.OctalEscapes | src/ga_tor.cpp:134-152 | octal digits, as many as are read together, read as the character of their value, which is below 256 |
| TorReply.UnescapeEscape | src/ga_tor.cpp:125-160 | unescaping undoes the escaping of backslash and quote, for every value |
| TorReply.LineIsReadBack | src/ga_tor.cpp:81-171 | a line of quoted values, plain values and keywords is parsed back into its mapping, unless it ends in a keyword |
| TorReply.SplitTorReplyLine | src/ga_tor.cpp:68-79 | type and rest put together again give the line, and the type has no space |
| UniformRandom.EveryResidueEquallyLikely | src/utils.cpp:179-190 | each number below the bound is the image of exactly floor(2^32 / bound) accepted words |
| UniformRandom.UniformBelow | src/utils.cpp:179-190 | the first word at or above the threshold decides |
| UniformRandom.UniformRng.Next | src/utils.cpp:192-200 | call n hands out word n % 8 of block n / 8, so each entropy word once before a refill |

## Left out

- Liquid: blinding, commitments, rangeproofs, fee outputs and multi-asset sends depend on libwally primitives.
- RateArithmetic: get_tx_fee is an exact ceiling here; the source computes it in double precision, which agrees while size times rate stays below 2^52.
- BuiltIsSound: assumes that sums of coins fit in 64 bits, the minimum rate in 32 bits, and sizes and fees of the transactions the loop may visit in their words (`FitsInWords`; `RealRequestsFit` says when that holds), and that dust, rates and coins come from the caller unchanged.
- BuiltExactly: rests on the same assumption.
- ShortageIsHonest: the same.
- ExceptionExactly: the same.
- LimitFailsExactly: for fewer than 2^25 spare coins, since more would make a transaction of 2^32 vbytes; what is shown to fail is some request with that many coins, not every one.
- BitcoinLimit: the same.
- OldFeeIsProtectedExactly: for fees up to 21 million coins and sizes from 10 vbytes, what a transaction takes without inputs and outputs, up to a block.
- ChildrenFallShortExactly: for fees up to 21 million coins.
- CreateTxOutputs: preparing the request (subaccount checks, sweeping, fetching coins, addresses and URIs, locktime) is not modelled; addressee amounts arrive converted, as a number or as a failed conversion.
- AddAddressees: address and BIP 21 handling is not modelled, only the amounts and the dust check.
- Replace: starts from the previous transaction's listing; reuse of data left in the details by an earlier call, the subaccount check and the memo are not modelled.
- CreateChild: the size of the parent is a parameter, and a coin list already present in the details is not reused.
- Address labels of outputs: `update_tx_info` hands addresses out in list order after the change swap moved an output; not modelled.
- Get: the request must end below 2^32; beyond that the source forms an inverted range, which is undefined. Block height and fiat rate collected on the way are not modelled.
- PurgedPagesAreNeverReturned: pages are represented by the time they were asked for, not by their content.
- Call: a handler's own server calls within one pass have one joint outcome; for login and subaccount creation an exception is taken to occur before the pass changes anything.
- SuccessfulRunEnds: the caller enters the same method and code throughout and every server call gets the same successful reply; two-factor methods are email, sms, phone and gauth.
- CoinsAreChosen: rests on the same assumption as BuiltIsSound.
- ClosingErrorsExactly: the same.
- LoginUploadsWhatIsRequired: assumes the server never answers a step with the wrong-code error.
- CreationSendsAll: makes the same assumption.
- EveryRunIsSane: results shown to the user (`m_result`, status JSON) and exceptions that escape a constructor are not modelled.
- RetriesSendTheSame: covers Bitcoin; the data of a Liquid send is empty.
- SetFeeEstimates: rates are real numbers; the source rounds a double.
- UniformBelow: works on a finite supply of words, since rejection may go on forever; how entropy is gathered is not modelled.
- exponential_backoff, connection handling, TLS, Tor process control, SQLite cache, key derivation and signing, amount formatting: I/O, foreign code or easy members.
