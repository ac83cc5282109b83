# SealedAuction: model and proofs

A Dafny model of a sealed-bid auction in two halves, a Solidity contract that escrows lots and a
TEE extension that picks winners, with the two token ledgers it moves, and proofs about every run.
`dafny verify dfyconfig.toml` checks everything.

## What is modelled

- **The contract** (`Auction.dfy`, `SealedAuction.dfy`). `Auction` gives each entry point as a
  transition on a `World`: the contract's storage, its log, the instructions it emitted, and every
  ERC-721 and ERC-20 on the chain. A transition that reverts yields no world, so a step commits or
  changes nothing. `SealedAuction` is the object with the same storage overwritten in place, in
  source order, with the guard and the rollback; each method is proved equal to its transition.
  `Frames` states what a committed call writes besides the tokens, `Calls` exactly when each entry point
  commits, in conditions a caller can check, and what each refusal means. `Wire` states the bytes that
  are packed, decoded, hashed and signed, position by position.
- **The tokens** (`Erc721.dfy`, `Erc20.dfy`). DemoAsset721 and MockERC20, as transitions and as
  objects. The ERC-20 may withhold an arbitrary fee from what arrives.
- **The TEE** (`Winner.dfy`, `Tee.dfy`, `Handlers.dfy`). Acceptance is stated from the decrypted plaintext
  alone (`Tee.Matches`), and so are "contends", "that bid's amount" and all results about who wins. The
  selection loop, the handler object, and
  the handlers as interleaved atomic steps: a bid handler is two steps with the unlocked decryption
  between them, a close is one.
- **The composition** (`Queue.dfy`, `Protocol.dfy`, `Progress.dfy`, `AnyDelivery.dfy`,
  `Rightness.dfy`, `Replay.dfy`, `Ends.dfy`, `Disruption.dfy`). Outside accounts call the contract and the tokens
  in any order, the contract emits instructions, the TEE consumes and signs, and `settle` rebuilds the
  digest, recovers the signer and accepts what was signed.
- **Tokens that call back** (`Hostile.dfy`, `Unguarded.dfy`). Around every transfer a token may call
  back into the contract and into other tokens; misbehaving tokens in addition answer as they like.
- **Two smaller programs**: resumable registration (`Registration.dfy`) and the scan for owned NFTs
  (`NftScan.dfy`).

Main results:

- custody: `Escrow.EscrowHoldsInEveryRun`, and against misbehaving tokens
  `Hostile.HonestLotsSurviveHostileTokens`;
- the right outcome, end to end, with in-order delivery: `Protocol.SettledMeansHighestBidWon`, which
  determines the winner down to the order of transactions, and
  `Protocol.CancelledExactlyWithoutContender`;
- with no assumption on delivery: `AnyDelivery.SettledMeansRealBidWon`, and the exact condition under
  which an answer is right, `Rightness.AnswerIsRightExactlyIfNothingBetterIsMissing`;
- authenticity: `Settlement.SettledWasSigned`;
- how auctions end while one TEE, registered once and never restarted, is fed in order:
  `Progress.EndIsReachableOncePaid`, `Progress.NobodyEndsAnUnpaidAuction` and both together,
  `Progress.EndsExactlyThroughPayment`; and without these assumptions:
  `Ends.PendingCanBeCancelled`, `Ends.SoldExactlyToThoseWhoPay` and, step by step,
  `Ends.LeavesClosingExactlyWhenPresented`;
- closing again and replaying: within one TEE process `Reclose.AnswerIsFinalExactlyWithoutOvertaker`
  and `Replay.ReplayUntilRestartIsHarmlessExactlyWithoutOvertaker`, and over all allowed runs
  `Ends.AnswersSettleAlikeExactlyWithoutContender`;
- what moved: `Lifecycle.JournalHoldsInEveryRun`, `Settlement.EveryEndMovedExactly`;
- order and repetition: `Delivery.OrderDecidesExactlyOnTies`, `Delivery.OnlyFirstDeliveriesMatter`.

Assumptions, all visible as preconditions or definitions: transactions come from accounts other than
the contract and the zero address (`Auction.Outside`); no ERC-20 in `coins` mints past a supply of
2^256 - 1 (`Erc20.Do`); decryption, keccak and ecrecover are arbitrary functions, and about
signatures only `Codec.Reliable` is assumed: what recovers to a registered TEE address is a digest
that key signed, of whatever chain and result, and the five inputs hashed for a presented result that
was not signed collide with those of no signed one. That such a signature is one on exactly the
presented result on this chain is
derived from the byte layout (`Codec.RecoveredResultWasSigned`), and keys may sign anything for other
chains. Nothing was executed.

## Where the code and its descriptions differ

- `go/internal/extension/extension.go:184-186` says closing again reproduces the result.
  The closed flag is not looked at again when a bid is appended, so this fails while handlers
  overlap: `Reclose.ClosingAgainCanDiffer` is an input,
  `Reclose.AnswerIsFinalExactlyWithoutOvertaker` the exact condition, and
  `Handlers.SerializedClosesAgree` the serialized case in which the sentence is true.
  `docs/extension-contract.md` asks for serialized handlers; `go/README.md` says this implementation
  may run them concurrently.
- `ARCHITECTURE.md` says the action id prevents replay across instructions. `settle` hashes it and
  compares it with nothing. `Disruption.OutdatedAnswerCancels` is a run with two close instructions: the
  answer to the first, signed before the second is mined, is presented after the second was answered
  under another action id, and cancels an auction the second answer would have sold; a comparison with
  the latest close instruction would have refused it. Replay cannot matter exactly when nothing in the
  queue contends (`Ends.AnswersSettleAlikeExactlyWithoutContender`); among the answers of one TEE
  process, exactly when no bid in flight overtakes
  (`Replay.ReplayUntilRestartIsHarmlessExactlyWithoutOvertaker`). What stops a second settlement is the
  phase (`Settlement.SettledWasSigned`).
- The close message carries the deadline and the TEE never uses it. That bids are timely rests on
  `placeBid` alone (`Queue.DisciplineHoldsInEveryRun`).
- A winner who does not pay stalls the auction: the seller cannot cancel a closing auction and there is
  no timeout (`Progress.NobodyEndsAnUnpaidAuction`). A restart of the TEE, or registering another one,
  gets the lot out: a TEE without bids signs that there is no sale (`Ends.PendingCanBeCancelled`), in
  the same way in which it can take a sale from a winner who would have paid.
- The comment on the guard (`contracts/InstructionSender.sol:173-174`) says state is always written
  before any token call and calls the guard defense in depth. `createAuction` records the lot after the
  call, from two balance readings; `Unguarded.WithoutTheGuardADepositCountsTwice` shows that the guard
  is needed there.

## Model

| member | source | states |
|---|---|---|
| Escrow.EscrowHoldsInEveryRun | contracts/InstructionSender.sol:233-490 | In every state reached from deployment by outside transactions, the contract's balance of each ERC-20 covers the sum of its live lots, the token of every live lot is a known token, every live NFT lot is held by the contract, no two live auctions share one, and no approval, operator or allowance lets another account move what the contract holds. |
| Escrow.StepKeepsEscrow | contracts/InstructionSender.sol:233-427 | One step by any outside account, on the auction or on any token, keeps the above. |
| Escrow.OutsiderCannotMoveEscrow | contracts/DemoAsset721.sol:78-115 | No token call by another account moves an NFT the contract holds, lowers its balance in any ERC-20, or creates an approval that later could. |
| Escrow.ReleaseSucceeds | contracts/InstructionSender.sol:478-490 | The lot leg cannot fail: a lot that is in escrow can always be sent to any nonzero address, and the rest stays covered. |
| Escrow.PaymentKeepsBacking | contracts/InstructionSender.sol:423-423 | The payment leg succeeds exactly when allowance and balance cover the price, and takes nothing from escrow, whichever token it is in. |
| Escrow.PullBacksNewLot | contracts/InstructionSender.sol:455-476 | A successful pull covers all old lots and the new one at the amount recorded, fee or no fee. |
| Escrow.CancelKeepsEscrow | contracts/InstructionSender.sol:332-341 | The seller of an open auction without bids can always cancel, nobody else ever can, and the other lots stay covered. |
| Calls.CreatesExactly | contracts/InstructionSender.sol:233-272 | An auction can be created exactly when both token addresses are nonzero, the deadline lies ahead, the lot has a text, fewer than 2^64 auctions exist, and the lot can come: an NFT the caller owns and the contract may move, whatever the amount, or a positive amount of coins that allowance and balance cover and the fee does not eat up. |
| Calls.CreatedAmount | contracts/InstructionSender.sol:455-476 | The record says 1 for an NFT and the amount net of the fee for coins. |
| Calls.BidsExactly | contracts/InstructionSender.sol:282-303 | A bid is taken exactly when the auction exists, is open and before its deadline, the ciphertext is nonempty, the registries accept, and the bid count is not at the end of its 256 bits. |
| Calls.ClosesExactly | contracts/InstructionSender.sol:309-328 | A close is taken exactly when the auction exists, is open or closing, its deadline has come and the registries accept. |
| Calls.RegistersExactly | contracts/InstructionSender.sol:214-218 | The owner, and only the owner, sets any nonzero TEE address. |
| Calls.SettlesExactly | contracts/InstructionSender.sol:366-427 | A result settles exactly when the registered key signed it over the node's own bytes, with r, s and v in their places, it reports success, its bytes decode, and the auction it names is closing and, for a sale, at the reserve with a payer who covers it. |
| Calls.NodeResultSettles | contracts/InstructionSender.sol:376-427 | In particular what the TEE node packs and signs settles. |
| Calls.CreateRefusalHolds | contracts/InstructionSender.sol:243-246 | Each reason for refusing a creation holds. |
| Calls.BidRefusalHolds | contracts/InstructionSender.sol:283-286 | Each reason for refusing a bid holds. |
| Calls.CloseRefusalHolds | contracts/InstructionSender.sol:310-315 | Each reason for refusing a close holds. |
| Calls.CancelRefusalHolds | contracts/InstructionSender.sol:333-336 | Each reason for refusing a cancellation holds. |
| Calls.SettleRefusalHolds | contracts/InstructionSender.sol:373-413 | Each reason for refusing a settlement holds. |
| Calls.TokenCallsExactly | contracts/DemoAsset721.sol:49-115 | An outside account's call to a token is that token's own request, made in the account's name. |
| Escrow.ApplyResultKeepsEscrow | contracts/InstructionSender.sol:401-427 | Exactly when an authenticated result takes effect: a closing auction, and for a sale a price at the reserve and a payer who covers it; escrow is kept. |
| Lifecycle.RunAdvances | contracts/InstructionSender.sol:253-427 | Through any run seller, lot, pay token, deadline and reserve never change, a settled or cancelled auction never changes at all, a closing one never reopens, and its bid count is frozen. |
| Lifecycle.JournalHoldsInEveryRun | contracts/InstructionSender.sol:282-427 | In every run the log has at most one release per lot, exactly when its auction ended, to the seller or to the winner, and one sale for exactly the settled auctions; a winner is recorded exactly when settled; a seller's cancel implies no bid was ever placed. |
| Settlement.SettleSucceedsExactlyWhenFunded | contracts/InstructionSender.sol:366-427 | For a closing auction and an authentic result, no-sale always settles and a sale at the reserve settles exactly when the winner's allowance and balance cover the price. |
| Settlement.SettlementCanBeRetried | contracts/InstructionSender.sol:419-424 | After any further run in which the auction is still closing and the TEE is the same, the same signed result settles exactly when the winner is then funded. |
| Settlement.SettledWasSigned | contracts/InstructionSender.sol:373-402 | If digests signed by the registered key are not forged and the named keccak inputs do not collide, whatever settles is a result that key signed, for this very chain, reporting success, decoding, and naming this contract and a closing auction; afterwards nothing with that content settles. |
| Settlement.SaleSwapsExactly | contracts/InstructionSender.sol:415-426 | A sale changes every balance of every ERC-20 by the payment leg plus the lot leg and nothing else, and moves no NFT but the sold one. |
| Settlement.CancellationReturnsTheLot | contracts/InstructionSender.sol:404-410 | A cancellation returns the lot to the seller and moves nothing else anywhere. |
| Settlement.EveryEndMovedExactly | contracts/InstructionSender.sol:332-427 | Over every run each finished auction was ended by one step, and that step swapped price and lot exactly, or took the lot home exactly, and moved nothing else in any token. |
| Settlement.ReleaseIsLoggedAtTheEnd | contracts/InstructionSender.sol:489-489 | That step is the one at which the log got the one release of the lot. |
| Settlement.CreationEscrowsTheLot | contracts/InstructionSender.sol:455-476 | A creation moves the lot in from the seller and nothing else, and records what arrived. |
| Settlement.OtherCallsMoveNothing | contracts/InstructionSender.sol:282-328 | A bid, a close, a registration or a reverted call moves no token at all. |
| SealedAuctionContract.SealedAuction.constructor | contracts/InstructionSender.sol:185-196 | A fresh contract owns no auctions and has no TEE. |
| SealedAuctionContract.SealedAuction.Create | contracts/InstructionSender.sol:233-272 | The in-place entry point, guard and rollback included, is the transition `CreateAuction`, or reverts with its reason and changes nothing. |
| SealedAuctionContract.SealedAuction.Bid | contracts/InstructionSender.sol:282-303 | The in-place entry point is the transition `PlaceBid`, a refusal by the registries included. |
| SealedAuctionContract.SealedAuction.Close | contracts/InstructionSender.sol:309-328 | The in-place entry point is the transition `CloseAuction`; a refusal by the registries undoes the phase change. |
| SealedAuctionContract.SealedAuction.Cancel | contracts/InstructionSender.sol:332-341 | The in-place entry point, guard and rollback included, is the transition `CancelAuction`. |
| SealedAuctionContract.SealedAuction.SettleResult | contracts/InstructionSender.sol:366-427 | The in-place entry point, from rebuilding the digest and recovering the signer to the swap, with the terminal record written before any token moves, is the transition `Settle`, or reverts and leaves contract and tokens as they were. |
| SealedAuctionContract.SealedAuction.Pull | contracts/InstructionSender.sol:455-476 | Escrowing a lot reports what actually arrived. |
| SealedAuctionContract.SealedAuction.Release | contracts/InstructionSender.sol:483-490 | Releasing a lot is the transition `ReleaseLot`. |
| SealedAuctionContract.SealedAuction.RegisterTee | contracts/InstructionSender.sol:214-218 | The in-place entry point is the transition `SetTeeAddress`. |
| Frames.ApplyHasShape | contracts/InstructionSender.sol:233-341 | What each committed call writes besides the tokens, exactly: records, commitments, log, queue; for a settlement, that some result took effect. |
| Frames.SettleShape | contracts/InstructionSender.sol:366-427 | For a settlement, which result: the one decoded from the bytes presented, signed and naming this contract. |
| Erc721.LedgerHoldsInEveryRun | contracts/DemoAsset721.sol:49-115 | In every reachable state owned ids are exactly 1 .. nextTokenId - 1, each balance is the number of ids owned, balances sum to the number minted, and unminted ids carry no approval. |
| Erc721.TransferNeverFailsOnArithmetic | contracts/DemoAsset721.sol:99-115 | Given the ledger, a transfer is refused for authorization only: neither checked operation can fail, self-transfers included. |
| Erc721.TransferMovesOneToken | contracts/DemoAsset721.sol:99-115 | A transfer changes the owner and approval of one id and the two balances, and nothing else. |
| Erc721.RequestsSucceedExactly | contracts/DemoAsset721.sol:49-115 | Exactly who may mint, approve, set operators and transfer. |
| Erc721.RequestsChangeExactly | contracts/DemoAsset721.sol:49-115 | What a request that succeeds does to every owner, approval and operator, and that it leaves the rest alone. |
| Erc721.MintKeepsLedger | contracts/DemoAsset721.sol:49-55 | Minting keeps the ledger, and fails only for a non-owner, a zero recipient or an exhausted counter. |
| Erc721.TransferKeepsLedger | contracts/DemoAsset721.sol:99-115 | Transfers keep the ledger. |
| Erc721.DemoAsset721.constructor | contracts/DemoAsset721.sol:33-41 | A fresh ledger is valid and empty. |
| Erc721.DemoAsset721.MintTo | contracts/DemoAsset721.sol:49-55 | The in-place mint is the transition `Mint`, keeps the ledger and returns the new id. |
| Erc721.DemoAsset721.ApproveFor | contracts/DemoAsset721.sol:78-83 | The in-place approval is the transition `Approve` and keeps the ledger. |
| Erc721.DemoAsset721.SetOperator | contracts/DemoAsset721.sol:90-93 | The in-place update is the transition `SetApprovalForAll` and keeps the ledger. |
| Erc721.DemoAsset721.Transfer | contracts/DemoAsset721.sol:99-115 | The in-place transfer is the transition `TransferFrom`; its unchecked-looking updates stay in range. |
| Erc20.TransferEffect | test/Mocks.sol:20-24 | Under a bounded supply a transfer fails exactly when the sender is short, and its effect on every balance at once, self-transfers and fees included. |
| Erc20.TransferFromEffect | test/Mocks.sol:26-32 | The same for transfers on behalf of another, with the effect on every allowance. |
| Erc20.RequestsSucceedExactly | test/Mocks.sol:11-32 | Exactly when a mint, an approval and a transfer succeed, with the ledger read directly. |
| Erc20.RequestsChangeAllowances | test/Mocks.sol:15-32 | What each request does to every allowance. |
| Erc20.RequestsChangeBalances | test/Mocks.sol:11-32 | What each request does to every balance, the fee included. |
| Erc20.DoConservesSupply | test/Mocks.sol:11-32 | Only minting adds to the supply and only the withheld fee leaves it. |
| Erc20.MockERC20.ApproveFor | test/Mocks.sol:15-18 | The in-place approval is the transition `Approve`. |
| Erc20.MockERC20.MintTo | test/Mocks.sol:11-13 | The in-place mint is the transition `Mint`. |
| Erc20.MockERC20.Send | test/Mocks.sol:20-24 | The in-place transfer is the transition `Transfer`, undone as a whole when the credit overflows. |
| Erc20.MockERC20.SendFrom | test/Mocks.sol:26-32 | The in-place transfer is the transition `TransferFrom`, undone as a whole when the balance is short. |
| Codec.UnpackInvertsPack | go/pkg/types/types.go:100-107 | The contract's four-word decode inverts the TEE's packing for every address and 256-bit value. |
| Codec.PackInvertsUnpack | contracts/InstructionSender.sol:393-398 | Exactly the byte strings of four words with clean address words decode, and re-packing gives back the bytes read. |
| Codec.AcknowledgementNeverDecodes | go/internal/extension/extension.go:179-181 | A signed bid acknowledgement, or an empty error result, can never settle anything. |
| Codec.DigestBinds | contracts/InstructionSender.sol:376-390 | Equal digests mean equal chain, data, action id, tag and status, or one of five named pairs of keccak inputs collides. |
| Wire.PackedByteByByte | go/pkg/types/types.go:100-107 | The packed result byte by byte: contract, auction, winner, price, each big-endian in 32 bytes. |
| Wire.DecodesExactly | contracts/InstructionSender.sol:393-398 | The bytes that decode: at least 128, with twelve leading zero bytes in each of the two address words. |
| Wire.DecodedByteByByte | contracts/InstructionSender.sol:393-398 | What they decode to: the fields whose big-endian words they are. |
| Wire.DigestIsTheNodes | contracts/InstructionSender.sol:376-390 | `settle` rebuilds exactly the digest of the literal bytes the node signs: the four result parts, the 32-byte domain and chain id, and the 28-byte personal-message prefix of EIP-191. |
| Wire.SignerIs | contracts/InstructionSender.sol:515-532 | A signature recovers to a key exactly when it is 65 bytes r, s, v over that digest, v given as 0, 1, 27 or 28. |
| Codec.RecoveredResultWasSigned | contracts/InstructionSender.sol:376-391 | If the digest behind a recovered signature was signed, and the named keccak inputs do not collide, this very result was signed for this very chain. |
| Winner.PickWinner | go/internal/extension/winner.go:23-44 | The loop returns bidder and amount of the selection `Best`, or zero and not ok when there is none. |
| Winner.BetterIsStrictTotalOrder | go/internal/extension/winner.go:46-58 | The comparison is a strict order, total on bids with different arrival numbers. |
| Winner.BestIsUniqueMaximum | go/internal/extension/winner.go:19-44 | The selection is the one and only eligible bid that no eligible bid beats. |
| Winner.BestIgnoresListOrder | go/internal/extension/winner.go:23-44 | The selection depends on the set of bids, not on their order. |
| Winner.BestIsHeadOfRanking | go/internal/extension/winner.go:23-44 | The single pass equals: filter, sort, take the head. |
| Winner.RankedIsSortedPermutation | go/internal/extension/winner.go:46-58 | The reference sort is a sorted permutation. |
| Winner.ReserveFactors | go/internal/extension/winner.go:33-35 | Applying the reserve in the pass equals applying it to the reserve-free winner. |
| Winner.BestOfConcatenation | go/internal/extension/winner.go:28-39 | The winner of a concatenation is the better of the winners of its parts. |
| Winner.MoreBidsNeverLowerThePrice | go/internal/extension/winner.go:23-44 | Adding bids never lowers the price and never loses the winner. |
| Winner.IneligibleBidsNeverMatter | go/internal/extension/winner.go:30-35 | Bids for another contract or below the reserve can be deleted anywhere. |
| Tee.Extension.ProcessPlaceBid | go/internal/extension/extension.go:119-182 | The handler, run alone, refuses an absent or undecodable message, and otherwise is the transition `Place` with its refusals in order; it keeps the counter equal to what is stored. |
| Tee.PlacingIsExact | go/internal/extension/extension.go:131-177 | A bid is accepted exactly when its ciphertext is nonempty, the auction is not closed, and the plaintext exists, agrees with the wrapper in bidder and auction and offers a positive amount; the list then ends in one more bid with the encrypted bidder, contract and amount and the instruction's time, and nothing else changes; a refusal changes nothing. |
| Tee.VettingIsExact | go/internal/extension/extension.go:145-166 | Plaintexts pass unchanged, and each refusal's reason holds. |
| Protocol.AnswerIsExact | go/internal/extension/extension.go:179-222 | Which signed answer each instruction gets. |
| Tee.Extension.ProcessCloseAuction | go/internal/extension/extension.go:187-222 | The handler refuses an absent or undecodable message; otherwise it marks the auction closed, keeps all bids, and returns bytes that decode to the selection over the stored list. |
| Tee.Extension.StateHandler | go/internal/extension/extension.go:53-67 | Whatever order the map is walked in, the count is the number of stored bids, which the counter holds in 64 bits. |
| Tee.AppendCounts | go/internal/extension/extension.go:168-177 | An append keeps the counter equal to the stored total (mod 2^64), arrival numbers rising within each list and never repeated across lists. |
| Handlers.CounterHoldsInEveryInterleaving | go/internal/extension/extension.go:137-177 | The above in every interleaving of handlers. |
| Handlers.OnlyInFlightBidsArriveLate | go/internal/extension/extension.go:137-206 | After a close, through any interleaving, the list grows only by bids already past their closed check at it, each at most once. |
| Handlers.ClosedListIsFrozen | go/internal/extension/extension.go:137-206 | With none in flight the list is frozen for good. |
| Handlers.CloseSelectsFromAPrefix | go/internal/extension/extension.go:200-209 | Every close answers with the selection over a prefix of the final list. |
| Handlers.ClosesAgree | go/internal/extension/extension.go:184-209 | Of two closes with the same message the later price is never lower, and they agree if the list did not change or nothing was in flight. |
| Handlers.OneByOneIsDeliverAll | go/internal/extension/extension.go:119-222 | Serialized handlers are the special case of interleaved ones. |
| Handlers.SerializedClosesAgree | go/internal/extension/extension.go:184-187 | With serialized handlers, closing again always reproduces the result. |
| Reclose.AnswerIsFinalExactlyWithoutOvertaker | go/internal/extension/extension.go:184-209 | With overlapping handlers a closed auction's answer is final within the TEE process if and only if no bid in flight would replace the selected one by another bidder or price. |
| Reclose.ClosingAgainCanDiffer | go/internal/extension/extension.go:168-206 | An interleaving in which the first close names no winner and the second, identical one does. |
| Replay.ReplayUntilRestartIsHarmlessExactlyWithoutOvertaker | contracts/InstructionSender.sol:353-402 | For a closed auction in any allowed run, presenting the current answer, now or later, settles to the same end as presenting any answer the same TEE process signs later, if and only if no bid in flight overtakes; continuations with a restart are the next row. |
| Ends.AnswersSettleAlikeExactlyWithoutContender | contracts/InstructionSender.sol:353-402 | Over all allowed continuations, restarts and registrations included: any two signed results about a pending auction that its reserve does not rule out settle it alike, if and only if nothing in the queue contends. |
| Disruption.OutdatedAnswerCancels | contracts/InstructionSender.sol:353-402 | A run with two close instructions, answered in turn under different action ids, the first before the second is mined: the second answer names a funded bidder and would settle, presenting the first cancels the auction, and comparing the action id with the latest close would have refused it. |
| Delivery.OrderOfDeliveryHardlyMatters | go/internal/extension/extension.go:168-177 | Reordering whatever is delivered before the close of an auction, closes of other auctions included, never changes its price, and changes its winner only on a tie of different bidders for best amount and timestamp. |
| Delivery.OrderDecidesExactlyOnTies | go/internal/extension/extension.go:168-177 | Some order of the same deliveries gives another winner if and only if different bidders tie for best amount and timestamp. |
| Delivery.SelectionIgnoresArrivalNumbers | go/internal/extension/winner.go:46-58 | On a list in arrival order the selection is the first offer with the best amount and timestamp. |
| Delivery.OnlyFirstDeliveriesMatter | go/internal/extension/extension.go:168-177 | The result depends on the first delivery of each instruction alone, whatever else is delivered before the close. |
| Delivery.DuplicateDeliveryIsHarmless | go/internal/extension/extension.go:168-177 | One more delivery of an instruction already delivered, anywhere before the close, changes nothing. |
| Queue.DisciplineHoldsInEveryRun | contracts/InstructionSender.sol:282-328 | In every run each bid instruction was emitted before its auction's deadline by an outside account, each close instruction from the deadline on with that auction's fixed terms, and no bid follows a close. |
| Queue.BidsPrecedeCloses | contracts/InstructionSender.sol:282-328 | Every bid instruction of an auction precedes every close instruction of it, and all its close messages are identical. |
| Queue.InOrderTeeNeverRefusesAsClosed | go/internal/extension/extension.go:137-143 | A TEE fed in order never turns away a mined bid as already closed. |
| Queue.QueuedBidWasCommitted | contracts/InstructionSender.sol:282-303 | Every bid instruction in the queue was put at its position by a committed `placeBid` of its bidder at its timestamp. |
| Queue.CommittedBidIsQueued | contracts/InstructionSender.sol:282-303 | Every committed `placeBid` is in the queue from then on, where it was put. |
| Queue.EarlierIsQueuedFirst | contracts/InstructionSender.sol:282-303 | The queue keeps the order of the transactions. |
| Protocol.SettledMeansHighestBidWon | contracts/InstructionSender.sol:366-427 | End to end, in order: every settled auction was won by the sender of a bid committed before the deadline, at that bid's amount, at or above the reserve, and every other contending committed bid is behind it in amount, then block time, then order of transactions. |
| Protocol.CancelledExactlyWithoutContender | contracts/InstructionSender.sol:332-427 | An auction that ended is cancelled if and only if no committed bid contended. |
| Protocol.SelectionIsTop | go/internal/extension/winner.go:19-58 | After an in-order queue the selection is the contending bid with the highest amount, then earliest time, then first position; nothing exactly if nothing contends. |
| Protocol.CloseAnswerIsRight | go/internal/extension/extension.go:187-221 | The TEE's answer to a close is the answer about the whole queue whenever it gets to it, however much was emitted since. |
| Protocol.SoundInEveryRun | go/internal/extension/extension.go:119-222 | In every run all signed results, and all recorded ends, are the answer about the queue. |
| Progress.EndIsReachableOncePaid | contracts/InstructionSender.sol:305-427 | With in-order delivery to one TEE registered once: from every reachable state any outside account can bring a live auction to the end its bids require: cancelled if nothing contends, settled to the top bid if that bidder covers it; otherwise it is left closing. |
| Progress.NobodyEndsAnUnpaidAuction | contracts/InstructionSender.sol:332-427 | With in-order delivery to one TEE, registered once and never restarted: as long as the winner due never covers the price, nothing any account does, the seller included, gets a closing auction out of closing or changes who is due. |
| Progress.EndsExactlyThroughPayment | contracts/InstructionSender.sol:332-427 | Under the same assumptions a closing auction with a contender can still end if and only if a state can be reached in which the top bidder covers the price. |
| Ends.PendingCanBeCancelled | go/internal/extension/extension.go:20-34 | Without these assumptions: in every allowed run a closing auction under a registered TEE can still be cancelled, whoever is due and whether or not anyone pays. |
| Ends.SoldExactlyToThoseWhoPay | contracts/InstructionSender.sol:404-427 | In a continuation of any allowed run a closing auction can come to be sold to a buyer at a price if and only if it can come to a state in which a queued bid of that buyer at that price contends and the buyer covers it. |
| Ends.LeavesClosingExactlyWhenPresented | contracts/InstructionSender.sol:366-427 | In every allowed run a closing auction leaves that phase exactly at the presentation of a signed result without a winner, or with one who meets the reserve and covers the price. |
| AnyDelivery.SettledMeansRealBidWon | contracts/InstructionSender.sol:366-427 | With instructions lost, repeated or reordered, handlers overlapping, TEEs restarting and keys rotating, every settled auction was still won by a timely committed bid at its own amount and at the reserve. |
| AnyDelivery.GenuineInEveryRun | go/internal/extension/extension.go:119-222 | Under the same disturbances every stored bid, every signed winner and every recorded winner has a real bid instruction behind it. |
| AnyDelivery.OutputsAreTheAnswer | go/internal/extension/extension.go:179-222 | The interleaved steps of one handler, run alone, sign exactly the one answer its instruction gets. |
| Rightness.AnswerIsRightExactlyIfNothingBetterIsMissing | go/internal/extension/extension.go:187-221 | In every such run the answer to the contract's close is right about the queue if and only if no contender missing from what the TEE holds outbids it, or ties it earlier than all its winner's bids at that price. |
| Disruption.RestartCancels | go/internal/extension/extension.go:20-34 | A run in which a bid at the reserve is mined, delivered and accepted, the TEE restarts, and its signed answer cancels the auction. |
| Hostile.HonestLotsSurviveHostileTokens | contracts/InstructionSender.sol:171-180 | Over every run in which every token may call back around each transfer and any lot or pay token may misbehave: well-behaved coins cover all live lots of them, live lots in well-behaved NFTs are held and no two are the same, any of these can be released to anyone, and nobody else can move them. |
| Hostile.ActKeepsHonestEscrow | contracts/InstructionSender.sol:173-180 | One step of it: with the guard up, callbacks cannot take a lot held in a well-behaved token or have one counted twice. |
| Unguarded.WithoutTheGuardADepositCountsTwice | contracts/InstructionSender.sol:248-268 | Without the guard, a creation inside another's token call leaves claims of 15 on holdings of 10. |
| Hostile.BehavedMovesAreOrdinary | contracts/InstructionSender.sol:233-427 | When all tokens behave and call nothing back, every call with callbacks is the ordinary call, refusals included. |
| Registration.Registrar.RegisterNode | tools/pkg/fccutils/registration.go:59-172 | The command, resuming from the saved file, is the transition `Attempt`. |
| Registration.ResumptionIsFaithful | tools/pkg/fccutils/registration.go:65-171 | However often it is stopped and resumed and whichever saves fail, the saved steps are a prefix of rRa, every availability check names the latest attestation, everything fetched or promoted is the latest check, and reported success means promotion. |
| Registration.AttemptDoesItsPlan | tools/pkg/fccutils/registration.go:74-167 | One attempt, for every command and every saved record, does exactly the steps asked for and not on record, in the order r, R, a, p, with the ids the outside gave, pre-registering exactly a machine not yet on chain, until one fails; it succeeds exactly if none does. |
| Registration.UndisturbedFromTheStart | tools/pkg/fccutils/registration.go:74-167 | From the start with every answer good, a new machine is pre-registered, attested, checked, fetched and promoted, each with the id of the step before. |
| Registration.PolicyStopsBeforeTheCheck | tools/pkg/fccutils/registration.go:132-140 | A signing policy out of step stops the attempt before the check is requested. |
| Registration.RemovalNeedsSuccess | tools/pkg/fccutils/registration.go:65-69 | The state file is removed by a success only, and one that cannot be read or parsed stops the attempt. |
| Registration.NothingIsRepeated | tools/pkg/fccutils/registration.go:65-171 | While saves work, none of the steps r, R and a is done twice before the attempt that succeeds; fetching and promoting may repeat. |
| NftScan.ScanAgreesWithLedger | frontend/lib/nft.ts:107-152 | The capped scan's list is complete if and only if it is not flagged truncated. |
| NftScan.EnumerationIsCompleteUnlessFlagged | frontend/lib/nft.ts:42-77 | The list returned is exactly the owner's ids up to 600, ascending and without repeats; it is complete if and only if it is not flagged; the explorer is asked exactly for owners whose ids all lie beyond. |

## Left out

- SealedAuctionContract.SealedAuction.SettleResult: tokens are values in maps the contract object
  holds, not objects of their own, and answer at once; callbacks are in `Hostile`, on values.
- SealedAuctionContract.SealedAuction.constructor: the checks on the two registry addresses.
- SealedAuctionContract.SealedAuction.Bid: the registries, extension ids, native fees, gas and
  `setExtensionId` are one yes-or-no answer given with the transaction; likewise for
  SealedAuctionContract.SealedAuction.Close. An accepted instruction is appended to the queue with
  its block time.
- Hostile.HonestLotsSurviveHostileTokens: says nothing of lots in the misbehaving tokens themselves.
  Callbacks come before and after the movement of a ledger, never between its writes.
- Tokens deployed during a run.
- Erc20.DoConservesSupply: MockERC20's own mint has no supply cap; a mint past 2^256 - 1 in total is
  refused in runs, as EIP-20's `totalSupply` implies.
- Protocol.SettledMeansHighestBidWon: assumes in-order delivery to one TEE with serialized handlers,
  no restart and no second registration. Between bids of one amount and one block time, the order of
  transactions decides as long as fewer than 2^64 instructions were emitted, since the arrival
  counter wraps. Rightness and AnyDelivery say what remains without the delivery assumptions.
- Progress.NobodyEndsAnUnpaidAuction: under the same assumptions; a restart or a new registration does
  end such an auction, see Ends.PendingCanBeCancelled.
- Progress.EndsExactlyThroughPayment: under the same assumptions; without them see
  Ends.SoldExactlyToThoseWhoPay.
- Replay.ReplayUntilRestartIsHarmlessExactlyWithoutOvertaker: one TEE process; over restarts see
  Ends.AnswersSettleAlikeExactlyWithoutContender.
- Ends.PendingCanBeCancelled: that a registered key can sign is a parameter (`Ends.KeysSign`).
- Delivery.OrderDecidesExactlyOnTies: for fewer than 2^64 deliveries, as are
  Reclose.AnswerIsFinalExactlyWithoutOvertaker and the other statements about arrival order; the wrap
  of the counter itself is modelled.
- Progress.EndIsReachableOncePaid: says a right continuation exists, not that anyone takes it;
  delivery to the TEE and presenting its answer are steps of that continuation.
- Tee.Extension.ProcessPlaceBid: ABI decoding of messages and payload is taken as done, with failure as
  an outcome; a missing big integer cannot occur after a successful decoding. The payload's salt is
  dropped.
- ECIES, `ecrecover` and keccak themselves.
- HTTP, JSON envelopes, op-code routing and logging.
- The enum's unused value None, view functions, `tokenURI`, ERC-165, and event fields that repeat the
  record.
- `safeTransferFrom` and receiver callbacks: the contract never uses them.
- RPC and explorer failures in `frontend/lib/nft.ts`, ERC721Enumerable collections, and reads spread
  over several blocks.
- Crashes of the registration process in the middle of writing are the outcome Torn of a save; waits
  and the content of the attestation are left out.
- Frontend components, deployment tools and scripts.
