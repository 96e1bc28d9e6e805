# A verified model of the banco swap

bancod lets a *maker* post a swap offer as a VTXO and lets a *taker* bot find it on the arkd
transaction stream, decide whether it is worth taking, and settle it in one Ark transaction that a
covenant guards. This project models that path in Dafny, from the wire bytes of an offer to the
settled transaction, together with the concurrent runtime and the decision layer around it, and
proves what the design promises about them. `dafny verify dfyconfig.toml` checks everything.

| file | models |
|---|---|
| `Base.dfy` | machine integers, casts, big-endian words, permutation lemmas |
| `Tlv.dfy`, `Offers.dfy`, `OfferCodec.dfy`, `OfferPrinter.dfy`, `WireFormat.dfy` | the offer record, its TLV parser and printer, and the format in literal bytes |
| `ScriptNumbers.dfy`, `Script.dfy`, `Covenant.dfy` | the stack machine, the fulfil-script compiler and its meaning |
| `Contract.dfy` | the swap contract, extension packets, the maker |
| `Wallet.dfy`, `Routing.dfy`, `PacketBuilder.dfy`, `Fulfillment.dfy` | the taker: selection, BTC change, asset routing, settlement |
| `SolverRun.dfy`, `Source.dfy`, `Service.dfy` | solver loop and solve goroutines, arkd source, Start/Stop |
| `PriceCache.dfy`, `PriceRace.dfy` | the TTL price cache, one call at a time and concurrently |
| `Pairs.dfy`, `Builder.dfy`, `Gate.dfy` | pair store and service, staged plugins, the banco gate |

## How to read it

Foreign code is a record of functions passed as a parameter (`Codecs`, `TapLib`, `PacketLib`,
`World`, `Surroundings`); what is assumed of it is a named predicate in a `requires` clause
(`Lawful`, `Canonical`, `GoodAsset`, `AddressesAgree`, `Binding`). A concurrent component is a function that
maps a state and a label to the next state; a run is any sequence of labels, so a lemma over all label
sequences is a statement about every interleaving. Walks over Go maps choose the next key arbitrarily, so a method
contract holds for every iteration order.

A panic in a plugin's Match acts as a declined match, and a panic in Solve as its return: the deferred
recovery of `safeMatch` and `safeSolve` is part of those labels, and the `panicked` flag only records
which way a solve ended. Maker and taker derive the swap script in two ways, through the swap address
and through `P2TRScript`; `AddressesAgree` says that both give the same script for the same tap key.

Assumptions on opcodes come from the comments at pkg/contract/offer.go:266-269 and 281-283: numbers
are pushed as minimal sign-magnitude little-endian strings of any size, `INSPECTOUTPUTSCRIPTPUBKEY`
pushes the witness program and, above it, the version (-1 with a digest for other scripts), and
`INSPECTOUTASSETLOOKUP` takes output index, txid and group index and pushes the amount and, above
it, a found flag. The lookup reads the group at that index of the asset packet and compares the
group's issuing txid; the compiled script names only the txid of the wanted asset, not its index, so
an asset of the same issuance passes for the wanted one (`SiblingAccepted`).

Where code and documentation differ, the model follows the code:

- pkg/banco/pair.go:8-11 documents pairs such as `X/BTC`, but an offer that wants BTC is looked up
  with the empty quote (pkg/banco/offer.go:93-98) and stored quotes are never empty, so no stored
  pair matches it (`BtcWantNeverMatches`).
- pkg/contract/offer.go:282 speaks of a single asset group; the taker emits one group per input
  asset, the wanted one first.
- The maker script is documented as `OP_1 PUSH32` plus a key (pkg/contract/offer.go:45); the parser
  checks its length only. `SettlementMeetsCovenant` says exactly which scripts the covenant can pay.
- The maker key is documented as required with a cancel or exit path (pkg/contract/offer.go:46);
  the parser does not ask for it (`KeylessCancelFound`), and the leaves then lack a key
  (`LeavesKeyedIff`).

Properties that fail outside a range are stated with their exact condition: the round trip
(`RoundTripIff`), the covenant's meaning (`CovenantMeansWantIff`, `CovenantExactIff`), index alignment
(`AlignedIff`, no asset beyond input 65535), asset conservation (`AssetConserved`, inputs cover the
want and sum below 2^64), conservation of sats (`BtcConserved`), truncation (`TruncationIff`).

## Model

| member | source | states |
|---|---|---|
| `Tlv.SplitEncodeAll` | pkg/contract/offer.go:348-354 | printed records followed by any bytes split back into the same records and the split of those bytes |
| `Tlv.EncodeSplit` | pkg/contract/offer.go:61-81 | any byte string that splits without a cut is the printed form of its records |
| `Tlv.SplitPrefix` | pkg/contract/offer.go:61-77 | a strict prefix of printed records splits into a strict prefix of the records, and is cut unless it ends on a record boundary |
| `OfferCodec.DeserializeOffer` | pkg/contract/offer.go:53-176 | the offset loop terminates and computes "split into records, fold them in, check required fields", with the same error; `DecodeWire` states it in bytes |
| `OfferCodec.AcceptedIff` | pkg/contract/offer.go:61-175 | bytes are accepted iff they split into whole, individually valid records with the four required types and a 34-byte maker script; the offer is then read off the last record of each type |
| `OfferCodec.RejectedWhy` | pkg/contract/offer.go:61-173 | why bytes are rejected: the first invalid record, as an unknown type or an invalid field by type number; else a cut; else the first missing of types 1, 2, 5, 8; else a maker script that is not 34 bytes |
| `OfferCodec.OrderIrrelevant` | pkg/contract/offer.go:61-173 | records of pairwise distinct types give the same verdict and the same offer in any order |
| `OfferPrinter.Buffer.EncodeTlv` | pkg/contract/offer.go:348-354 | appends type byte, uint16 big-endian length and value |
| `OfferPrinter.Serialize` | pkg/contract/offer.go:180-239 | the buffer writes produce the printed record list of the offer, or fail on the first asset ID that does not print; `PrintWire` states it in bytes |
| `OfferPrinter.PrintThenDecode` | pkg/contract/offer.go:53-239 | a well-formed offer prints, and its bytes parse to the same offer |
| `OfferPrinter.AcceptedWellFormed` | pkg/contract/offer.go:53-176 | every offer the parser accepts is well formed |
| `OfferPrinter.RoundTripIff` | pkg/contract/offer.go:53-239 | printing then parsing gives the offer back iff it is well formed: swap script under 65536 bytes, 34-byte maker script, introspector key set, x-only keys, printable assets |
| `OfferPrinter.RoundTripLiftsKeys` | pkg/contract/offer.go:107-138 | an offer with keys of either parity comes back with both keys lifted to even y and nothing else changed |
| `OfferPrinter.PrintInjective` | pkg/contract/offer.go:180-239 | well-formed offers with equal bytes are equal |
| `OfferPrinter.Normalisation` | pkg/contract/offer.go:99-151 | re-printing any accepted bytes' offer and parsing again gives the same offer |
| `OfferPrinter.TruncationIff` | pkg/contract/offer.go:61-77 | a strict prefix of a well-formed offer's bytes is accepted iff the offer has an exit delay and the prefix is the print of the offer without it, to which it then parses |
| `WireFormat.DecodeWire` | pkg/contract/offer.go:22-34 | literal bytes with the eleven type numbers, big-endian 16-bit lengths and 64-bit words parse to the offer whose fields they spell, for all values of the right sizes; exit type byte 1 is seconds, any other blocks, and the delay keeps 32 bits |
| `WireFormat.PrintWire` | pkg/contract/offer.go:180-239 | every well-formed offer prints as those literal bytes, zero words and unset fields left out, seconds as type byte 1 and blocks as 0 |
| `WireFormat.OtherTypesRejected` | pkg/contract/offer.go:152-153 | a byte string with a record of any other type number is rejected |
| `ScriptNumbers.NumRoundTrip` | pkg/contract/offer.go:266-269 | reading a pushed number gives it back, for every integer |
| `ScriptNumbers.NumShape` | pkg/contract/offer.go:266-269 | a pushed number is empty for zero, else has its sign in the top bit of the last byte, its low bits in the first byte, and no byte to spare |
| `Covenant.FulfillScript` | pkg/contract/offer.go:253-295 | the builder emits the amount check for the wanted asset or BTC and then the output script check |
| `Covenant.PkScriptCheckRuns` | pkg/contract/offer.go:256-263 | the output script check leaves true iff output 0 has witness version 1 and the given program, and fails on other versions or without outputs |
| `Covenant.CovenantMeaning` | pkg/contract/offer.go:253-295 | for every transaction the compiled script accepts iff output 0 pays the maker's program under version 1 and carries int64(WantAmount) sats, or asset group 0 is issued by the wanted asset's transaction and its first entry for output 0 carries int64(WantAmount) units |
| `Covenant.ToMakerIff` | pkg/contract/offer.go:254-263 | for a 34-byte maker script, the script's output check means that output 0's script is the bytes 0x51 0x20 followed by the maker's program |
| `Covenant.PaysIff` | pkg/contract/offer.go:253-295 | for a want below 2^63, a transaction pays the maker WantAmount of the very asset wanted iff the script accepts it and asset group 0 has the wanted issuance index |
| `Covenant.PaidUnitsReceived` | pkg/contract/offer.go:280-293 | a transaction that pays an asset want hands output 0 at least WantAmount of that asset, counted by full ID over the whole packet |
| `Covenant.SiblingAccepted` | pkg/contract/offer.go:286-289 | a payment in any other asset of the wanted asset's issuing transaction is accepted although the maker receives none of the wanted asset |
| `Covenant.HugeWantAcceptsNothing` | pkg/contract/offer.go:273-290 | for a want of 2^63 or more a payment of nothing is accepted |
| `Covenant.CovenantMeansWantIff` | pkg/contract/offer.go:253-295 | over all transactions whose asset group 0 has the wanted index, the script accepts exactly those that pay, iff WantAmount is below 2^63 |
| `Covenant.CovenantExactIff` | pkg/contract/offer.go:253-295 | over all transactions, the script accepts exactly those that pay iff the want is BTC and below 2^63 |
| `Contract.VtxoScript` | pkg/contract/offer.go:298-332 | the fulfil leaf is keyed by the server and the introspector key tweaked by a script that accepts exactly the transactions paying the maker int64(WantAmount); then, if set, the cancel leaf with its time lock and the exit leaf with its delay, each for maker and server in this order; nothing else |
| `Contract.LeavesKeyedIff` | pkg/contract/offer.go:298-332 | every leaf has all its keys iff an offer with a cancel or exit path names the maker's key |
| `Contract.ConsistentIff` | pkg/contract/taker.go:58-75 | the taker's check passes iff the offer names the P2TR script of the tap key of its own contract, described without the code that builds it |
| `Contract.CompileInjective` | pkg/contract/offer.go:253-295 | two offers compile to the same script iff they have the same want amount, the same issuing transaction or BTC, and the same maker program |
| `Contract.FulfilLeafCommits` | pkg/contract/offer.go:298-309 | when tweaks do not collide, two fulfil leaves agree iff server, introspector and covenant do |
| `Contract.TamperedOfferFails` | pkg/contract/taker.go:58-75 | when hashes do not collide, an offer naming a consistent offer's swap script is itself consistent iff all its terms are the same: want, maker program, introspector, cancel and exit paths |
| `Contract.FindBancoOffer` | pkg/contract/offer.go:336-346 | nothing without a packet of type 3, an error for an unexpected kind, else the parse of the first such packet |
| `Contract.FoundInPackets` | pkg/contract/offer.go:336-346 | nothing is found iff no packet has type 3; otherwise the packet at the first such position decides: unexpected kind, parse error or offer |
| `Contract.FoundOfferWellFormed` | pkg/contract/offer.go:336-346 | every offer found in an extension is well formed |
| `Contract.KeylessCancelFound` | pkg/contract/offer.go:157-173 | any well-formed offer, given a cancel time and no maker key, is still found in an extension, and its cancel leaf has no maker key |
| `Contract.CreateOffer` | pkg/contract/maker.go:43-141 | refuses cancel and exit, otherwise prints the intended offer, with the script of the address of its own contract's tap key filled in, and wraps those bytes as a type 3 packet |
| `Contract.WireKeepsConsistency` | pkg/contract/taker.go:58-75 | an offer passes the reconstructed-script check after crossing the wire iff it did before |
| `Contract.MakerTakerAgree` | pkg/contract/maker.go:91-134 | when the maker's packet is the first of its type, the taker finds the maker's offer field by field, with only swap script, want, maker script and the even introspector key set, and its consistency check passes under the same server key |
| `Wallet.SelectVtxos` | pkg/contract/taker.go:108-127 | the nested loop takes exactly the VTXOs that are not recoverable and sit at a wallet address, once per such address, by address position and then list position, each with that address's tapscripts |
| `Wallet.PickMultiplicity` | pkg/contract/taker.go:108-127 | every VTXO is picked once per listing and per wallet address it is spendable at |
| `Wallet.PickedExactlyOnce` | pkg/contract/taker.go:108-127 | with distinct addresses and outpoints a VTXO is picked exactly once if it is listed, not recoverable and at one of the wallet's addresses, and not at all otherwise |
| `Wallet.PickedAtOwnAddress` | pkg/contract/taker.go:120-125 | every picked VTXO is listed, not recoverable, and carries the tapscripts of a wallet address it sits at |
| `Wallet.PickOrderIrrelevant` | pkg/contract/taker.go:109-127 | another address order picks the same VTXOs and the same sats |
| `Wallet.TotalSats` | pkg/contract/taker.go:145-148 | the uint64 total is the true sum modulo 2^64 |
| `Wallet.BtcCongruent` | pkg/contract/taker.go:150-167 | maker plus taker output equals swap plus taker input up to a multiple of 2^64, for all inputs |
| `Wallet.BtcConserved` | pkg/contract/taker.go:150-167 | for all totals and wants: when the split succeeds, that it conserves every sat iff what is left for the taker is below 2^63, and that the maker output is negative iff a BTC want is 2^63 or more and otherwise the exact want or dust carrier |
| `Routing.AssetConserved` | pkg/contract/taker.go:392-422 | for all entries: exactly WantAmount of the wanted asset and nothing else reaches output 0, the rest of the uint64 total reaches output 1, and outputs sum to inputs iff the inputs cover the want and their sum is below 2^64 |
| `Routing.OverflowLosesUnits` | pkg/contract/taker.go:407-417 | two inputs of 2^63 units cover a want of one, and one unit is all that comes out |
| `Routing.WantedFirst` | pkg/contract/taker.go:424-456 | the wanted asset's group is at index 0, its first output pays the maker WantAmount, and no other group has its ID |
| `Routing.OrdersAgree` | pkg/contract/taker.go:424-456 | any two iteration orders give the same groups, the same first group for an asset want |
| `Routing.AlignedIff` | pkg/contract/taker.go:366-386 | every transfer takes from every transaction input exactly the entries it holds, in order and once each, iff no asset sits beyond input 65535 |
| `Routing.InputIndexInRange` | pkg/contract/taker.go:376-385 | every asset input index is that of a transaction input |
| `PacketBuilder.RegisterInputs` | pkg/contract/taker.go:357-386 | the transfer map ends up with one record per input asset holding that asset's inputs, or an input is refused |
| `PacketBuilder.AddChange` | pkg/contract/taker.go:406-422 | in any iteration order, every transfer gets its own change output and keeps the rest |
| `PacketBuilder.CollectGroups` | pkg/contract/taker.go:424-456 | in any iteration order, lists each input asset's group once with the wanted one first, or fails iff some group is refused |
| `PacketBuilder.BuildAssetPacket` | pkg/contract/taker.go:347-463 | no packet iff no input holds an asset, even for an asset want; not-found iff the inputs hold assets but not the wanted one; else the routed groups, or an error iff a constructor refuses |
| `Fulfillment.FulfillOffer` | pkg/contract/taker.go:43-292 | settles iff the offer is consistent, both sides have VTXOs, the taker can pay the sats, the packet (if there are assets) and the extension output can be built; each error occurs exactly under its condition; a settlement has swap VTXO and taker VTXOs as inputs in order, maker, taker and extension outputs, introspector entry for input 0 with the compiled script, and the routed packet |
| `Fulfillment.SettlementMeetsCovenant` | pkg/contract/taker.go:150-198 | the settlement satisfies its covenant iff the maker script pays its own program and, for an asset want, a packet was produced; the introspector entry is for input 0, the swap VTXO, and its script is the one whose tweak keys that VTXO's fulfil leaf |
| `Fulfillment.SettlementPaysMaker` | pkg/contract/taker.go:150-198 | for a taproot maker and a want below 2^63 the settlement pays the maker, an asset by its full ID: always for BTC, for an asset iff a packet was produced |
| `Fulfillment.MakerReceivesExactly` | pkg/contract/taker.go:392-456 | whenever a packet was produced for an asset want, output 0 receives exactly WantAmount of that asset over the whole packet |
| `Fulfillment.SettlementConservesSats` | pkg/contract/taker.go:145-167 | maker and taker outputs sum to all input sats iff what is left for the taker is below 2^63; the maker gets exactly the want or 330 unless a BTC want of 2^63 or more turned negative; the first output pays the maker's script, the second the taker's |
| `Fulfillment.SettlementConservesAssets` | pkg/contract/taker.go:183-192 | the groups' IDs are those of the input assets, one group each; each group pays the maker only the wanted amount, returns the rest to output 1, hands out what it takes iff the inputs cover the want and sum below 2^64, and takes from each input what it holds |
| `Fulfillment.SwapEndToEnd` | pkg/contract/taker.go:43-198 | an offer made by CreateOffer, found in an extension and settled pays the maker's own script exactly the sats, or the units of the very asset, asked for |
| `SolverRun.WaitGroupCountsSolves` | pkg/solver/solver.go:50-78 | in every interleaving the wait group counts the solves in flight plus the one being started, and solves start once per accepted match, in order |
| `SolverRun.RunReturns` | pkg/solver/solver.go:50-99 | when Run returns: every received packet was matched by every plugin in registration order, every accepted match was solved to the end whatever panicked, nothing is in flight, nil only after close and ctx.Err() only after cancel |
| `SolverRun.ShutdownProgress` | pkg/solver/solver.go:54-64 | once cancelled or closed, Run always has an enabled step of its own until it returns |
| `SolverRun.PanicsContained` | pkg/solver/solver.go:80-99 | a match may panic whenever it may run and then leaves the same as declining; a solve may end by a panic or not, with the same effect |
| `SolverRun.ReturnPossible` | pkg/solver/solver.go:50-78 | once cancelled or closed, Run can return from wherever it is by its own and its solves' steps, whatever the plugins decide and whether or not solves panic; a closed queue is received and matched first |
| `Source.DeliveredInOrder` | pkg/solver/arkdsource/arkdsource.go:33-76 | in every run the packets handed to plugins are a prefix of the stream's decodable ArkTx events, with strictly growing positions; at most one is buffered |
| `Source.DeliveredAll` | pkg/solver/arkdsource/arkdsource.go:33-76 | if Run returns uncancelled it returns nil and, the subscription having succeeded, all ArkTx events were matched by every plugin in order |
| `Source.CancelledSourceLeaves` | pkg/solver/arkdsource/arkdsource.go:66-70 | a cancelled source, even blocked in a send on a full channel, can leave and close the channel |
| `Source.FullRunPossible` | pkg/solver/arkdsource/arkdsource.go:33-76 | for every stream and every outcome of every match, panics included, some run matches all ArkTx events with these outcomes, solves every accepted one to the end and returns nil |
| `Service.NotRunningMeansQuiet` | internal/core/application/service.go:77-112 | whenever the status is not running, no solve is in flight |
| `Service.StopMeansStopped` | internal/core/application/service.go:77-112 | over every alternation of Start and Stop, when Stop has returned the status is not running, the goroutine is gone and no solve is in flight |
| `Service.StopProgress` | internal/core/application/service.go:94-99 | while Stop waits, the run goroutine or the solver always has an enabled step |
| `Service.StartPossible` | internal/core/application/service.go:77-92 | from any stopped state, Start can bring up a running solver on a fresh stream |
| `Service.StopPossible` | internal/core/application/service.go:94-99 | from every state in which Stop waits there are steps of solver, solves and goroutine after which it returns, whatever the plugins decide and whether or not solves panic |
| `PriceCache.TrimMeaning` | pkg/banco/price.go:38 | a URL is its trimmed form with white space on either side, and the trimmed form neither starts nor ends with white space |
| `PriceCache.SameKeyIff` | pkg/banco/price.go:38 | two URLs share a cache entry iff they are the same text up to surrounding white space |
| `PriceCache.CallMeaning` | pkg/banco/price.go:37-62 | an entry younger than the TTL answers and nothing changes; else a successful fetch answers and is stored at its clock reading; a failed one changes nothing and answers stale or not at all |
| `PriceCache.FeedsApart` | pkg/banco/price.go:37-62 | between URLs that differ in more than surrounding white space, a call for one leaves the other's entry and all its later answers alone |
| `PriceCache.PaddedFeedHits` | pkg/banco/price.go:37-62 | a price fetched under one padding of a URL answers every other padding of it while it is young |
| `PriceCache.Cache.Get` | pkg/banco/price.go:37-62 | answers and updates as `CallMeaning` says, at the trimmed key |
| `PriceRace.FreshQuote` | pkg/banco/price.go:37-62 | in every interleaving, a price returned without error came from a successful fetch for the trimmed URL the call began with, which began less than the TTL before the call's clock reading, or later |
| `PriceRace.StaleQuote` | pkg/banco/price.go:50-54 | a stale price is that of the entry the call read, once returned by a successful fetch for its key |
| `PriceRace.OnlyWritesChangeCache` | pkg/banco/price.go:49-59 | in every interleaving only the write after a successful fetch changes the cache, and only at the call's own key; failed fetches never do |
| `PriceRace.UninterruptedGet` | pkg/banco/price.go:37-62 | a call that nothing interrupts answers and updates as `Cache.Get` |
| `Pairs.NameFromParts` | pkg/banco/pair.go:23-38 | base and quote are what stands around the first "/", or the whole name and nothing; they determine the name |
| `Pairs.SplitNameIff` | internal/core/application/service.go:254-260 | a name splits iff it does not start with "/" and has one before its last character; the sides are nonempty and the cut is at the first "/" |
| `Pairs.ValidateIff` | internal/core/application/service.go:262-282 | a pair validates iff 0 < min <= max, its name splits and it has a feed |
| `Pairs.ResolveIff` | internal/core/application/service.go:204-252 | decimals resolve iff the name splits and each side is BTC or has a number in the indexer that is not negative; only the two decimals change, to 8 for BTC and else to that number |
| `Pairs.RowRoundTrip` | internal/infrastructure/db/sqlite/repo.go:39-87 | storing and loading a pair loses nothing, for every uint64 amount |
| `Pairs.PairRepository.Add` | internal/infrastructure/db/sqlite/repo.go:39-49 | inserts under the name unless it exists |
| `Pairs.PairRepository.Update` | internal/infrastructure/db/sqlite/repo.go:53-70 | replaces the row of the name, or reports not found |
| `Pairs.PairRepository.Remove` | internal/infrastructure/db/sqlite/repo.go:73-75 | drops the row of the name |
| `Pairs.PairRepository.List` | internal/infrastructure/db/sqlite/repo.go:25-36 | every stored pair once, in an arbitrary order |
| `Pairs.PairService.AddPair` | internal/core/application/service.go:115-124 | succeeds iff the pair resolves, validates and is new; reports an existing name and a bad format exactly when that is the reason; the table changes accordingly |
| `Pairs.PairService.UpdatePair` | internal/core/application/service.go:127-136 | succeeds iff the pair resolves, validates and exists; reports a missing name and a bad format exactly when that is the reason; the table changes accordingly |
| `Pairs.PairService.RemovePair` | internal/core/application/service.go:139-144 | refuses the empty name, otherwise removes (`RequestEffect`) |
| `Pairs.RequestEffect` | internal/core/application/service.go:115-144 | each request in rows: other names keep theirs; a removed name has none; an added or updated admissible pair is stored with its resolved decimals, and otherwise its name keeps its row |
| `Pairs.StoreStaysSound` | internal/core/application/service.go:115-144 | over every run of requests every stored pair keeps 0 < min <= max, a splittable name, a feed and decimals that are not negative |
| `Pairs.FindMatchingPair` | pkg/banco/plugin.go:163-177 | the loop returns the first pair matching base and quote |
| `Pairs.FirstMatchIff` | pkg/banco/plugin.go:163-177 | the lookup returns a pair iff it stands at the first position whose base is the deposit and whose quote is the want |
| `Pairs.AtMostOneMatch` | pkg/banco/plugin.go:163-177 | at most one stored pair matches an offer |
| `Pairs.MatchIgnoresOrder` | pkg/banco/plugin.go:163-177 | the matched pair does not depend on the list order |
| `Pairs.BtcWantNeverMatches` | pkg/banco/offer.go:93-98 | an offer that wants BTC matches no stored pair |
| `Builder.Builder.Build` | pkg/solver/builder/builder.go:97-111 | panics on a missing decode, then on a missing solve, else copies the stages |
| `Builder.Match` | pkg/solver/builder/builder.go:121-144 | yields the decoded intent iff every stage passes, and runs exactly the stages up to the first that does not |
| `Gate.NewOfferFromExtension` | pkg/banco/offer.go:36-77 | the nested loops compute the offer with its deposit, nothing, or the parse error |
| `Gate.OfferFoundIff` | pkg/banco/offer.go:36-64 | a transaction yields an offer iff its extension holds one and the first output paying the swap script carries sats, whatever is deposited; it fails iff the packet does |
| `Gate.DepositMeaning` | pkg/banco/offer.go:45-74 | the deposit sits on the first output paying the swap script; it is that output's sats if no group that names an asset has an entry for it, else the asset and amount of the first such entry of the last such group |
| `Gate.PriceIsRate` | pkg/banco/offer.go:102-109 | the price in integers: want * 10^base * price == deposit * 10^quote for decimals that are not negative, and the shifted form for all decimals |
| `Gate.Pow10Add` | pkg/banco/offer.go:106-107 | the scaling function is the power of ten: sums become products and one becomes ten |
| `Gate.FeedMeaning` | pkg/banco/plugin.go:100-110 | the compared feed is the quoted price, or its inverse for an inverted pair; there is none without a quote, for a stale zero, or for an inverted zero |
| `Gate.PricePassIff` | pkg/banco/plugin.go:99-116 | the price check passes iff, at a positive quote, the deposit shifted by the pair's decimals is within 1% of what the want is worth, an inverted pair valuing the deposit instead |
| `Gate.NewPlugin` | pkg/banco/plugin.go:42-61 | the builder calls yield the plugin that GateIff is about: ForExtension's filter and parsing decode stage, then amount, price and balance checks in this order |
| `Gate.GateIff` | pkg/banco/plugin.go:66-136 | an intent reaches Solve iff it qualifies: an extension output, a parsed extension that yields its offer, the first listed pair named after deposit and want, the pair's window, the right price in amounts, and enough BTC for a BTC want |
| `Gate.SolvedOffersAreSound` | pkg/banco/plugin.go:66-136 | over every run of the pair service and every list order, an intent reaching Solve names the one stored pair called "deposit/want", with 0 < min <= want <= max and, in integers, deposit * 10^quote within 1% of want * 10^base at a positive quote (inverted pairs the other way round), and never wants BTC |

## Left out

- Signatures, key tweaking, taptree hashing, control blocks, PSBT encoding, `offchain.BuildTxs`, checkpoint signing and introspector submission: foreign libraries, entering only as functions of their arguments.
- Asset ID codecs and the `asset` constructors: not part of this model; they refuse or return their arguments, parsed IDs are assumed to round-trip and ID strings to be canonical.
- Opcode byte values and the size limits of `txscript.ScriptBuilder`: scripts are lists of opcodes, so the compiled byte string itself is not modelled.
- Gate.PricePassIff: prices are exact reals, so float64 rounding, overflow and NaN are not captured; 1/0 counts as an infinity that rejects.
- Gate.GateIff: price cache answers and wallet balance are those the stages see; the cache's own changes are in PriceCache and PriceRace; extension parsing is a function of the transaction that may fail.
- Contract.VtxoScript: `arklib.AbsoluteLocktime` and key serialisation inside leaves are functions of the value and of the x coordinate; what the library does with a leaf that lacks a key (an error or a panic) counts as no tap key.
- Fulfillment.FulfillOffer: stops at the arguments of `BuildTxs`; failures of address decoding, taptree proofs and txid parsing of taker VTXOs are not modelled.
- Source.DeliveredAll: the source goroutine of an earlier Start that has not yet noticed its cancellation is dropped by the next Start; it feeds a channel nobody reads.
- Service.StopMeansStopped: Start and Stop come from one caller that does not call Start twice without Stop, as in the daemon.
- Fairness and time bounds of the runtime: that Run and Stop return is stated as "some steps lead there from every state", not as something every scheduler brings about.
- Partial fill (RatioNum, RatioDen): carried by the codec, no code acts on it.
- `pkg/solver/txmatch`, config, CLI, gRPC and HTTP handlers, web UI, price fetching, trade persistence, balances and addresses: I/O, glue or easy members. A filter is any boolean function.
