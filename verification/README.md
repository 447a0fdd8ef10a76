# IBC on Solidity: a verified model

This project models an implementation of the Inter-Blockchain Communication protocol in
Solidity, with the Go code that produces and parses what the contracts check, and proves
what the protocol promises.

## What is modelled

1. **Two chains and a relayer** (`core/`, `app/`, `world/`). Each chain is a host, a bank, the
   ICS-20 transfer application and the handler's entry points. Every entry point is one
   transaction that commits or leaves the chain as it was. A run is any sequence of
   transactions and sealed blocks on either chain. Transactions run in the block being built:
   its number is the count of sealed blocks and its time never runs backwards. A client may be
   shown any sealed block of the peer, however old, and decides whether to accept it.
   `world/World.dfy` defines runs, `world/ProtocolInvariant.dfy`, `world/Ledger.dfy` and
   `world/Books.dfy` what they keep. The main results:
   - `world/Theorems.dfy`: agreement of both handshakes under stale proofs, exactly-once and
     in-order delivery, the life of commitments and acknowledgements, and conservation of tokens
     over escrow, vouchers, packets under way and pending refunds.
   - `world/Completion.dfy` and `world/Timeouts.dfy`: exactly when a packet can still be received
     and acknowledged, and what becomes of one that cannot.
   - `world/PacketAcceptance.dfy`, `world/HandshakeAcceptance.dfy` and `world/BankAcceptance.dfy`:
     for every transaction, exactly when it goes through after a run, over the sealed blocks of the
     peer, and what it leaves; `core/HostAcceptance.dfy` says it for the host in any state.
     `world/Clients.dfy`: what clients know.
   - `world/Opening.dfy` and `world/ChannelOpening.dfy`: connections and channels can be opened.
   - `world/ReturnTrip.dfy`: vouchers can be sent home from any state. `world/Witness.dfy` and
     `world/RoundTrip.dfy`: a run from the first block to a transfer paid out, for each ordering,
     and back again in full.
2. **The contracts in their own form** (`contracts/`, `lib/`). Classes whose methods update
   storage in place, each proved equal to the specification functions of `core/` and `app/`
   that the runs are made of, including the host's single flat commitment map, the restoring
   of storage on a revert, the loops that print numbers and addresses, and the word-wise
   string library.
3. **Storage proofs** (`proof/`): the RLP reader over raw memory with its word-wise copy, and
   the Merkle Patricia proof checker, sound and complete, with the exact meaning of an empty
   answer (`proof/Absence.dfy`).
4. **The IBFT 2.0 light client** (`client/`): the two seal-counting loops with their `uint8`
   counters, header parsing, membership, quorum intersection, the trust chain over every run,
   exactly which headers are accepted (`client/HeaderAcceptance.dfy`), and the Go collector that
   prepares the seals.
5. **The protobuf codec** (`proto/`): what the generated Go code writes backwards into a buffer
   and reads forwards from one, for packet data, packets, channel ends and connection ends; their
   bytes with literal tags (`proto/WireBytes.dfy`), and what unknown and malformed fields do
   (`proto/UnknownFields.dfy`).

## Assumptions

- keccak and sha256 are injective and never give zero, so a digest stands for what it digests
  (`Digest` in `core/Types.dfy`, packed keys in the flat map). For the trie, where digests are
  32 bytes inside nodes, the assumption is only that the strings of one proof do not collide
  with the nodes of the trie, and that no leaf's value is the digest of one of these strings;
  values of any other length than 32 bytes never are (`Trie.PayloadsAreNoDigests`). The encodings under the digests are injective; for connection and
  channel ends this is proved on the Go codec.
- Signature recovery is a parameter.
- For the runs, what a light client accepts and proves is a parameter (`LightClient` in
  `core/HostSpec.dfy`): for each height whether it accepts the peer's block, and for each digest
  whether it can be proved at all. The block it accepts is the peer's, and what it proves the
  block's store held. This soundness is assumed in the runs; `PeerBlocks.RunGenuine` and
  `IBFT2Client.MembershipSound` derive it for the IBFT 2.0 client from three conditions: the client
  is created from a block of the peer, which `createClient` does not check; no header it is shown
  carries an honest validator's seal without being a block's, so honest validators seal nothing else
  and nobody forges their seals (strings that nobody shows it do not matter); and fewer than
  floor(n/3) of the n validators of each block are faulty (`PeerBlocks.GuardedExactly`), which
  tolerating floor((n-1)/3) guarantees only if 3 divides n. `PeerInstance.FollowsPeer` meets all
  three. Completeness is not assumed. Results about what can be completed have acceptance and
  provability as hypotheses, and safety holds for every choice of the two. For the IBFT 2.0 client,
  digests that start with a zero byte cannot be proved (`IBFT2Client.MembershipComplete`), and
  headers of 383 or more validators are never accepted (`Seals.QuorumCount`).
- In the runs, port identifiers hold no '/', which the contracts do not check. Given one with '/',
  the methods of `contracts/` still store what they say, but the flat map may then no longer tell
  two paths apart (`IBCIdentifier.SlashCollides`), so they keep it in step only without '/'.
- Only the transfer application is bound to ports, it is the bank's only operator, and its
  account, a contract other than the zero address, starts no transaction; nor does the zero
  address.
- A run has fewer than 2^64 - 1 steps, so 64-bit counters do not wrap within it, and no
  transaction carries a denomination of 2^62 bytes or more.
- An ERC20 token is a ledger that pays what it holds and holds less than 2^256; whether it
  answers a transfer with success is a parameter. Anyone may pay the bank's account without
  going through `deposit` (`ChainSpec.Donate`); nobody else takes from it.
- A Go slice is shorter than 2^63 bytes, and protobuf messages are marshalled only up to that size.

## Where the code differs from what a reader may expect

- Acknowledging a packet on an ordered channel compares a counter that starts at 1 with 0, so it
  is always rejected (`Theorems.OrderedNeverAcknowledged`; `Progress.AcknowledgedExactly` gives
  the exact condition, and `Witness.OrderedAcknowledgementRefused` a run that meets it).
- There is no timeout step. A packet that is late, or whose commitment cannot be proved, keeps its
  tokens under way for ever (`Timeouts.LateIsStranded`).
- A connection with 256 versions or more cannot be stored (`HostContract.IBCHost.SetConnection`).
- All channels share the application's account as escrow, so conservation is stated for each
  denomination over all channels together. A failed payment on an ordered channel stays under
  way forever.
- The trust threshold is floor(n/3). It guarantees the one honest validator that
  `docs/ibft2-light-client.md:82` mentions exactly if 3 divides n (`Seals.TrustThresholdHonest`).
- The seal counters are `uint8`: a quorum of 256 signers or more is rejected, so from 383 validators
  on no header is accepted. Acceptance always means a true quorum (`Seals.QuorumCount`).
- A header with fewer seals than validators is accepted, and empty entries stand for the rest in
  the state it leaves, which may replace an earlier state of that height. No header can be checked
  against such a state any more (`IBFT2Client.TrustedLater`).
- A digest that starts with a zero byte is stored without it and cannot be proved by
  `verifyMembership` (`IBFT2Client.MembershipComplete`).
- The string library's `compare` masks the last word only for strings shorter than 32 bytes
  (`Strings.EqualWordsExact`). The channel contract is modelled with exact equality of names,
  which holds for strings padded with zeros (`Strings.PaddedCompareExact`).
- The proof checker verifies neither the leaf flag nor that an extension matched in full. Values
  it returns are right nevertheless. An empty answer shows absence, except for a key whose last
  half-byte is chosen by a branch: a proof that stops there is answered with nothing whatever the key
  holds (`Absence.EmptyAnswerExactly`). On the honest proof for an absent key whose way ends inside a
  leaf's or an extension's own key the check reverts (`TrieProofs.VerifyComplete`).

## Model

| member | source | states |
|---|---|---|
| `Theorems.TokensConserved` | contracts/app/ICS20Transfer.sol:28-79 | In every run, on either chain and in every denomination, the escrow balance equals the vouchers the peer has issued over all channels, plus all packets under way in either direction (failed ones until refunded), plus what the account was paid directly. |
| `Theorems.Solvent` | contracts/app/ICS20Bank.sol:55-73 | In every run the supply of a deposited denomination, plus what the bank was paid outside of `deposit`, equals the ERC20 amount the bank holds of that token; so the bank can always pay the whole supply out. |
| `Theorems.NoWrap` | contracts/app/ICS20Bank.sol:39-42 | In every run every balance is at most the supply and every supply is below 2^256, so no unchecked addition to a balance wraps. |
| `Theorems.PaymentNeverFallsShort` | contracts/app/ICS20Transfer.sol:57-73 | In every run, receiving a packet that was sent and not yet received pays out, to exactly its receiver; it is acknowledged as failed only for burnt vouchers addressed to the zero address. |
| `Theorems.RefundNeverFails` | contracts/app/ICS20Transfer.sol:139-145 | In every run a refund that is due is paid in full. |
| `Theorems.ExactlyOnceUnaltered` | contracts/core/IBCChannel.sol:185-220 | In every run each accepted packet equals, in all fields, one the peer sent, and no two accepted packets share port, channel and sequence. |
| `Theorems.OrderedInOrder` | contracts/core/IBCChannel.sol:213-216 | In every run an ordered channel accepts exactly the sequences 1..k in this order, with k below the peer's next send sequence. |
| `Theorems.CommitmentLifeCycle` | contracts/core/IBCChannel.sol:178-274 | In every run a packet commitment is present exactly for the keys sent and not yet acknowledged. |
| `Theorems.AcknowledgedOnceAsWritten` | contracts/core/IBCChannel.sol:241-274 | In every run each acknowledged packet was received by the peer with exactly that acknowledgement, and is acknowledged only once; so it is refunded at most once, and only if the peer's payment failed. |
| `Theorems.OrderedNeverAcknowledged` | contracts/core/IBCChannel.sol:265-270 | In every run every acknowledgement on an ordered channel is rejected, because the counter compared with 0 starts at 1. |
| `Theorems.SenderPays` | contracts/app/ICS20Transfer.sol:28-53 | In every run an accepted transfer sends exactly the denomination, amount, sender and receiver asked for to the channel's counterparty, and takes the amount from the sender and from no other account. |
| `Theorems.ReceiverIsPaid` | contracts/app/ICS20Transfer.sol:57-73 | In every run a received packet pays exactly its receiver, from escrow or in new vouchers, and takes from no account but escrow; a failed payment changes no balance. |
| `Theorems.SenderIsRefunded` | contracts/app/ICS20Transfer.sol:139-145 | In every run an acknowledged failure gives exactly the amount back to the sender of that packet, and a success changes no balance. |
| `Completion.ReceivableExactly` | contracts/core/IBCChannel.sol:204-209 | From every reachable state, a packet that waits for an open end over a working client, which accepts the sender's next block, is received in some continuation if and only if the receiving chain's current block is before both timeouts and the commitment can be proved; three more steps then do. |
| `Timeouts.LateIsStranded` | contracts/core/IBCChannel.sol:204-209 | Once the receiving chain's block is past a timeout of an unreceived packet, or if its commitment cannot be proved, every continuation leaves it unreceived, committed, unacknowledged and its amount under way, backed by escrow: there is no timeout step to give it back. |
| `Completion.AcknowledgeableExactly` | contracts/core/IBCChannel.sol:241-274 | From every reachable state, an answered and still committed packet over a working client, which accepts the receiver's next block, is acknowledged in some continuation if and only if the channel is not ordered and the acknowledgement can be proved; three more steps then do. |
| `Completion.DeliveryCompletes` | contracts/core/IBCHandler.sol:113-139 | From every reachable state, a timely, provable packet over open, unordered ends whose two possible acknowledgements are provable is received and acknowledged after six more steps, if each client accepts the other side's next block. |
| `Opening.HandshakeCompletes` | contracts/core/IBCHandler.sol:43-61 | From every reachable state with a working client on each chain, ten more steps open a new connection whose two ends name each other, if the clients accept the blocks and prove the ends and client states that the handshake shows them. |
| `ChannelOpening.ChannelHandshakeCompletes` | contracts/core/IBCHandler.sol:63-102 | From every reachable state with an open connection over working clients and a bound port on each side, ten more steps open a new channel of any ordering whose two ends name each other, under the same condition on the clients. |
| `Witness.TransfersHappen` | tests/e2e/chains_test.go:43-112 | Between clients that accept and prove everything, some run from the first block deposits any 64-bit amount, opens a connection and a channel of either ordering, sends the amount and pays it out to its receiver; a continuation acknowledges it if and only if the channel is unordered. |
| `Witness.OrderedAcknowledgementRefused` | contracts/core/IBCChannel.sol:265-270 | Some run ends with a packet received over an ordered channel and still committed, whose acknowledgement, as the peer wrote it and with a proof that verifies, is rejected. |
| `Progress.AcknowledgedExactly` | contracts/core/IBCChannel.sol:241-274 | In every run the proved acknowledgement of a committed packet is accepted if and only if the channel is not ordered. |
| `Progress.ReceivedExactly` | contracts/core/IBCChannel.sol:185-220 | In every run a sent, unreceived, proved and timely packet is accepted on an open channel if and only if the channel is unordered, or ordered and the packet is next. |
| `PacketAcceptance.TransferSentExactly` | contracts/app/ICS20Transfer.sol:28-53 | After every run a transfer of an own token or of a voucher goes through if and only if its channel is OPEN, its client has a consensus state at its latest height, that height is below the timeout asked for or none is, and the sender's balance is at least the amount. |
| `PacketAcceptance.HostSendsExactly` | contracts/core/IBCChannel.sol:150-183 | On any host state a packet is sent if and only if its end is OPEN and names its destination, its client has an implementation and a consensus state at its latest height, that height and that state's timestamp are below the packet's timeouts where these are not 0, and its sequence is the next one; then its digest is committed, the counter advances, and nothing else changes. |
| `PacketAcceptance.ReceivedExactly` | contracts/core/IBCChannel.sol:185-220 | After every run a packet is received if and only if the peer sent it, it is not acknowledged here, the current block is before both timeouts, its end is OPEN, a sealed block of the peer that the client was shown held its commitment, which can be proved, and the channel's ordering takes it now. |
| `PacketAcceptance.AcknowledgedExactly` | contracts/core/IBCChannel.sol:241-274 | After every run an acknowledgement goes through if and only if its packet was sent, is still committed, on a channel that is not ordered, and a sealed block of the peer that the client was shown held this acknowledgement of it, which can be proved. |
| `ReturnTrip.VouchersComeHome` | contracts/app/ICS20Transfer.sol:36-73 | From every reachable state, vouchers in any amount up to the whole balance can be sent back over an end that can send to one that takes the next packet: four more steps burn exactly the amount, and pay it to the receiver out of escrow. |
| `RoundTrip.TokensReturn` | tests/e2e/chains_test.go:43-150 | Between clients that accept and prove everything, on a channel of either ordering and for any 64-bit amount, some run deposits, sends and pays out, and four more steps send the whole voucher balance back and pay it out of escrow, so that the sender holds the full amount again and can withdraw it. |
| `HandshakeAcceptance.AnsweredExactly` | contracts/core/IBCConnection.sol:33-68 | After every run a connection is answered if and only if some version is offered, both proofs are given, and a sealed block of the peer that the client was shown held, both provably, the INIT end for this client and prefix "ibc" and exactly the claimed client state under the counterparty's client; then the next identifier gets a TRYOPEN end with the message's client, counterparty and delay and version "1" with both orderings. |
| `HandshakeAcceptance.AcknowledgedExactly` | contracts/core/IBCConnection.sol:70-110 | After every run a connection is acknowledged if and only if it is in INIT and a sealed block of the peer that the client was shown held, both provably, the TRYOPEN end that answers it with the one version and exactly the claimed client state; both proofs are needed, and the end becomes OPEN with that version and counterparty. |
| `HandshakeAcceptance.ConfirmedExactly` | contracts/core/IBCConnection.sol:112-140 | After every run a connection is confirmed if and only if it is in TRYOPEN and a sealed block of the peer that the client was shown held the OPEN end that names it back, provably. |
| `HandshakeAcceptance.ConnectionBegins` | contracts/core/IBCConnection.sol:17-29 | Beginning a connection always stores, under "connection-" and the counter, an INIT end with the message's client, counterparty and delay and version "1" with both orderings. |
| `HandshakeAcceptance.ChannelBegunExactly` | contracts/core/IBCChannel.sol:13-37 | After every run a channel begins if and only if it is in INIT, over one existing connection, on a bound port; counters start at 1, and the application gets its capability and its escrow. |
| `HandshakeAcceptance.ChannelAnsweredExactly` | contracts/core/IBCChannel.sol:39-76 | After every run a channel is answered if and only if it is in TRYOPEN, over one existing connection, on a bound port, and a sealed block of the peer that the client was shown held the INIT end for this port and ordering over the counterparty connection, provably. |
| `HandshakeAcceptance.ChannelAcknowledgedExactly` | contracts/core/IBCChannel.sol:78-113 | After every run a channel of a bound port is acknowledged if and only if it is in INIT over an OPEN connection and a sealed block of the peer that the client was shown held the TRYOPEN end that names it back, provably; it becomes OPEN with the proved version and counterparty. |
| `HandshakeAcceptance.ChannelConfirmedExactly` | contracts/core/IBCChannel.sol:115-148 | After every run a channel of a bound port is confirmed if and only if it is in TRYOPEN over an OPEN connection and a sealed block of the peer that the client was shown held the OPEN end that names it back, provably. |
| `HandshakeAcceptance.ClientCreatedExactly` | contracts/core/IBCClient.sol:13-22 | After every run a client is created if and only if its type is registered and not empty and the peer has sealed the block; its identifier, the type, a dash and the counter, is one no client has. |
| `HandshakeAcceptance.ClientUpdatedExactly` | contracts/core/IBCClient.sol:27-42 | After every run a client is updated if and only if it exists and its light client accepts the block; the block's state is stored, and the latest height becomes the larger of the two. |
| `HandshakeAcceptance.NamesTakenOnce` | contracts/core/IBCHandler.sol:32-144 | After every run a port is bound if and only if nobody is bound to it, and a client type is registered if and only if it is new. |
| `HandshakeAcceptance.MembershipExactly` | contracts/core/IBFT2Client.sol:312-338 | In every run a proof passes if and only if the client was shown the block of its height, that block held the claimed digest at the claimed path, the digest can be proved, and neither prefix nor proof is empty. |
| `Clients.RunClients` | contracts/core/IBCClient.sol:13-42 | In every run each client has a registered type and a number of its own, and every consensus state it stores is the peer's sealed block of that height. |
| `Clients.ClientsOnlyAdvance` | contracts/core/IBCClient.sol:27-42 | In every continuation of a run no client goes back in height, also when it is shown an older block, and none forgets a block it was shown. |
| `HostAcceptance.ConnectionAckOnHost` | contracts/core/IBCConnection.sol:70-110 | On any host state a connection is acknowledged if and only if it is in INIT, or in TRYOPEN with exactly the proved version, and both proofs pass. |
| `HostAcceptance.ChannelAckOnHost` | contracts/core/IBCChannel.sol:78-113 | On any host state a channel end is acknowledged if and only if it is in INIT or TRYOPEN over one OPEN connection and the proof of its answer passes. |
| `HostAcceptance.PacketRecvOnHost` | contracts/core/IBCChannel.sol:185-220 | On any host state a packet is received if and only if it is routed over OPEN ends, timely, proved and new or next; it then leaves its receipt or moves the counter, and nothing else changes. |
| `HostAcceptance.PacketAckOnHost` | contracts/core/IBCChannel.sol:241-274 | On any host state an acknowledgement goes through if and only if its packet is committed, routed over OPEN ends and the proof passes, and on an ordered channel only for sequence 0 with a counter of 0. |
| `HostAcceptance.AckWrittenOnHost` | contracts/core/IBCChannel.sol:224-238 | On any host state an acknowledgement is written if and only if the end is OPEN, none is written yet and it is not empty. |
| `BankAcceptance.WithdrawnExactly` | contracts/app/ICS20Bank.sol:65-73 | After every run a withdrawal goes through if and only if the token contract pays and the caller's balance covers it; it takes the amount from the caller and from no other account, and the bank holds enough. |
| `BankAcceptance.DepositedExactly` | contracts/app/ICS20Bank.sol:55-63 | After every run a deposit goes through if and only if the token contract takes it; it credits the receiver and no other account. |
| `BankAcceptance.TransferredExactly` | contracts/app/ICS20Bank.sol:32-43 | After every run a holder's transfer goes through if and only if the receiver is not the zero address and the balance covers it; it moves the amount and nothing else. |
| `Theorems.ConnectionAgreement` | contracts/core/IBCConnection.sol:33-140 | In every run, whatever past states serve as proofs, the counterparty of an OPEN connection end is TRYOPEN or OPEN (OPEN if this end was confirmed), points back, and has the same versions, delay and clients. |
| `Theorems.OneConnectionOpens` | contracts/core/IBCConnection.sol:33-140 | In every run at most one connection opens against a given connection of the peer. |
| `Theorems.AckOnlyFromInit` | contracts/core/IBCConnection.sol:78-84 | In every run an accepted connection acknowledgement finds the end in INIT, although the code allows TRYOPEN too. |
| `Theorems.ChannelAgreement` | contracts/core/IBCChannel.sol:39-148 | In every run the counterparty of an OPEN channel end is TRYOPEN or OPEN, names it back, agrees on ordering and version, and runs over the paired connection, whose two ends name each other. |
| `Theorems.OneChannelOpens` | contracts/core/IBCChannel.sol:39-148 | In every run at most one channel opens against a given channel end of the peer. |
| `Theorems.HistoryKept` | contracts/core/IBCChannel.sol:78-148 | A longer run never changes an OPEN connection or channel end, never changes or removes a written acknowledgement, and only appends to the logs of sent, received and acknowledged packets. |
| `History.RunEstablishes` | contracts/core/IBCHandler.sol:39-139 | Every run keeps the whole invariant of protocol, money and order, both chains and all links between them. |
| `History.OrderReceived` | contracts/core/IBCChannel.sol:213-216 | Accepting a packet keeps the accepted sequences of every ordered channel counting up from 1 and its counter one ahead. |
| `Runs.TransactKeeps` | contracts/core/IBCHandler.sol:39-139 | Every accepted transaction on one chain keeps that chain's invariant and its links to the peer, and takes back nothing a past block could prove. |
| `Runs.SealKeeps` | contracts/core/IBCHandler.sol:39-139 | Sealing a block keeps the invariant, and its root is a past of the chain. |
| `MoneyRuns.TransactMoney` | contracts/core/IBCHandler.sol:39-139 | Every accepted transaction keeps both banks backed and every denomination conserved in both directions. |
| `Books.RunSound` | contracts/core/IBCHost.sol:204-227 | Every run keeps, besides protocol, money and order, that each capability belongs to the application alone, each channel has one, and receipts are left only where an acknowledgement was written. |
| `HandshakeSteps.PointedAtEndBeganAsInit` | contracts/core/IBCConnection.sol:33-110 | An end some TRYOPEN end of the peer ever pointed back at was created in INIT, since identifiers are never reused. |
| `HandshakeSteps.ConnectionOpenTryStep` | contracts/core/IBCConnection.sol:33-68 | Answering a connection keeps the invariant: the proof ties the new end to an end of the peer created in INIT with matching client and delay. |
| `HandshakeSteps.ConnectionOpenAckStep` | contracts/core/IBCConnection.sol:70-110 | Acknowledging a connection keeps the invariant, from an end created in INIT. |
| `HandshakeSteps.ConnectionOpenConfirmStep` | contracts/core/IBCConnection.sol:112-140 | Confirming a connection keeps the invariant: the peer's end is OPEN and agrees. |
| `ChannelSteps.NamedEndBeganAsInit` | contracts/core/IBCChannel.sol:39-113 | A channel end some TRYOPEN end of the peer ever named was created in INIT. |
| `ChannelSteps.ChannelOpenTryStep` | contracts/core/IBCChannel.sol:39-76 | Answering a channel keeps the invariant. |
| `ChannelSteps.ChannelOpenAckStep` | contracts/core/IBCChannel.sol:78-113 | Acknowledging a channel keeps the invariant, from an end created in INIT. |
| `ChannelSteps.ChannelOpenConfirmStep` | contracts/core/IBCChannel.sol:115-148 | Confirming a channel keeps the invariant. |
| `PacketSteps.SendTransferStep` | contracts/app/ICS20Transfer.sol:28-53 | Sending a transfer keeps the invariant: a fresh sequence, a commitment, and nothing acknowledged under its key. |
| `PacketSteps.RecvPacketStep` | contracts/core/IBCHandler.sol:113-123 | Receiving a packet keeps the invariant, and the packet is one the peer sent. |
| `PacketSteps.AcknowledgePacketStep` | contracts/core/IBCHandler.sol:134-139 | Acknowledging a packet keeps the invariant: it was sent, not acknowledged before, and the peer wrote this acknowledgement. |
| `Conservation.SupplyBounded` | contracts/app/ICS20Bank.sol:75-77 | From backing and conservation, no supply reaches 2^256: by induction on the denomination, across the chains. |
| `Conservation.SendConserves` | contracts/app/ICS20Transfer.sol:36-40 | Escrowing or burning at sending moves exactly the amount into what is under way, in that denomination only. |
| `Conservation.PayConserves` | contracts/app/ICS20Transfer.sol:57-73 | Paying out a received packet moves exactly what was under way into vouchers or out of escrow. |
| `Conservation.RefundConserves` | contracts/app/ICS20Transfer.sol:139-145 | A refund moves exactly what was under way back to where it was taken from. |
| `MoneySteps.NotYetReceived` | contracts/core/IBCChannel.sol:166-179 | What a chain has just sent, its peer has not acknowledged, so a packet is under way from the moment it is sent. |
| `MoneySteps.DestinationsDistinct` | contracts/core/IBCChannel.sol:150-183 | Distinct packets of a chain go to distinct destination keys on the peer. |
| `MoneySteps.CommittedUntilReceived` | contracts/core/IBCChannel.sol:241-274 | A commitment stays at least until the peer has received the packet. |
| `Payments.TakeEffect` | contracts/app/ICS20Transfer.sol:36-40 | Sending raises escrow by the amount for own tokens and lowers the voucher supply by it for vouchers, and touches no other escrow balance or supply. |
| `Payments.PayEffect` | contracts/app/ICS20Transfer.sol:57-73 | The receiver pays vouchers exactly for what the sender put in escrow and pays from escrow exactly for what the sender burnt; the acknowledgement tells whether it paid, and a failed payment changes nothing. |
| `Payments.RefundEffect` | contracts/app/ICS20Transfer.sol:139-145 | A refund returns exactly what sending took, and succeeds exactly if escrow suffices. |
| `Payments.TakeMoves` | contracts/app/ICS20Transfer.sol:36-40 | Sending changes exactly the sender's balance and, for own tokens, escrow's. |
| `Payments.PayMoves` | contracts/app/ICS20Transfer.sol:57-73 | A successful payment changes exactly the receiver's balance and, for burnt vouchers, escrow's. |
| `Payments.RefundMoves` | contracts/app/ICS20Transfer.sol:139-145 | A refund changes exactly the sender's balance and, for own tokens, escrow's. |
| `TransferSpec.PrefixUnique` | contracts/app/ICS20Transfer.sol:149-154 | Two slash-free channel ends whose prefixes both start a denomination are the same end. |
| `BankSpec.TransferEffect` | contracts/app/ICS20Bank.sol:32-43 | A transfer moves the amount between the two balances, changes no other balance and no supply. |
| `BankSpec.CreditEffect` | contracts/app/ICS20Bank.sol:75-77 | A credit that stays below 2^256 adds exactly the amount to one balance and to one supply. |
| `BankSpec.DebitEffect` | contracts/app/ICS20Bank.sol:79-83 | A debit takes exactly the amount from one balance and from one supply. |
| `BankSpec.CreditWraps` | contracts/app/ICS20Bank.sol:75-77 | On any ledger a credit adds modulo 2^256 to one balance and changes no other. |
| `BankSpec.TransferExactly` | contracts/app/ICS20Bank.sol:32-43 | On any ledger a transfer goes through if and only if the receiver is not the zero address and the balance covers it, and then debits and credits modulo 2^256. |
| `TransferSpec.RecvExactly` | contracts/app/ICS20Transfer.sol:57-73 | On any ledger and for any packet: data that does not parse or a receiver of other than 20 bytes reverts, a denomination without the source's prefix is credited with the destination's, and any other is paid from escrow, or answered with 0x00 if escrow falls short or the receiver is zero. |
| `TransferSpec.AckExactly` | contracts/app/ICS20Transfer.sol:75-79 | On any ledger and for any packet: an acknowledgement of other than one byte reverts, 0x01 changes nothing, and any other gives the tokens back, reverting where it cannot. |
| `TransferSpec.TransferTexts` | contracts/app/ICS20Transfer.sol:124-154 | The prefix reads port, "/", channel, "/", and the two acknowledgements are 0x01 and 0x00. |
| `HostContract.SixMaps` | contracts/core/IBCHost.sol:77-190 | The one flat commitment map reads, for every path, exactly as six separate maps. |
| `IBCIdentifier.PackInjective` | contracts/core/IBCIdentifier.sol:17-39 | A packed key equal to that of a path without '/' in port and channel belongs to that very path, whatever the other path was built from. |
| `IBCIdentifier.SlashCollides` | contracts/core/IBCIdentifier.sol:29-31 | Two channel paths that differ by a '/' in the port have the same packed key. |
| `IBCIdentifier.DecimalRoundTrip` | contracts/core/IBCHost.sol:255-275 | The decimal text of a number denotes it. |
| `IBCIdentifier.DecimalDigits` | contracts/core/IBCHost.sol:255-275 | The decimal text is written with the characters of "0123456789", the highest digit first and without a leading zero. |
| `IBCIdentifier.IdentifierTexts` | contracts/core/IBCHost.sol:231-253 | Generated identifiers are the client's type and a dash, "connection-" or "channel-", and the number in decimal. |
| `IBCIdentifier.PackedKeys` | contracts/core/IBCIdentifier.sol:17-39 | A packed key is a byte from 0 to 5 for the kind of path, and its names and 8-byte big-endian numbers with "/" between them; a channel's capability is named port, "/", channel. |
| `IBCIdentifier.ClientIdInjective` | contracts/core/IBCHost.sol:231-237 | Generated client identifiers differ when type or number differ. |
| `IBCIdentifier.ConnectionIdInjective` | contracts/core/IBCHost.sol:239-245 | Generated connection identifiers differ when their numbers do. |
| `IBCIdentifier.ChannelIdInjective` | contracts/core/IBCHost.sol:247-253 | Generated channel identifiers differ when their numbers do. |
| `IBCIdentifier.ChannelIdSlashFree` | contracts/core/IBCHost.sol:247-253 | Generated channel identifiers hold no '/'. |
| `HostContract.Uint2Str` | contracts/core/IBCHost.sol:255-275 | Prints the exact decimal, filling its buffer completely. |
| `HostContract.IBCHost.SetClientImpl` | contracts/core/IBCHost.sol:52-56 | Registers a client type once; a second time it reverts and changes nothing. |
| `HostContract.IBCHost.SetClientType` | contracts/core/IBCHost.sol:64-69 | Sets the type of a new client; reverts for a known client or an empty type. |
| `HostContract.IBCHost.SetClientState` | contracts/core/IBCHost.sol:77-81 | Stores the state and its digest, and keeps the flat map in step with the typed maps. |
| `HostContract.IBCHost.SetConsensusState` | contracts/core/IBCHost.sol:89-93 | Stores the consensus state and its digest, and keeps the flat map in step. |
| `HostContract.IBCHost.SetConnection` | contracts/core/IBCHost.sol:101-112 | Copies the connection version by version, stores its digest, and keeps the flat map in step; with 256 versions or more the `uint8` counter wraps and the call never gets through. |
| `HostContract.CopyVersions` | contracts/core/IBCHost.sol:107-109 | The copying loop ends with all versions exactly if there are fewer than 256 and gas for each; otherwise it runs out of gas. |
| `HostContract.IBCHost.GetConnection` | contracts/core/IBCHost.sol:114-116 | Finds a connection exactly if its state is not uninitialized. |
| `HostContract.IBCHost.SetChannel` | contracts/core/IBCHost.sol:120-124 | Stores the channel and its digest at the packed key, and keeps the flat map in step unless a name holds '/'. |
| `HostContract.IBCHost.GetChannel` | contracts/core/IBCHost.sol:126-128 | Finds a channel exactly if its state is not uninitialized. |
| `HostContract.IBCHost.SetNextSequenceSend` | contracts/core/IBCHost.sol:132-135 | Sets one send counter and nothing else. |
| `HostContract.IBCHost.SetNextSequenceRecv` | contracts/core/IBCHost.sol:141-144 | Sets one receive counter and nothing else. |
| `HostContract.IBCHost.SetNextSequenceAck` | contracts/core/IBCHost.sol:150-153 | Sets one acknowledgement counter and nothing else. |
| `HostContract.IBCHost.SetPacketCommitment` | contracts/core/IBCHost.sol:159-162 | Writes the packet's digest under its packed source key; the flat map stays in step unless a name holds '/'. |
| `HostContract.IBCHost.DeletePacketCommitment` | contracts/core/IBCHost.sol:164-167 | Deletes one packet commitment and nothing else; the flat map stays in step unless a name holds '/'. |
| `HostContract.IBCHost.GetPacketCommitment` | contracts/core/IBCHost.sol:169-172 | Reads from the flat map what the typed view of packet commitments holds. |
| `HostContract.IBCHost.SetPacketAcknowledgementCommitment` | contracts/core/IBCHost.sol:179-182 | Writes the acknowledgement's digest at the packed key; the flat map stays in step unless a name holds '/'. |
| `HostContract.IBCHost.GetPacketAcknowledgementCommitment` | contracts/core/IBCHost.sol:184-187 | Reads from the flat map what the typed view of acknowledgements holds. |
| `HostContract.IBCHost.SetPacketReceipt` | contracts/core/IBCHost.sol:193-196 | Leaves one receipt. |
| `HostContract.IBCHost.ClaimCapability` | contracts/core/IBCHost.sol:204-210 | Appends a claimant, unless it already is one. |
| `HostContract.IBCHost.AuthenticateCapability` | contracts/core/IBCHost.sol:212-220 | Tells whether the address is among the claimants. |
| `HostContract.IBCHost.GetModuleOwner` | contracts/core/IBCHost.sol:222-227 | Gives the first claimant, if any. |
| `HostContract.IBCHost.GenerateClientIdentifier` | contracts/core/IBCHost.sol:231-237 | Gives the type, a dash and the counter in decimal, and advances the counter with 64-bit wrap-around. |
| `HostContract.IBCHost.GenerateConnectionIdentifier` | contracts/core/IBCHost.sol:239-245 | Gives "connection-" and the counter in decimal, and advances the counter. |
| `HostContract.IBCHost.GenerateChannelIdentifier` | contracts/core/IBCHost.sol:247-253 | Gives "channel-" and the counter in decimal, and advances the counter. |
| `ClientContract.CreateClient` | contracts/core/IBCClient.sol:13-22 | Stores a new client of a registered type under a fresh identifier, or reverts. |
| `ClientContract.UpdateClient` | contracts/core/IBCClient.sol:27-42 | Stores the advanced client state and the consensus state at the header's height if the light client accepts the header, and reverts otherwise. |
| `ClientContract.HasClient` | contracts/core/IBCClient.sol:54-66 | Tells whether the client's type has an implementation. |
| `ClientContract.Verify` | contracts/core/IBFT2Client.sol:312-338 | Accepts a claim exactly if the arguments pass, the consensus state is stored, its root committed the claimed digest at the claimed path, and the digest can be proved. |
| `ConnectionContract.OpenInit` | contracts/core/IBCConnection.sol:17-29 | Stores an INIT end under a fresh identifier; every stored connection keeps exactly one version. |
| `ConnectionContract.OpenTry` | contracts/core/IBCConnection.sol:33-68 | Stores a TRYOPEN end if both proofs pass, and reverts exactly otherwise. |
| `ConnectionContract.OpenAck` | contracts/core/IBCConnection.sol:70-110 | Opens an end with the proved version and counterparty, and reverts exactly when a check fails. |
| `ConnectionContract.OpenConfirm` | contracts/core/IBCConnection.sol:112-140 | Opens a TRYOPEN end whose peer is proved OPEN, and reverts exactly otherwise. |
| `ChannelContract.OpenInit` | contracts/core/IBCChannel.sol:13-37 | Stores an INIT channel end with all three counters at 1, or reverts. |
| `ChannelContract.OpenTry` | contracts/core/IBCChannel.sol:39-76 | Stores a TRYOPEN channel end with counters at 1 if the peer's INIT end is proved, or reverts. |
| `ChannelContract.OpenAck` | contracts/core/IBCChannel.sol:78-113 | Opens a channel end with the proved version and counterparty channel, or reverts. |
| `ChannelContract.OpenConfirm` | contracts/core/IBCChannel.sol:115-148 | Opens a TRYOPEN channel end whose peer is proved OPEN, or reverts. |
| `ChannelContract.Send` | contracts/core/IBCChannel.sol:150-183 | Commits a packet with the next sequence on an open channel before its timeout, or reverts. |
| `ChannelContract.Recv` | contracts/core/IBCChannel.sol:185-220 | Leaves a receipt or advances the counter for a proved, timely packet, by the channel's ordering, or reverts. |
| `ChannelContract.WriteAck` | contracts/core/IBCChannel.sol:224-238 | Writes a non-empty acknowledgement where there is none, or reverts. |
| `ChannelContract.Acknowledge` | contracts/core/IBCChannel.sol:241-274 | Deletes the commitment of a proved acknowledgement, or reverts. |
| `ChannelContract.CounterpartyHops` | contracts/core/IBCChannel.sol:276-283 | Gives the counterparty's connection of a single-hop channel, or reverts. |
| `BankContract.ICS20Bank.TransferFrom` | contracts/app/ICS20Bank.sol:32-43 | Moves tokens for their holder or an operator, and reverts without change for the zero address, other callers or a short balance. |
| `BankContract.ICS20Bank.Mint` | contracts/app/ICS20Bank.sol:45-48 | Credits for operators only. |
| `BankContract.ICS20Bank.Burn` | contracts/app/ICS20Bank.sol:50-53 | Debits for operators only, and reverts without change on a short balance. |
| `BankContract.ICS20Bank.Deposit` | contracts/app/ICS20Bank.sol:55-63 | Credits the token's denomination with what the token contract paid in. |
| `BankContract.ICS20Bank.Withdraw` | contracts/app/ICS20Bank.sol:65-73 | Debits the token's denomination and pays out; a failed payment undoes the debit. |
| `BankContract.ICS20Bank.SetOperator` | contracts/app/ICS20Bank.sol:22-25 | Only an administrator adds an operator. |
| `BankContract.AddressToStringLoop` | contracts/app/ICS20Bank.sol:91-103 | Writes "0x" and the forty lower-case hexadecimal digits of the address. |
| `BankContract.ParseAddrLoop` | contracts/app/ICS20Bank.sol:106-132 | Parses forty digits after the first two characters, and reverts when the text is too short. |
| `AddressText.ParseAddrRoundTrip` | contracts/app/ICS20Bank.sol:91-132 | Parsing the text of an address gives the address back. |
| `AddressText.AddressToStringInjective` | contracts/app/ICS20Bank.sol:85-103 | Different tokens have different denominations. |
| `AddressText.AddressToStringSlashFree` | contracts/app/ICS20Bank.sol:85-103 | The denomination of a deposited token holds no '/', so it is never a voucher. |
| `AddressText.AddressTextIs` | contracts/app/ICS20Bank.sol:91-103 | The text of an address is "0x" and, for each byte, the two characters of "0123456789abcdef" for its half-bytes. |
| `AddressText.DigitValues` | contracts/app/ICS20Bank.sol:106-132 | The parser takes digits of either case for what they are. |
| `BankContract.ICS20TransferBank.TransferFrom` | contracts/app/ICS20TransferBank.sol:17-23 | Turns the bank's revert into `false` with the ledger unchanged. |
| `BankContract.ICS20TransferBank.Mint` | contracts/app/ICS20TransferBank.sol:25-31 | Credits and answers `true`, the application being an operator. |
| `BankContract.ICS20TransferBank.Burn` | contracts/app/ICS20TransferBank.sol:33-39 | Turns the bank's revert into `false` with the ledger unchanged. |
| `HandlerContract.ICS20Transfer.Take` | contracts/app/ICS20Transfer.sol:36-40 | Takes the sender's tokens into escrow or burns vouchers, by the prefix, or reverts. |
| `HandlerContract.ICS20Transfer.OnRecv` | contracts/app/ICS20Transfer.sol:57-73 | Pays the receiver by the prefix and answers 0x01, or 0x00 with the ledger unchanged. |
| `HandlerContract.ICS20Transfer.OnAcknowledgement` | contracts/app/ICS20Transfer.sol:75-79 | Keeps the ledger on success and refunds on anything else. |
| `HandlerContract.ICS20Transfer.OnChanOpen` | contracts/app/ICS20Transfer.sol:81-89 | Makes the application the escrow account of the channel. |
| `HandlerContract.ICS20Transfer.GetEscrowAddress` | contracts/app/ICS20Transfer.sol:118-122 | Gives the escrow account of a channel, or reverts. |
| `HandlerContract.IBCHandler.RegisterClient` | contracts/core/IBCHandler.sol:32-35 | Registers a client type, or leaves the chain as it was. |
| `HandlerContract.IBCHandler.CreateClient` | contracts/core/IBCHandler.sol:39-41 | One transaction: the whole chain changes as specified, or stays as it was. |
| `HandlerContract.IBCHandler.UpdateClient` | contracts/core/IBCHandler.sol:43-45 | One transaction: the whole chain changes as specified, or stays as it was. |
| `HandlerContract.IBCHandler.ConnectionOpenInit` | contracts/core/IBCHandler.sol:47-49 | One transaction that always commits a new INIT end. |
| `HandlerContract.IBCHandler.ConnectionOpenTry` | contracts/core/IBCHandler.sol:51-53 | One transaction: a new TRYOPEN end, or the chain as it was. |
| `HandlerContract.IBCHandler.ConnectionOpenAck` | contracts/core/IBCHandler.sol:55-57 | One transaction: the end opened, or the chain as it was. |
| `HandlerContract.IBCHandler.ConnectionOpenConfirm` | contracts/core/IBCHandler.sol:59-61 | One transaction: the end opened, or the chain as it was. |
| `HandlerContract.IBCHandler.ChannelOpenInit` | contracts/core/IBCHandler.sol:63-76 | One transaction: channel, callback and capability together, or the chain as it was. |
| `HandlerContract.IBCHandler.ChannelOpenTry` | contracts/core/IBCHandler.sol:78-92 | One transaction: channel, callback and capability together, or the chain as it was. |
| `HandlerContract.IBCHandler.ChannelOpenAck` | contracts/core/IBCHandler.sol:94-97 | One transaction: the channel end opened for a bound port, or the chain as it was. |
| `HandlerContract.IBCHandler.ChannelOpenConfirm` | contracts/core/IBCHandler.sol:99-102 | One transaction: the channel end opened for a bound port, or the chain as it was. |
| `HandlerContract.IBCHandler.SendPacket` | contracts/core/IBCHandler.sol:104-111 | Sends for the owner of the channel's capability and logs the packet. |
| `HandlerContract.IBCHandler.SendTransfer` | contracts/app/ICS20Transfer.sol:28-53 | One transaction: tokens taken, packet committed and logged, or the chain with its ledger as it was. |
| `HandlerContract.IBCHandler.RecvPacket` | contracts/core/IBCHandler.sol:113-123 | One transaction: payment, receipt and acknowledgement together, or the chain with its ledger as it was. |
| `HandlerContract.IBCHandler.AcknowledgePacket` | contracts/core/IBCHandler.sol:134-139 | One transaction: refund and deletion of the commitment together, or the chain with its ledger as it was. |
| `HandlerContract.IBCHandler.BindPort` | contracts/core/IBCHandler.sol:141-144 | Gives the port's capability to the application, once. |
| `Strings.Compare` | contracts/lib/strings.sol:200-228 | Gives 0 exactly if lengths and all the words looked at agree, a short string being masked. |
| `Strings.EqualWordsExact` | contracts/lib/strings.sol:200-228 | What `compare` calls equal is equality together with, from 32 bytes on, equal memory behind the strings up to the next word. |
| `Strings.PaddedCompareExact` | contracts/lib/strings.sol:200-238 | For strings padded with zeros to whole words `compare` is exact. |
| `Strings.Equals` | contracts/lib/strings.sol:236-238 | Never calls different strings equal. |
| `Strings.StartsWith` | contracts/lib/strings.sol:359-376 | Holds exactly if the needle is a prefix. |
| `Strings.Beyond` | contracts/lib/strings.sol:385-406 | Cuts the needle off the front of the slice in place, exactly if it is a prefix. |
| `Strings.TrimPrefix` | contracts/app/ICS20Transfer.sol:57-63 | The receiver's test, denomination against what is left beyond the prefix, holds exactly if the prefix is there, whatever the surrounding memory. |
| `Strings.Concat` | contracts/lib/strings.sol:678-685 | Writes the two strings one after the other and nothing else. |
| `RLPCodec.ItemRead` | contracts/lib/RLP.sol:84-137 | At the start of any encoding the reader finds its exact length, kind, payload offset and payload. |
| `RLPCodec.ListRead` | contracts/lib/RLP.sol:38-51 | `toList` on the encoding of any list gives exactly the encodings of its children, in order. |
| `RLPCodec.StringIsNoList` | contracts/lib/RLP.sol:38-39 | `toList` refuses the encoding of any string. |
| `RLPCodec.BytesRead` | contracts/lib/RLP.sol:185-197 | `toBytes` on any encoding gives its payload. |
| `RLPCodec.UintRead` | contracts/lib/RLP.sol:172-183 | `toUint` gives the big-endian value of a string of up to 32 bytes, and 0 for the empty one. |
| `RLPCodec.TopBytesExact` | contracts/lib/RLP.sol:97-104 | The shift by a wrapping power of 256 reads exactly the first n bytes for n up to 32, and 0 for longer ones. |
| `RLPCodec.KnownEncodings` | contracts/lib/RLP.sol:84-137 | The encoding gives the documented bytes for the empty string and list, single bytes, and the lists and strings of the usual examples. |
| `RLPCodec.LongEncodings` | contracts/lib/RLP.sol:84-137 | Payloads of 56 to 255 bytes have the prefix 0xb8 or 0xf8 and one length byte. |
| `BigEndianBytes.FirstByteCounts` | contracts/lib/RLP.sol:172-183 | Of big-endian bytes the first counts most: 256 to the number of bytes after it. |
| `RLPReader.NumItems` | contracts/lib/RLP.sol:71-81 | Counts exactly the items each prefix delimits, and terminates on any memory. |
| `RLPReader.ListItems` | contracts/lib/RLP.sol:38-51 | The two loops list exactly the items each prefix delimits, and refuse what is no list. |
| `RLPReader.ItemLengthBound` | contracts/lib/RLP.sol:84-120 | Every item is at least one byte and below 2^64 + 9 bytes long, so the counting loop advances and pointers do not wrap. |
| `RLPReader.Copy` | contracts/lib/RLP.sol:205-223 | Copies exactly len bytes and preserves every other byte, although it stores whole words. |
| `RLPReader.MaskBytes` | contracts/lib/RLP.sol:217 | The mask covers all bytes but the first len, also where 256**32 wraps to 0. |
| `RLPReader.BlendedWord` | contracts/lib/RLP.sol:218-222 | The last word stored has the first len bytes of the source and the rest of the destination. |
| `RLPReader.CopyRLPBytes` | contracts/lib/RLP.sol:142-152 | Copies the raw bytes of an item and nothing else. |
| `RLPReader.CopyBytes` | contracts/lib/RLP.sol:185-197 | Copies the payload of an item and nothing else, or reverts when the item is shorter than its prefix. |
| `TrieProofs.VerifySound` | contracts/lib/TrieProofs.sol:16-124 | For any trie with 64-half-byte keys and any proof, a non-empty value returned is what the trie maps the path to, although neither leaf flags nor full extension matches are checked. |
| `TrieProofs.VerifyComplete` | contracts/lib/TrieProofs.sol:16-124 | For every key, on the list of nodes from the root towards it, the check returns what the trie holds, nothing for an absent key whose way ends at an empty slot, and reverts exactly for a key whose way ends inside a leaf's or an extension's own key. |
| `TrieProofs.SoundFrom` | contracts/lib/TrieProofs.sol:44-120 | From any node on, whatever is accepted is what the subtrie holds, and every half-byte on the way was matched. |
| `TrieProofs.CompleteFrom` | contracts/lib/TrieProofs.sol:44-120 | From any node on, the honest rest of the proof gives what the subtrie holds, or reverts exactly if the key strays. |
| `Absence.EmptyAnswerExactly` | contracts/lib/TrieProofs.sol:94-108 | For a key that holds something, some proof is answered with nothing exactly if a branch lies at the key's last half-byte. |
| `Absence.AnsweredShows` | contracts/lib/TrieProofs.sol:94-108 | An empty answer shows that the trie holds nothing at the key, unless a branch lies at its last half-byte. |
| `Absence.CutAnswered` | contracts/lib/TrieProofs.sol:94-98 | The proof that stops at such a branch is answered with nothing, whatever the key holds. |
| `TrieProofs.VerifyLoop` | contracts/lib/TrieProofs.sol:16-124 | The loop over the proof with its two running variables computes the recursive check. |
| `Trie.PayloadsAreNoDigests` | contracts/lib/TrieProofs.sol:79-87 | Where no leaf payload is 32 bytes long, no leaf can be taken for an extension. |
| `Nibbles.HexPrefixRoundTrip` | contracts/lib/TrieProofs.sol:165-182 | Compact decoding undoes the hex-prefix encoding, for leaves and extensions, odd and even. |
| `Nibbles.KnownHexPrefixes` | contracts/lib/TrieProofs.sol:165-182 | The hex-prefix encoding gives the documented bytes for leaves and extensions, odd and even. |
| `Nibbles.HexPrefixFlag` | contracts/lib/TrieProofs.sol:165-182 | The first byte of every encoding tells leaf from extension by 0x20 and odd from even by 0x10, and holds the first half-byte if odd. |
| `Nibbles.ExtractIsUnpacked` | contracts/lib/TrieProofs.sol:136-141 | The half-byte extracted by shifting the word is the one unpacking gives, at every position. |
| `Nibbles.DecodeNibblesLoop` | contracts/lib/TrieProofs.sol:143-163 | Fills the array with all half-bytes but those skipped, or reverts. |
| `Nibbles.SharedPrefixLength` | contracts/lib/TrieProofs.sol:184-192 | Gives the length of the longest common prefix from the offset on. |
| `Seals.VerifyCommitSealsTrusting` | contracts/core/IBFT2Client.sol:190-206 | Counts, modulo 256, exactly the trusted positions some non-empty seal recovers to, whatever the order or repetition of the seals; reverts exactly on a trusted entry that is no address. |
| `Seals.TrustingCount` | contracts/core/IBFT2Client.sol:190-206 | Up to 255 trusted validators the comparison is exact; beyond, acceptance still implies the threshold. |
| `Seals.VerifyCommitSeals` | contracts/core/IBFT2Client.sol:214-226 | Counts, modulo 256, exactly the positions whose seal recovers to the validator there, gives back those validators, and reverts exactly on too many seals or a signer entry that is no address. |
| `Seals.QuorumCount` | contracts/core/IBFT2Client.sol:214-226 | For any number of validators exactly the true quorums of at most 255 signers are accepted; so from 383 validators on nothing is. |
| `Seals.UnanimousFails` | contracts/core/IBFT2Client.sol:216-225 | 256 validators who all signed are rejected, because the counter wraps to 0. |
| `Seals.AcceptedHeadersIntersect` | contracts/core/IBFT2Client.sol:214-226 | Any two seal lists accepted for the same validators share more than floor((n-1)/3) signing positions. |
| `Seals.TrustThresholdHonest` | contracts/core/IBFT2Client.sol:205 | A third of n validators is sure to contain an honest one, with floor((n-1)/3) faulty, exactly if 3 divides n. |
| `Seals.RecoverCommitters` | pkg/chains/ether.go:8-18 | Maps each signer to one of its seals, and fails exactly if some seal recovers to nobody. |
| `Seals.GetCommitSeals` | pkg/chains/besu.go:77-101 | Gives one seal per validator, empty where there is none, and succeeds exactly on more than two thirds. |
| `Seals.CollectorAgrees` | pkg/chains/besu.go:77-101 | The contract finds signed exactly the positions the collector counted, returns the header's validators, and accepts exactly if at most 255 positions are signed. |
| `IBFT2Client.CheckHeaderAndUpdateState` | contracts/core/IBFT2Client.sol:88-126 | Accepts exactly the headers above their trusted height that pass both seal checks and the account proof, and gives the new states. |
| `HeaderAcceptance.AcceptedExactly` | contracts/core/IBFT2Client.sol:88-126 | For any stored states and latest height, a header that Besu encodes, with its honest account proof, is accepted if and only if the store's address has 20 bytes, the header is above a stored state whose validators are addresses, there are no more seals than validators, floor(n/3) of those validators, counted modulo 256, and more than two thirds, at most 255, of its own recover from its seals; then its time, storage root and sealed validators are stored at its height, and the latest height becomes the larger of the two. |
| `IBFT2Client.VerifyHeaderLoops` | contracts/core/IBFT2Client.sol:173-181 | Runs both seal checks over one block hash. |
| `IBFT2Client.TrustedLater` | contracts/core/IBFT2Client.sol:190-227 | The state an accepted header leaves can be trusted later exactly if the header has one seal slot per validator and lists addresses only; otherwise every later check with a seal reverts, and no header is accepted against it. |
| `IBFT2Client.ParseRoundTrip` | contracts/core/IBFT2Client.sol:444-459 | Parsing what Besu encodes gives back height, state root, time and the validators. |
| `IBFT2Client.ParsedExactly` | contracts/core/IBFT2Client.sol:444-459 | Of the lists whose extra data is a list, exactly those with fifteen fields, a state root of 32 bytes, four parts of extra data and a list of validators are parsed. |
| `IBFT2Client.MembershipSound` | contracts/core/IBFT2Client.sol:432-442 | Against the root of a trie of storage words, `true` means the trie holds the expected digest at the slot. |
| `IBFT2Client.MembershipComplete` | contracts/core/IBFT2Client.sol:432-442 | On the honest proof of a slot the check tells whether its word is the expected one, exactly if the word is stored and does not start with a zero byte; otherwise it reverts. |
| `LightClientRuns.RunTrusted` | contracts/core/IBFT2Client.sol:88-126 | In every run of updates the latest height has a state, all heights lie between creation and latest, the creation state stays, and every other state comes from a header that passed both seal checks against a state stored before at a lower height. |
| `LightClientRuns.RunMonotone` | contracts/core/IBFT2Client.sol:122-125 | The latest height never decreases. |
| `LightClientRuns.ChainToCreation` | contracts/core/IBFT2Client.sol:88-126 | From every accepted header a chain of accepted headers leads back to the creation. |
| `PeerBlocks.RunGenuine` | contracts/core/IBFT2Client.sol:88-126 | In every run of updates from a block of the peer, every stored state is that of a block of the peer, with the storage root of the store's account in its world state, if no header of the run carries an honest validator's seal without being a block's, and the validators of each block are guarded. |
| `PeerInstance.FollowsPeer` | contracts/core/IBFT2Client.sol:88-126 | For any digest function, account and 3 to 255 honest validators, and a recovery in which every digest and address have a string that recovers to it, these hypotheses hold in a run that accepts block 3 and then, below the latest height, block 2, stores both states and keeps 3 as the latest height. |
| `PeerBlocks.GuardedExactly` | contracts/core/IBFT2Client.sol:183-205 | Every third of the validators holds an honest one exactly if fewer than floor(n/3) are faulty. |
| `PeerBlocks.StorageRootSound` | contracts/core/IBFT2Client.sol:461-465 | An accepted account proof gives the storage root that the account has in the world state of the block. |
| `Wire.VarintRoundTrip` | pkg/ibc/channel/Channel.pb.go:810-820 | Reading a varint anywhere in a buffer undoes writing it, for every uint64. |
| `Wire.SovIsLength` | pkg/ibc/channel/Channel.pb.go:976-978 | The closed size formula counts exactly the bytes the varint loop writes. |
| `Wire.MergeFields` | pkg/ibc/channel/Channel.pb.go:982-1166 | Parsing the encoding of a list of fields is assigning them in order. |
| `Wire.LowBitsOfSignExtend` | pkg/ibc/channel/Channel.pb.go:1016-1031 | Truncating to 32 bits undoes the sign extension of an enumeration, negative ones included. |
| `Wire.VarintGroups` | pkg/ibc/channel/Channel.pb.go:810-820 | A varint is its number in groups of seven bits, the lowest first, the top bit set on all bytes but the last, which is 0 only for 0. |
| `WireBytes.DataOnWire` | pkg/ibc/app/App.pb.go:137-169 | The bytes of packet data: 0x0a, length and denomination, 0x10 and amount, 0x1a, length and sender, 0x22, length and receiver, each left out if empty or zero. |
| `WireBytes.PacketOnWire` | pkg/ibc/channel/Channel.pb.go:665-726 | The bytes of a packet, field by field with literal tags, empty fields left out and the height always written. |
| `WireBytes.ChannelOnWire` | pkg/ibc/channel/Channel.pb.go:496-538 | The bytes of a channel end, field by field with literal tags, its counterparty and every hop always written. |
| `WireBytes.ChannelNumbers` | pkg/ibc/channel/Channel.pb.go:31-92 | The enumerations of channel states, orderings and connection states have these numbers. |
| `WireBytes.ConnectionOnWire` | pkg/ibc/connection/Connection.pb.go:371-420 | The bytes of a connection end, field by field with literal tags, with its versions, counterparty and prefix. |
| `UnknownFields.UnknownIgnored` | pkg/ibc/channel/Channel.pb.go:2068-2145 | Bytes that mix known fields with unknown ones of every wire type, nested groups included, in any order parse to what the known ones say. |
| `UnknownFields.MergeOneUnknown` | pkg/ibc/channel/Channel.pb.go:1150-1166 | A field with an unknown number is stepped over whole; one with a known number and another wire type fails the parse. |
| `UnknownFields.VarintReadExactly` | pkg/ibc/channel/Channel.pb.go:986-1000 | A varint is read if and only if a byte below 128 comes within ten bytes, and reading goes on right after it. |
| `UnknownFields.TruncatedRefused` | pkg/ibc/channel/Channel.pb.go:1050-1080 | A string, byte or message field that runs past the end fails the parse, whether its number is known or not. |
| `UnknownFields.BadTagRefused` | pkg/ibc/channel/Channel.pb.go:1001-1010 | A field number of 0, the end of a group that was not opened and the wire types 6 and 7 fail the parse. |
| `AppMessages.Merging` | pkg/ibc/app/App.pb.go:212-380 | Parsing packet data into another message overwrites exactly the fields that are set. |
| `ChannelMessages.PacketMerging` | pkg/ibc/channel/Channel.pb.go:1530-1812 | Parsing a packet into another overwrites exactly the fields that are set, and those of the embedded height one by one. |
| `ChannelMessages.ChannelMerging` | pkg/ibc/channel/Channel.pb.go:982-1166 | Parsing a channel end into another overwrites the fields that are set, merges the counterparty and adds the hops. |
| `ConnectionMessages.ConnectionMerging` | pkg/ibc/connection/Connection.pb.go:639-828 | Parsing a connection end into another overwrites the fields that are set, merges the counterparty, nil or not, and adds the versions. |
| `AppMessages.RoundTrip` | pkg/ibc/app/App.pb.go:212-380 | Parsing the bytes of packet data into a fresh message gives it back. |
| `AppMessages.EncodeInjective` | pkg/ibc/app/App.pb.go:137-169 | Different packet data have different bytes. |
| `ChannelMessages.PacketRoundTrip` | pkg/ibc/channel/Channel.pb.go:1530-1812 | Parsing the bytes of a packet gives it back, embedded height included. |
| `ChannelMessages.ChannelRoundTrip` | pkg/ibc/channel/Channel.pb.go:982-1166 | Parsing the bytes of a channel end gives it back, for all enumeration values and any list of hops. |
| `ChannelMessages.PacketEncodingInjective` | pkg/ibc/channel/Channel.pb.go:665-726 | Different packets have different bytes. |
| `ChannelMessages.ChannelEncodingInjective` | pkg/ibc/channel/Channel.pb.go:496-538 | Different channel ends of the host have different bytes. |
| `ConnectionMessages.ConnectionRoundTrip` | pkg/ibc/connection/Connection.pb.go:639-828 | Parsing the bytes of a connection end gives it back, repeated versions and nil pointers included. |
| `ConnectionMessages.CounterpartyRoundTrip` | pkg/ibc/connection/Connection.pb.go:829-978 | Parsing the bytes of a counterparty gives it back, with or without a prefix. |
| `ConnectionMessages.VersionRoundTrip` | pkg/ibc/connection/Connection.pb.go:1063-1176 | Parsing the bytes of a version gives it back with all its features, empty ones too. |
| `ConnectionMessages.ConnectionEncodingInjective` | pkg/ibc/connection/Connection.pb.go:371-420 | Different connection ends of the host have different bytes. |
| `Marshalling.PutVarint` | pkg/ibc/channel/Channel.pb.go:810-820 | The loop writes exactly the varint, ending where it should, and nothing else. |
| `MessageMarshalling.MarshalData` | pkg/ibc/app/App.pb.go:137-169 | Filling the buffer backwards leaves exactly the encoding and nothing else changed. |
| `MessageMarshalling.MarshalHeight` | pkg/ibc/channel/Channel.pb.go:792-808 | Filling the buffer backwards leaves exactly the encoding and nothing else changed. |
| `MessageMarshalling.MarshalPacket` | pkg/ibc/channel/Channel.pb.go:665-726 | Filling the buffer backwards leaves exactly the encoding and nothing else changed. |
| `MessageMarshalling.MarshalChannelCounterparty` | pkg/ibc/channel/Channel.pb.go:555-575 | Filling the buffer backwards leaves exactly the encoding and nothing else changed. |
| `MessageMarshalling.MarshalChannel` | pkg/ibc/channel/Channel.pb.go:496-538 | Filling the buffer backwards leaves exactly the encoding and nothing else changed. |
| `MessageMarshalling.MarshalPrefix` | pkg/ibc/connection/Connection.pb.go:486-499 | Filling the buffer backwards leaves exactly the encoding and nothing else changed. |
| `MessageMarshalling.MarshalVersion` | pkg/ibc/connection/Connection.pb.go:516-538 | Filling the buffer backwards leaves exactly the encoding and nothing else changed. |
| `MessageMarshalling.MarshalCounterparty` | pkg/ibc/connection/Connection.pb.go:437-469 | Filling the buffer backwards leaves exactly the encoding and nothing else changed. |
| `MessageMarshalling.MarshalConnection` | pkg/ibc/connection/Connection.pb.go:371-420 | Filling the buffer backwards leaves exactly the encoding and nothing else changed. |
| `MessageMarshalling.DataSizeIsLength` | pkg/ibc/app/App.pb.go:182-204 | `Size` is the length of the encoding. |
| `MessageMarshalling.HeightSizeIsLength` | pkg/ibc/channel/Channel.pb.go:961-974 | `Size` is the length of the encoding. |
| `MessageMarshalling.PacketSizeIsLength` | pkg/ibc/channel/Channel.pb.go:900-935 | `Size` is the length of the encoding. |
| `MessageMarshalling.ChannelSizeIsLength` | pkg/ibc/channel/Channel.pb.go:821-846 | `Size` is the length of the encoding. |
| `MessageMarshalling.ChannelCounterpartySizeIsLength` | pkg/ibc/channel/Channel.pb.go:848-863 | `Size` is the length of the encoding. |
| `MessageMarshalling.VersionSizeIsLength` | pkg/ibc/connection/Connection.pb.go:614-631 | `Size` is the length of the encoding. |
| `MessageMarshalling.CounterpartySizeIsLength` | pkg/ibc/connection/Connection.pb.go:580-599 | `Size` is the length of the encoding. |
| `MessageMarshalling.ConnectionSizeIsLength` | pkg/ibc/connection/Connection.pb.go:551-578 | `Size` is the length of the encoding. |
| `MessageMarshalling.PacketBytes` | pkg/ibc/channel/Channel.pb.go:650-658 | Allocating `Size` bytes and filling them backwards gives exactly the encoding. |
| `MessageMarshalling.ChannelBytes` | pkg/ibc/channel/Channel.pb.go:481-489 | Allocating `Size` bytes and filling them backwards gives exactly the encoding. |
| `MessageMarshalling.ConnectionBytes` | pkg/ibc/connection/Connection.pb.go:356-364 | Allocating `Size` bytes and filling them backwards gives exactly the encoding. |
| `MessageMarshalling.DataBytes` | pkg/ibc/app/App.pb.go:122-130 | Allocating `Size` bytes and filling them backwards gives exactly the encoding. |
| `Unmarshalling.Unmarshal` | pkg/ibc/channel/Channel.pb.go:982-1166 | The parsing loop with its inner loops merges the fields of any bytes, known and unknown, into the message, or fails as specified. |
| `Unmarshalling.SkipLoop` | pkg/ibc/channel/Channel.pb.go:2068-2145 | Steps over one unknown field and all the groups it opens, or fails as specified. |
| `Unmarshalling.ReadVarintLoop` | pkg/ibc/channel/Channel.pb.go:986-1000 | Reads a varint of at most ten bytes, or fails on overflow or end of input. |
| `Unmarshalling.VarintBitsDisjoint` | pkg/ibc/channel/Channel.pb.go:997 | The bits contributed by each byte of a varint are disjoint from those before. |
| `Unmarshalling.ParseData` | pkg/ibc/app/App.pb.go:122-380 | Marshalling and then parsing packet data gives it back. |
| `Unmarshalling.ParsePacket` | pkg/ibc/channel/Channel.pb.go:650-1812 | Marshalling and then parsing a packet gives it back. |
| `Unmarshalling.ParseChannel` | pkg/ibc/channel/Channel.pb.go:481-1166 | Marshalling and then parsing a channel end gives it back. |
| `Unmarshalling.ParseConnection` | pkg/ibc/connection/Connection.pb.go:356-828 | Marshalling and then parsing a connection end gives it back. |

## Left out

- Ports with '/': the capability of a channel could then serve as that of a port, which the contracts do not prevent.
- Other applications than the transfer application, and its callers' access control, and events. Gas is modelled only where a loop does not end without it.
- `IBCHandler.writeAcknowledgement` called by a module later on: the transfer application answers at once and never calls it.
- Channel closing, `validateSelfClient` and `isSupportedVersion`, which always answer true, and verification of a client's consensus state, which no handshake step calls.
- The roles of administrators and owners: who may register clients, bind ports and set operators is a parameter or not modelled.
- `IBCHandler`'s owner and the host's `onlyIBCModule`: the handler is the host's only caller.
- The wrapping of client and consensus states in `Any`, and the Solidity protobuf libraries, which rest on a runtime that is not part of this model.
- ClientContract.UpdateClient: takes the light client's answer as a parameter, one for each height and not for each header and moment; `client/` models the light client itself.
- ClientContract.Verify: membership in the peer's store and the provability of the digest stand for the storage proof, which `proof/` and `client/` treat.
- TrieProofs.VerifyLoop: reads memory as it was when verification began; items that run past the proof into memory allocated later are not distinguished.
- RLPReader.NumItems: pointers are unbounded numbers; `RLPReader.ItemLengthBound` shows that pointers into real memory do not wrap.
- Unmarshalling.Unmarshal: one generic loop, instantiated with a schema, stands for the loop the generator writes out per message; a nil slice and an empty one are not told apart.
- The generated types `IdentifiedChannel`, `PacketState`, `IBFT2.pb.go` and `MockClient.pb.go`: the same codec pattern again.
- `ParseHeader`, `GetSealingHeaderBytes` and `GetChainHeaderBytes` of `pkg/chains/besu.go` rest on a library's RLP codec; `IBFT2Client.ParseRoundTrip` is about its output.
- The parts of `strings.sol` the application does not use, `toBoolean` and `toAddress` of `RLP.sol`.
- Contract bindings, RPC clients, wallets, deployment and chain configuration.
