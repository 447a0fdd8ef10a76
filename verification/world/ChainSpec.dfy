/**
 One chain: the host, the transfer application, its bank, and the handler's entry points,
 each of which is one transaction that either commits or leaves the chain as it was.
 */
module ChainSpec {
  import opened Prelude
  import opened Sums
  import opened IBCIdentifier
  import opened IBCTypes
  import opened HostSpec
  import opened AppMessages
  import opened BankSpec
  import opened TransferSpec
  import opened AddressText
  import ClientSpec
  import ConnectionSpec
  import ChannelSpec

  datatype SendEvent = SendEvent(packet: Packet, data: FungibleTokenPacketData)

  datatype AckEvent = AckEvent(packet: Packet, acknowledgement: Bytes)

  /**
   `blocks` are the sealed blocks, and the block being built has the next number and the time
   `now`. `sent`, `received` and `acknowledged` are the handler's event logs. The last five
   fields only record history: the value each connection and channel was created with,
   the channels in order of creation, per denomination, what the application's account was
   paid outside of `sendTransfer`, and, per token, what the bank was paid outside of `deposit`.
   */
  datatype Chain = Chain(
    host: HostState,
    bank: BankState,
    app: AppState,
    erc20Held: map<Address, nat>,
    blocks: seq<ConsensusState>,
    now: uint64,
    sent: seq<SendEvent>,
    received: seq<AckEvent>,
    acknowledged: seq<AckEvent>,
    connectionOrigins: map<Bytes, ConnectionEnd>,
    channelOrigins: map<ChannelKey, Channel>,
    channelLog: seq<ChannelKey>,
    direct: map<Bytes, nat>,
    donated: map<Address, nat>)

  /** Records a payment to `account` if it is the application's own. */
  function PaidDirectly(c: Chain, account: Bytes, denom: Bytes, amount: nat): map<Bytes, nat> {
    if account == c.app.address then c.direct[denom := At(c.direct, denom) + amount] else c.direct
  }

  // ----- Clients and connections -----

  function CreateClient(c: Chain, clientType: Bytes, height: uint64, client: ClientState, consensus: ConsensusState):
    Result<Chain>
  {
    var (host, _) :- ClientSpec.CreateClient(c.host, clientType, height, client, consensus);
    Ok(c.(host := host))
  }

  function UpdateClient(c: Chain, clientId: Bytes, height: uint64, consensus: ConsensusState): Result<Chain> {
    var host :- ClientSpec.UpdateClient(c.host, clientId, height, consensus);
    Ok(c.(host := host))
  }

  function RecordConnection(c: Chain, host: HostState, connectionId: Bytes): Chain
    requires connectionId in host.store.connections
  {
    c.(host := host, connectionOrigins := c.connectionOrigins[connectionId := host.store.connections[connectionId]])
  }

  function ConnectionOpenInit(c: Chain, msg: MsgConnectionOpenInit): Chain {
    var (host, connectionId) := ConnectionSpec.ConnectionOpenInit(c.host, msg);
    RecordConnection(c, host, connectionId)
  }

  function ConnectionOpenTry(c: Chain, msg: MsgConnectionOpenTry): Result<Chain> {
    var (host, connectionId) :- ConnectionSpec.ConnectionOpenTry(c.host, msg);
    Ok(RecordConnection(c, host, connectionId))
  }

  function ConnectionOpenAck(c: Chain, msg: MsgConnectionOpenAck): Result<Chain> {
    var host :- ConnectionSpec.ConnectionOpenAck(c.host, msg);
    Ok(c.(host := host))
  }

  function ConnectionOpenConfirm(c: Chain, msg: MsgConnectionOpenConfirm): Result<Chain> {
    var host :- ConnectionSpec.ConnectionOpenConfirm(c.host, msg);
    Ok(c.(host := host))
  }

  // ----- Channels -----

  /** `bindPort`, for the one application. */
  function BindPort(c: Chain, portId: Bytes): Result<Chain> {
    var host :- ClaimCapability(c.host, portId, c.app.address);
    Ok(c.(host := host))
  }

  /** The callback of a new channel and the claim of its capability. */
  function RecordChannel(c: Chain, host: HostState, portId: Bytes, channelId: Bytes): Result<Chain>
    requires ChannelKey(portId, channelId) in host.store.channels
  {
    var key := ChannelKey(portId, channelId);
    var owner :- ModuleOwner(host, portId);
    var claimed :- ClaimCapability(host, ChannelCapabilityPath(portId, channelId), owner);
    Ok(c.(host := claimed,
          app := c.app.(escrows := c.app.escrows[channelId := c.app.address]),
          channelOrigins := c.channelOrigins[key := host.store.channels[key]],
          channelLog := c.channelLog + [key]))
  }

  function ChannelOpenInit(c: Chain, msg: MsgChannelOpenInit): Result<Chain> {
    var (host, channelId) :- ChannelSpec.ChannelOpenInit(c.host, msg);
    RecordChannel(c, host, msg.portId, channelId)
  }

  function ChannelOpenTry(c: Chain, msg: MsgChannelOpenTry): Result<Chain> {
    var (host, channelId) :- ChannelSpec.ChannelOpenTry(c.host, msg);
    RecordChannel(c, host, msg.portId, channelId)
  }

  function ChannelOpenAck(c: Chain, msg: MsgChannelOpenAck): Result<Chain> {
    var host :- ChannelSpec.ChannelOpenAck(c.host, msg);
    var _ :- ModuleOwner(host, msg.portId);
    Ok(c.(host := host))
  }

  function ChannelOpenConfirm(c: Chain, msg: MsgChannelOpenConfirm): Result<Chain> {
    var host :- ChannelSpec.ChannelOpenConfirm(c.host, msg);
    var _ :- ModuleOwner(host, msg.portId);
    Ok(c.(host := host))
  }

  // ----- Packets -----

  const TWO_62: int := 0x4000_0000_0000_0000

  /** `sendTransfer`; no transaction carries a denomination of 2^62 bytes. */
  function SendTransfer(c: Chain, t: Transfer): Result<Chain> {
    var _ :- Require(|t.denom| < TWO_62);
    var bank :- TakeTokens(c.bank, c.app, t);
    var end :- GetChannel(c.host, t.port, t.channel);
    var e := TransferEvent(t, SequenceAt(c.host.nextSequenceSends, ChannelKey(t.port, t.channel)), end);
    var _ :- Require(AuthenticateCapability(c.host, ChannelCapabilityPath(t.port, t.channel), c.app.address));
    var host :- ChannelSpec.SendPacket(c.host, e.packet);
    Ok(c.(host := host, bank := bank, sent := c.sent + [e]))
  }

  /** The packet of a transfer, and the data it carries. */
  function TransferEvent(t: Transfer, sequence: uint64, end: Channel): SendEvent {
    var data := FungibleTokenPacketData(t.denom, t.amount, t.sender, t.receiver);
    SendEvent(Packet(sequence, t.port, t.channel, end.counterparty.portId, end.counterparty.channelId, Encode(data),
                     Height(0, t.timeoutHeight), 0),
              data)
  }

  /** What the receiver's account is credited with, and in which denomination, when a payment succeeds. */
  function ReceivedDenom(p: Packet, denom: Bytes): Bytes {
    if IsVoucher(p.sourcePort, p.sourceChannel, denom)
    then Unprefixed(p.sourcePort, p.sourceChannel, denom)
    else DenomPrefix(p.destinationPort, p.destinationChannel) + denom
  }

  function RecvPacket(c: Chain, msg: MsgPacketRecv, env: Env): Result<Chain> {
    var p := msg.packet;
    var _ :- ModuleOwner(c.host, ChannelCapabilityPath(p.destinationPort, p.destinationChannel));
    var (bank, ack) :- OnRecvPacket(c.bank, c.app, p);
    var data :- Decode(p.data);
    var host :- ChannelSpec.RecvPacket(c.host, msg, env);
    var host2 :- if |ack| > 0 then
                   ChannelSpec.WriteAcknowledgement(host, p.destinationPort, p.destinationChannel, p.sequence, ack)
                 else Ok(host);
    Ok(c.(host := host2, bank := bank, received := c.received + [AckEvent(p, ack)],
          direct := if ack == ACK_SUCCESS
                    then PaidDirectly(c, data.receiver, ReceivedDenom(p, data.denom), data.amount) else c.direct))
  }

  function AcknowledgePacket(c: Chain, msg: MsgPacketAcknowledgement): Result<Chain> {
    var p := msg.packet;
    var _ :- ModuleOwner(c.host, ChannelCapabilityPath(p.sourcePort, p.sourceChannel));
    var bank :- OnAcknowledgementPacket(c.bank, c.app, p, msg.acknowledgement);
    var host :- ChannelSpec.AcknowledgePacket(c.host, msg);
    Ok(c.(host := host, bank := bank, acknowledged := c.acknowledged + [AckEvent(p, msg.acknowledgement)]))
  }

  // ----- The bank's own entry points -----

  /** A holder moving tokens; `caller` is the holder. */
  function BankTransfer(c: Chain, caller: Address, to: Address, denom: Bytes, amount: nat): Result<Chain> {
    var bank :- TransferFrom(c.bank, caller, to, denom, amount);
    Ok(c.(bank := bank, direct := PaidDirectly(c, to, denom, amount)))
  }

  /** `deposit`; `paid` is whether the token contract moved the amount, and no ledger holds 2^256 or more. */
  function Deposit(c: Chain, token: Address, amount: nat, receiver: Address, paid: bool): Result<Chain> {
    var held := At(c.erc20Held, token);
    var _ :- Require(paid && held + amount < TWO_256);
    Ok(c.(erc20Held := c.erc20Held[token := held + amount],
          bank := Credit(c.bank, AddressToString(token), receiver, amount),
          direct := PaidDirectly(c, receiver, AddressToString(token), amount)))
  }

  /** Someone pays the bank's account with a token contract without going through `deposit`. */
  function Donate(c: Chain, token: Address, amount: nat): Result<Chain> {
    var held := At(c.erc20Held, token);
    var _ :- Require(held + amount < TWO_256);
    Ok(c.(erc20Held := c.erc20Held[token := held + amount],
          donated := c.donated[token := At(c.donated, token) + amount]))
  }

  /** `withdraw`; a token contract pays only what the bank holds with it. */
  function Withdraw(c: Chain, caller: Address, token: Address, amount: nat, paid: bool): Result<Chain> {
    var bank :- Debit(c.bank, AddressToString(token), caller, amount);
    var held := At(c.erc20Held, token);
    var _ :- Require(paid && held >= amount);
    Ok(c.(erc20Held := c.erc20Held[token := held - amount], bank := bank))
  }
}
