/**
 The handler and the transfer application: each entry point is one transaction over the
 host, the bank and the application, which a revert undoes.
 */
module HandlerContract {
  import opened Prelude
  import opened IBCIdentifier
  import opened IBCTypes
  import opened HostSpec
  import opened AppMessages
  import opened BankSpec
  import opened TransferSpec
  import opened AddressText
  import opened ChainSpec
  import opened HostContract
  import opened BankContract
  import opened ConnectionContract
  import ClientContract
  import ChannelContract
  import opened PacketSteps
  import ClientSpec
  import ConnectionSpec
  import ChannelSpec
  import World

  /** A Solidity `mapping` of escrow accounts, and the tokens the application moves. */
  class ICS20Transfer {
    const tokens: ICS20TransferBank
    var channelEscrowAddresses: map<Bytes, Address>

    constructor (tokens: ICS20TransferBank)
      ensures this.tokens == tokens && channelEscrowAddresses == map[]
    {
      this.tokens := tokens;
      channelEscrowAddresses := map[];
    }

    ghost function State(): AppState
      reads this
    {
      AppState(tokens.address, channelEscrowAddresses)
    }

    method GetEscrowAddress(channel: Bytes) returns (r: Result<Address>)
      ensures r == EscrowAddress(State(), channel)
    {
      if channel !in channelEscrowAddresses || channelEscrowAddresses[channel] == ZERO_ADDRESS {
        return Revert;
      }
      return Ok(channelEscrowAddresses[channel]);
    }

    /** The payment part of `sendTransfer`. */
    method Take(t: Transfer) returns (r: Result<()>)
      requires tokens.address in tokens.bank.operators
      modifies tokens.bank
      ensures match TakeTokens(old(tokens.bank.State()), State(), t)
              case Ok(b) => r.Ok? && tokens.bank.State() == b
              case Revert => r.Revert? && tokens.bank.State() == old(tokens.bank.State())
      ensures tokens.bank.operators == old(tokens.bank.operators) && tokens.bank.erc20Held == old(tokens.bank.erc20Held)
    {
      var paid: bool;
      if !IsVoucher(t.port, t.channel, t.denom) {
        var escrow := GetEscrowAddress(t.channel);
        if escrow.Revert? {
          return Revert;
        }
        paid := tokens.TransferFrom(t.sender, escrow.value, t.denom, t.amount);
      } else {
        paid := tokens.Burn(t.sender, t.denom, t.amount);
      }
      return Require(paid);
    }

    /** `onRecvPacket`: the outcome of the payment is the acknowledgement. */
    method OnRecv(p: Packet) returns (r: Result<Bytes>)
      requires tokens.address in tokens.bank.operators
      modifies tokens.bank
      ensures match OnRecvPacket(old(tokens.bank.State()), State(), p)
              case Ok((b, ack)) => r == Ok(ack) && tokens.bank.State() == b
              case Revert => r.Revert? && tokens.bank.State() == old(tokens.bank.State())
      ensures tokens.bank.operators == old(tokens.bank.operators) && tokens.bank.erc20Held == old(tokens.bank.erc20Held)
    {
      hide Decode;
      var decoded := Decode(p.data);
      if decoded.Revert? {
        return Revert;
      }
      var data := decoded.value;
      var success: bool;
      if IsVoucher(p.sourcePort, p.sourceChannel, data.denom) {
        var escrow := GetEscrowAddress(p.destinationChannel);
        if escrow.Revert? || |data.receiver| != 20 {
          return Revert;
        }
        success := tokens.TransferFrom(escrow.value, data.receiver, Unprefixed(p.sourcePort, p.sourceChannel, data.denom), data.amount);
      } else {
        if |data.receiver| != 20 {
          return Revert;
        }
        success := tokens.Mint(data.receiver, DenomPrefix(p.destinationPort, p.destinationChannel) + data.denom, data.amount);
      }
      return Ok(if success then ACK_SUCCESS else ACK_FAILURE);
    }

    /** `onAcknowledgementPacket`, with the refund. */
    method OnAcknowledgement(p: Packet, ack: Bytes) returns (r: Result<()>)
      requires tokens.address in tokens.bank.operators
      modifies tokens.bank
      ensures match OnAcknowledgementPacket(old(tokens.bank.State()), State(), p, ack)
              case Ok(b) => r.Ok? && tokens.bank.State() == b
              case Revert => r.Revert? && tokens.bank.State() == old(tokens.bank.State())
      ensures tokens.bank.operators == old(tokens.bank.operators) && tokens.bank.erc20Held == old(tokens.bank.erc20Held)
    {
      hide Decode;
      if |ack| != 1 {
        return Revert;
      }
      if ack[0] == 1 {
        return Ok(());
      }
      var decoded := Decode(p.data);
      if decoded.Revert? {
        return Revert;
      }
      var data := decoded.value;
      var paid: bool;
      if !IsVoucher(p.sourcePort, p.sourceChannel, data.denom) {
        var escrow := GetEscrowAddress(p.sourceChannel);
        if escrow.Revert? || |data.sender| != 20 {
          return Revert;
        }
        paid := tokens.TransferFrom(escrow.value, data.sender, data.denom, data.amount);
      } else {
        if |data.sender| != 20 {
          return Revert;
        }
        paid := tokens.Mint(data.sender, data.denom, data.amount);
      }
      return Require(paid);
    }

    /** `onChanOpenInit` and `onChanOpenTry`. */
    method OnChanOpen(channelId: Bytes)
      modifies this
      ensures State() == old(State()).(escrows := old(channelEscrowAddresses)[channelId := tokens.address])
    {
      channelEscrowAddresses := channelEscrowAddresses[channelId := tokens.address];
    }
  }

  /** The chain after a transaction: what it committed, or the chain as it was. */
  ghost function Committed(r: Result<Chain>, c: Chain): Chain {
    if r.Ok? then r.value else c
  }

  class IBCHandler {
    const host: IBCHost
    const app: ICS20Transfer
    var sent: seq<SendEvent>
    var received: seq<AckEvent>
    var acknowledged: seq<AckEvent>
    ghost var blocks: seq<ConsensusState>
    ghost var now: uint64
    ghost var connectionOrigins: map<Bytes, ConnectionEnd>
    ghost var channelOrigins: map<ChannelKey, Channel>
    ghost var channelLog: seq<ChannelKey>
    ghost var direct: map<Bytes, nat>
    ghost var donated: map<Address, nat>

    ghost function Chain(): Chain
      reads this, host, app, app.tokens.bank
    {
      ChainSpec.Chain.Chain(host.State(), app.tokens.bank.State(), app.State(), app.tokens.bank.erc20Held, blocks, now, sent,
                            received, acknowledged, connectionOrigins, channelOrigins, channelLog, direct, donated)
    }

    ghost predicate Valid()
      reads this, host, app, app.tokens.bank
    {
      && host.Valid()
      && SingleVersions(host.connections)
      && app.tokens.address in app.tokens.bank.operators
    }

    constructor (host: IBCHost, app: ICS20Transfer)
      requires host.Valid() && host.State() == EmptyHost(host.lightClient)
      requires app.tokens.address in app.tokens.bank.operators && app.channelEscrowAddresses == map[]
      requires app.tokens.bank.State() == BankState(map[]) && app.tokens.bank.erc20Held == map[]
      ensures this.host == host && this.app == app
      ensures Valid()
      ensures Chain() == World.Genesis(World.ChainSetup(app.tokens.address, host.lightClient))
    {
      this.host, this.app := host, app;
      sent, received, acknowledged := [], [], [];
      blocks, now, connectionOrigins, channelOrigins, channelLog, direct, donated := [], 0, map[], map[], [], map[], map[];
      new;
      assert host.connections == host.State().store.connections == map[];
    }

    // ----- Clients and connections -----

    method RegisterClient(clientType: Bytes) returns (ok: bool)
      requires Valid()
      modifies this, host
      ensures Valid() && ok == ClientSpec.RegisterClient(old(host.State()), clientType).Ok?
      ensures Chain() == if ok then old(Chain()).(host := ClientSpec.RegisterClient(old(host.State()), clientType).value)
                         else old(Chain())
    {
      hide Synced, SingleVersions;
      var r := host.SetClientImpl(clientType);
      return r.Ok?;
    }

    method CreateClient(clientType: Bytes, height: uint64, client: ClientState, consensus: ConsensusState) returns (ok: bool)
      requires Valid()
      modifies this, host
      ensures Valid() && ok == ChainSpec.CreateClient(old(Chain()), clientType, height, client, consensus).Ok?
      ensures Chain() == Committed(ChainSpec.CreateClient(old(Chain()), clientType, height, client, consensus), old(Chain()))
    {
      hide ClientId, Synced, SingleVersions;
      var saved := host.Snapshot();
      var r := ClientContract.CreateClient(host, clientType, height, client, consensus);
      if r.Revert? {
        host.Restore(saved);
      }
      return r.Ok?;
    }

    method UpdateClient(clientId: Bytes, height: uint64, consensus: ConsensusState) returns (ok: bool)
      requires Valid()
      modifies this, host
      ensures Valid() && ok == ChainSpec.UpdateClient(old(Chain()), clientId, height, consensus).Ok?
      ensures Chain() == Committed(ChainSpec.UpdateClient(old(Chain()), clientId, height, consensus), old(Chain()))
    {
      hide Synced, SingleVersions, HasClientImpl;
      var saved := host.Snapshot();
      var r := ClientContract.UpdateClient(host, clientId, height, consensus);
      if r.Revert? {
        host.Restore(saved);
      }
      return r.Ok?;
    }

    method ConnectionOpenInit(msg: MsgConnectionOpenInit) returns (id: Bytes)
      requires Valid()
      modifies this, host
      ensures Valid() && Chain() == ChainSpec.ConnectionOpenInit(old(Chain()), msg)
    {
      hide ConnectionId, Synced, SingleVersions, ConnectionSpec.GetVersions;
      id := ConnectionContract.OpenInit(host, msg);
      connectionOrigins := connectionOrigins[id := host.connections[id]];
    }

    method ConnectionOpenTry(msg: MsgConnectionOpenTry) returns (ok: bool)
      requires Valid()
      modifies this, host
      ensures Valid() && ok == ChainSpec.ConnectionOpenTry(old(Chain()), msg).Ok?
      ensures Chain() == Committed(ChainSpec.ConnectionOpenTry(old(Chain()), msg), old(Chain()))
    {
      hide ConnectionId, Synced, SingleVersions, ConnectionSpec.GetVersions, VerifyMembership;
      var saved := host.Snapshot();
      var r := ConnectionContract.OpenTry(host, msg);
      if r.Revert? {
        host.Restore(saved);
        return false;
      }
      connectionOrigins := connectionOrigins[r.value := host.connections[r.value]];
      return true;
    }

    method ConnectionOpenAck(msg: MsgConnectionOpenAck) returns (ok: bool)
      requires Valid()
      modifies this, host
      ensures Valid() && ok == ChainSpec.ConnectionOpenAck(old(Chain()), msg).Ok?
      ensures Chain() == Committed(ChainSpec.ConnectionOpenAck(old(Chain()), msg), old(Chain()))
    {
      hide Synced, SingleVersions, ConnectionSpec.ConnectionOpenAck;
      var saved := host.Snapshot();
      var r := ConnectionContract.OpenAck(host, msg);
      if r.Revert? {
        host.Restore(saved);
      }
      return r.Ok?;
    }

    method ConnectionOpenConfirm(msg: MsgConnectionOpenConfirm) returns (ok: bool)
      requires Valid()
      modifies this, host
      ensures Valid() && ok == ChainSpec.ConnectionOpenConfirm(old(Chain()), msg).Ok?
      ensures Chain() == Committed(ChainSpec.ConnectionOpenConfirm(old(Chain()), msg), old(Chain()))
    {
      hide Synced, SingleVersions, ConnectionSpec.ConnectionOpenConfirm;
      var saved := host.Snapshot();
      var r := ConnectionContract.OpenConfirm(host, msg);
      if r.Revert? {
        host.Restore(saved);
      }
      return r.Ok?;
    }

    // ----- Channels -----

    method BindPort(portId: Bytes) returns (ok: bool)
      requires Valid()
      modifies this, host
      ensures Valid() && ok == ChainSpec.BindPort(old(Chain()), portId).Ok?
      ensures Chain() == Committed(ChainSpec.BindPort(old(Chain()), portId), old(Chain()))
    {
      hide Synced, SingleVersions;
      var r := host.ClaimCapability(portId, app.tokens.address);
      return r.Ok?;
    }

    /** The callback of a new channel, and the claim of its capability. */
    method Register(portId: Bytes, channelId: Bytes) returns (ok: bool)
      requires ChannelKey(portId, channelId) in host.channels
      modifies this, host, app
      ensures match RecordChannel(old(Chain()), old(host.State()), portId, channelId)
              case Ok(d) => ok && (old(Valid()) ==> Valid()) && Chain() == d
              case Revert => !ok && ThisKept(old(Chain()), Chain())
      ensures ok ==> app.tokens.bank.State() == old(app.tokens.bank.State())
    {
      hide Synced, SingleVersions, ChannelCapabilityPath;
      var owner := host.GetModuleOwner(portId);
      if owner.Revert? {
        return false;
      }
      var claimed := host.ClaimCapability(ChannelCapabilityPath(portId, channelId), owner.value);
      if claimed.Revert? {
        return false;
      }
      app.OnChanOpen(channelId);
      var key := ChannelKey(portId, channelId);
      channelOrigins := channelOrigins[key := host.channels[key]];
      channelLog := channelLog + [key];
      return true;
    }

    method ChannelOpenInit(msg: MsgChannelOpenInit) returns (ok: bool)
      requires Valid()
      modifies this, host, app
      ensures (ok ==> SlashFree(msg.portId)) ==> Valid()
      ensures ok == ChainSpec.ChannelOpenInit(old(Chain()), msg).Ok?
      ensures Chain() == Committed(ChainSpec.ChannelOpenInit(old(Chain()), msg), old(Chain()))
    {
      hide Synced, SingleVersions, ChannelId, RecordChannel, SlashFree, ChannelSpec.HopConnection;
      var saved := host.Snapshot();
      var r := ChannelContract.OpenInit(host, msg);
      if r.Revert? {
        host.Restore(saved);
        return false;
      }
      RecordIgnoresHost(old(Chain()), Chain(), host.State(), msg.portId, r.value);
      ok := Register(msg.portId, r.value);
      if !ok {
        host.Restore(saved);
      }
    }

    method ChannelOpenTry(msg: MsgChannelOpenTry) returns (ok: bool)
      requires Valid()
      modifies this, host, app
      ensures (ok ==> SlashFree(msg.portId)) ==> Valid()
      ensures ok == ChainSpec.ChannelOpenTry(old(Chain()), msg).Ok?
      ensures Chain() == Committed(ChainSpec.ChannelOpenTry(old(Chain()), msg), old(Chain()))
    {
      hide Synced, SingleVersions, ChannelId, RecordChannel, SlashFree, ChannelSpec.HopConnection, VerifyMembership;
      hide ChannelSpec.GetCounterpartyHops;
      var saved := host.Snapshot();
      var r := ChannelContract.OpenTry(host, msg);
      if r.Revert? {
        host.Restore(saved);
        return false;
      }
      RecordIgnoresHost(old(Chain()), Chain(), host.State(), msg.portId, r.value);
      ok := Register(msg.portId, r.value);
      if !ok {
        host.Restore(saved);
      }
    }

    method ChannelOpenAck(msg: MsgChannelOpenAck) returns (ok: bool)
      requires Valid()
      modifies this, host
      ensures Valid() && ok == ChainSpec.ChannelOpenAck(old(Chain()), msg).Ok?
      ensures Chain() == Committed(ChainSpec.ChannelOpenAck(old(Chain()), msg), old(Chain()))
    {
      hide Synced, SingleVersions, VerifyMembership, ChannelSpec.OpenConnection, ChannelSpec.GetCounterpartyHops;
      hide HostSpec.GetChannel, ModuleOwner;
      var saved := host.Snapshot();
      var r := ChannelContract.OpenAck(host, msg);
      if r.Revert? {
        host.Restore(saved);
        return false;
      }
      var owner := host.GetModuleOwner(msg.portId);
      if owner.Revert? {
        host.Restore(saved);
      }
      return owner.Ok?;
    }

    method ChannelOpenConfirm(msg: MsgChannelOpenConfirm) returns (ok: bool)
      requires Valid()
      modifies this, host
      ensures Valid() && ok == ChainSpec.ChannelOpenConfirm(old(Chain()), msg).Ok?
      ensures Chain() == Committed(ChainSpec.ChannelOpenConfirm(old(Chain()), msg), old(Chain()))
    {
      hide Synced, SingleVersions, VerifyMembership, ChannelSpec.OpenConnection, ChannelSpec.GetCounterpartyHops;
      hide HostSpec.GetChannel, ModuleOwner;
      var saved := host.Snapshot();
      var r := ChannelContract.OpenConfirm(host, msg);
      if r.Revert? {
        host.Restore(saved);
        return false;
      }
      var owner := host.GetModuleOwner(msg.portId);
      if owner.Revert? {
        host.Restore(saved);
      }
      return owner.Ok?;
    }

    // ----- Packets -----

    /** `sendPacket`, called by the application. */
    method SendPacket(p: Packet, data: FungibleTokenPacketData) returns (ok: bool)
      requires Valid()
      modifies this, host
      ensures match ChannelSpec.SendPacket(old(host.State()), p)
              case Ok(s) =>
                ok == AuthenticateCapability(old(host.State()), ChannelCapabilityPath(p.sourcePort, p.sourceChannel), app.tokens.address)
                && (ok ==> Valid() && Chain() == old(Chain()).(host := s, sent := old(sent) + [SendEvent(p, data)]))
              case Revert => !ok
      ensures !ok ==> ThisKept(old(Chain()), Chain())
    {
      hide Synced, SingleVersions, ChannelCapabilityPath;
      var mine := host.AuthenticateCapability(ChannelCapabilityPath(p.sourcePort, p.sourceChannel), app.tokens.address);
      if !mine {
        return false;
      }
      var r := ChannelContract.Send(host, p);
      if r.Revert? {
        return false;
      }
      sent := sent + [SendEvent(p, data)];
      return true;
    }

    /** `sendTransfer`, up to a revert. */
    method Dispatch(t: Transfer) returns (ok: bool)
      requires Valid()
      modifies this, host, app.tokens.bank
      ensures match ChainSpec.SendTransfer(old(Chain()), t)
              case Ok(d) => ok && Valid() && Chain() == d
              case Revert => !ok && StorageOnly(old(Chain()), Chain())
      ensures app.tokens.bank.operators == old(app.tokens.bank.operators)
    {
      hide Synced, SingleVersions, ChannelCapabilityPath, TakeTokens, Encode, ChannelSpec.SendPacket, HostSpec.GetChannel;
      hide AuthenticateCapability;
      if |t.denom| >= TWO_62 {
        return false;
      }
      var taken := app.Take(t);
      if taken.Revert? {
        return false;
      }
      var channel, found := host.GetChannel(t.port, t.channel);
      if !found {
        return false;
      }
      var key := ChannelKey(t.port, t.channel);
      var sequence := if key in host.nextSequenceSends then host.nextSequenceSends[key] else 0;
      var e := TransferEvent(t, sequence, channel);
      ok := SendPacket(e.packet, e.data);
    }

    /** `sendTransfer`. */
    method SendTransfer(t: Transfer) returns (ok: bool)
      requires Valid()
      modifies this, host, app.tokens.bank
      ensures Valid() && ok == ChainSpec.SendTransfer(old(Chain()), t).Ok?
      ensures Chain() == Committed(ChainSpec.SendTransfer(old(Chain()), t), old(Chain()))
    {
      hide Synced, SingleVersions, ChainSpec.SendTransfer;
      var saved := host.Snapshot();
      var balances := app.tokens.bank.balances;
      ok := Dispatch(t);
      if !ok {
        host.Restore(saved);
        app.tokens.bank.RestoreBalances(balances);
      }
    }

    /** `recvPacket`, up to a revert. */
    method Deliver(msg: MsgPacketRecv, env: Env) returns (ok: bool)
      requires Valid()
      modifies this, host, app.tokens.bank
      ensures match ChainSpec.RecvPacket(old(Chain()), msg, env)
              case Ok(d) => ok && Valid() && Chain() == d
              case Revert => !ok && StorageOnly(old(Chain()), Chain())
      ensures app.tokens.bank.operators == old(app.tokens.bank.operators)
    {
      hide Synced, SingleVersions, ChannelCapabilityPath, OnRecvPacket, Decode, ChannelSpec.RecvPacket, ModuleOwner;
      hide ChannelSpec.WriteAcknowledgement, PaidDirectly, ReceivedDenom;
      var p := msg.packet;
      var owner := host.GetModuleOwner(ChannelCapabilityPath(p.destinationPort, p.destinationChannel));
      if owner.Revert? {
        return false;
      }
      var answered := app.OnRecv(p);
      if answered.Revert? {
        return false;
      }
      var ack := answered.value;
      RecvDecodes(old(Chain()), p);
      var accepted := ChannelContract.Recv(host, msg, env);
      if accepted.Revert? {
        return false;
      }
      if |ack| > 0 {
        var written := ChannelContract.WriteAck(host, p.destinationPort, p.destinationChannel, p.sequence, ack);
        if written.Revert? {
          return false;
        }
      }
      received := received + [AckEvent(p, ack)];
      if ack == ACK_SUCCESS {
        ghost var data := Decode(p.data).value;
        direct := PaidDirectly(old(Chain()), data.receiver, ReceivedDenom(p, data.denom), data.amount);
      }
      RecvKeepsConnections(old(Chain()), msg, env);
      return true;
    }

    method RecvPacket(msg: MsgPacketRecv, env: Env) returns (ok: bool)
      requires Valid()
      modifies this, host, app.tokens.bank
      ensures Valid() && ok == ChainSpec.RecvPacket(old(Chain()), msg, env).Ok?
      ensures Chain() == Committed(ChainSpec.RecvPacket(old(Chain()), msg, env), old(Chain()))
    {
      hide Synced, SingleVersions, ChainSpec.RecvPacket;
      var saved := host.Snapshot();
      var balances := app.tokens.bank.balances;
      ok := Deliver(msg, env);
      if !ok {
        host.Restore(saved);
        app.tokens.bank.RestoreBalances(balances);
      }
    }

    method AcknowledgePacket(msg: MsgPacketAcknowledgement) returns (ok: bool)
      requires Valid()
      modifies this, host, app.tokens.bank
      ensures Valid() && ok == ChainSpec.AcknowledgePacket(old(Chain()), msg).Ok?
      ensures Chain() == Committed(ChainSpec.AcknowledgePacket(old(Chain()), msg), old(Chain()))
    {
      hide Synced, SingleVersions, ChannelCapabilityPath, OnAcknowledgementPacket, ChannelSpec.AcknowledgePacket, ModuleOwner;
      var p := msg.packet;
      var saved := host.Snapshot();
      var balances := app.tokens.bank.balances;
      var owner := host.GetModuleOwner(ChannelCapabilityPath(p.sourcePort, p.sourceChannel));
      if owner.Revert? {
        return false;
      }
      var refunded := app.OnAcknowledgement(p, msg.acknowledgement);
      if refunded.Revert? {
        return false;
      }
      var accepted := ChannelContract.Acknowledge(host, msg);
      if accepted.Revert? {
        host.Restore(saved);
        app.tokens.bank.RestoreBalances(balances);
        return false;
      }
      acknowledged := acknowledged + [AckEvent(p, msg.acknowledgement)];
      AckKeepsConnections(old(Chain()), msg);
      return true;
    }
  }

  /** Everything but the storage of the host. */
  ghost predicate ThisKept(c: Chain, d: Chain) {
    d == c.(host := d.host)
  }

  /** Everything but the storage of the host and the balances of the bank. */
  ghost predicate StorageOnly(c: Chain, d: Chain) {
    d == c.(host := d.host, bank := d.bank)
  }

  lemma RecordIgnoresHost(c: Chain, d: Chain, s: HostState, portId: Bytes, channelId: Bytes)
    requires ThisKept(c, d) && ChannelKey(portId, channelId) in s.store.channels
    ensures RecordChannel(d, s, portId, channelId) == RecordChannel(c, s, portId, channelId)
  {
    hide ChannelCapabilityPath, HostSpec.ClaimCapability, ModuleOwner;
  }

  lemma RecvDecodes(c: Chain, p: Packet)
    requires OnRecvPacket(c.bank, c.app, p).Ok?
    ensures Decode(p.data).Ok?
  {
    hide Decode;
  }

  lemma RecvKeepsConnections(c: Chain, msg: MsgPacketRecv, env: Env)
    ensures ChainSpec.RecvPacket(c, msg, env).Ok? ==>
              ChainSpec.RecvPacket(c, msg, env).value.host.store.connections == c.host.store.connections
  {
    hide OnRecvPacket, Decode, PaidDirectly, ReceivedDenom, ChainSpec.RecvPacket, ChannelSpec.VerifyPacketCommitment;
    if ChainSpec.RecvPacket(c, msg, env).Ok? {
      RecvShape(c, msg, env);
    }
  }

  lemma AckKeepsConnections(c: Chain, msg: MsgPacketAcknowledgement)
    ensures ChainSpec.AcknowledgePacket(c, msg).Ok? ==>
              ChainSpec.AcknowledgePacket(c, msg).value.host.store.connections == c.host.store.connections
  {
    hide OnAcknowledgementPacket, ChainSpec.AcknowledgePacket, ChannelSpec.VerifyPacketAcknowledgement;
    if ChainSpec.AcknowledgePacket(c, msg).Ok? {
      AckShape(c, msg);
    }
  }
}
