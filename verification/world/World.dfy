/**
 Two chains and a relayer. A run is any sequence of transactions and blocks, in any order, on
 either chain; clients of one chain may be shown any sealed block of the other, however old.
 */
module World {
  import opened Prelude
  import opened IBCIdentifier
  import opened IBCTypes
  import opened HostSpec
  import opened BankSpec
  import opened TransferSpec
  import opened ChainSpec

  datatype Action =
    | RegisterClient(clientType: Bytes)
    | CreateClient(clientType: Bytes, height: nat, client: ClientState)
    | UpdateClient(clientId: Bytes, height: nat)
    | ConnectionOpenInit(connInit: MsgConnectionOpenInit)
    | ConnectionOpenTry(connTry: MsgConnectionOpenTry)
    | ConnectionOpenAck(connAck: MsgConnectionOpenAck)
    | ConnectionOpenConfirm(connConfirm: MsgConnectionOpenConfirm)
    | BindPort(portId: Bytes)
    | ChannelOpenInit(chanInit: MsgChannelOpenInit)
    | ChannelOpenTry(chanTry: MsgChannelOpenTry)
    | ChannelOpenAck(chanAck: MsgChannelOpenAck)
    | ChannelOpenConfirm(chanConfirm: MsgChannelOpenConfirm)
    | SendTransfer(transfer: Transfer)
    | RecvPacket(recv: MsgPacketRecv)
    | AcknowledgePacket(ack: MsgPacketAcknowledgement)
    | BankTransfer(caller: Address, to: Address, denom: Bytes, amount: nat)
    | Deposit(token: Address, amount: nat, receiver: Address, paid: bool)
    | Donate(token: Address, amount: nat)
    | Withdraw(caller: Address, token: Address, amount: nat, paid: bool)

  /** The sealed block a client of the peer is shown for a height, if the chain has reached it. */
  function BlockAt(peer: Chain, height: nat): Result<ConsensusState> {
    if height < |peer.blocks| && height < TWO_64 then Ok(peer.blocks[height]) else Revert
  }

  /** `block.number` and `block.timestamp` of the block being built. */
  function CurrentBlock(c: Chain): Env {
    Env(|c.blocks|, c.now)
  }

  /**
   One transaction. Port identifiers hold no '/', and no transaction is started by the zero
   address or by the application's own account, which is a contract.
   */
  function Transact(c: Chain, peer: Chain, action: Action): Result<Chain> {
    match action
    case RegisterClient(clientType) =>
      var host :- ClientSpec.RegisterClient(c.host, clientType);
      Ok(c.(host := host))
    case CreateClient(clientType, height, client) =>
      var block :- BlockAt(peer, height);
      ChainSpec.CreateClient(c, clientType, height, client, block)
    case UpdateClient(clientId, height) =>
      var block :- BlockAt(peer, height);
      ChainSpec.UpdateClient(c, clientId, height, block)
    case ConnectionOpenInit(msg) => Ok(ChainSpec.ConnectionOpenInit(c, msg))
    case ConnectionOpenTry(msg) => ChainSpec.ConnectionOpenTry(c, msg)
    case ConnectionOpenAck(msg) => ChainSpec.ConnectionOpenAck(c, msg)
    case ConnectionOpenConfirm(msg) => ChainSpec.ConnectionOpenConfirm(c, msg)
    case BindPort(portId) => if SlashFree(portId) then ChainSpec.BindPort(c, portId) else Revert
    case ChannelOpenInit(msg) => if SlashFree(msg.portId) then ChainSpec.ChannelOpenInit(c, msg) else Revert
    case ChannelOpenTry(msg) => if SlashFree(msg.portId) then ChainSpec.ChannelOpenTry(c, msg) else Revert
    case ChannelOpenAck(msg) => ChainSpec.ChannelOpenAck(c, msg)
    case ChannelOpenConfirm(msg) => ChainSpec.ChannelOpenConfirm(c, msg)
    case SendTransfer(t) =>
      if t.sender == c.app.address || t.sender == ZERO_ADDRESS then Revert else ChainSpec.SendTransfer(c, t)
    case RecvPacket(msg) => ChainSpec.RecvPacket(c, msg, CurrentBlock(c))
    case AcknowledgePacket(msg) => ChainSpec.AcknowledgePacket(c, msg)
    case BankTransfer(caller, to, denom, amount) =>
      if caller == c.app.address then Revert else ChainSpec.BankTransfer(c, caller, to, denom, amount)
    case Deposit(token, amount, receiver, paid) => ChainSpec.Deposit(c, token, amount, receiver, paid)
    case Donate(token, amount) => ChainSpec.Donate(c, token, amount)
    case Withdraw(caller, token, amount, paid) =>
      if caller == c.app.address then Revert else ChainSpec.Withdraw(c, caller, token, amount, paid)
  }

  /** Seals the block being built, with what is committed now; time does not run backwards. */
  function SealBlock(c: Chain, timestamp: uint64): Chain {
    c.(blocks := c.blocks + [ConsensusState(c.now, c.host.store, [])],
       now := if timestamp > c.now then timestamp else c.now)
  }

  datatype World = World(a: Chain, b: Chain)

  /** A transaction submitted to a chain, or a block sealed; the next block begins at `timestamp`. */
  datatype Step =
    | Submit(onA: bool, action: Action)
    | Seal(onA: bool, timestamp: uint64)

  /** A transaction that reverts changes nothing. */
  function Apply(c: Chain, peer: Chain, step: Step): Chain {
    match step
    case Seal(_, timestamp) => SealBlock(c, timestamp)
    case Submit(_, action) =>
      match Transact(c, peer, action)
      case Ok(next) => next
      case Revert => c
  }

  function Next(w: World, step: Step): World {
    if step.onA then w.(a := Apply(w.a, w.b, step)) else w.(b := Apply(w.b, w.a, step))
  }

  /** What a chain starts with: the address of its application, and its light client. */
  datatype ChainSetup = ChainSetup(app: Address, lightClient: LightClient)

  datatype Setup = Setup(a: ChainSetup, b: ChainSetup)

  /** A chain on which nothing has happened yet. */
  function Genesis(s: ChainSetup): Chain {
    Chain(EmptyHost(s.lightClient), BankState(map[]), AppState(s.app, map[]), map[], [], 0, [], [], [], map[], map[], [],
          map[], map[])
  }

  function Run(setup: Setup, steps: seq<Step>): World {
    if steps == [] then World(Genesis(setup.a), Genesis(setup.b))
    else Next(Run(setup, steps[..|steps| - 1]), steps[|steps| - 1])
  }
}
