/**
 What sending, receiving and refunding a transfer do to the escrow account and to the
 supply of vouchers. Both ends take the same decision: tokens a sender put in escrow come
 out as vouchers, burnt vouchers come out of escrow.
 */
module Payments {
  import opened Prelude
  import opened Sums
  import opened IBCIdentifier
  import opened IBCTypes
  import opened AppMessages
  import opened BankSpec
  import opened TransferSpec
  import opened ChainSpec
  import opened Ledger

  /** The denomination a packet's tokens have on the chain where they are kept in escrow. */
  function Base(e: SendEvent): Bytes {
    var port, channel := e.packet.sourcePort, e.packet.sourceChannel;
    if IsVoucher(port, channel, e.data.denom) then Unprefixed(port, channel, e.data.denom) else e.data.denom
  }

  /** Whether the sender put the tokens in escrow. */
  predicate FromEscrow(e: SendEvent) {
    !IsVoucher(e.packet.sourcePort, e.packet.sourceChannel, e.data.denom)
  }

  lemma WeightOfBase(e: SendEvent, denom: Bytes, escrowed: bool)
    ensures Weight(e, denom, escrowed) == if denom == Base(e) && escrowed == FromEscrow(e) then e.data.amount else 0
  {
  }

  lemma BurntDenom(e: SendEvent)
    requires !FromEscrow(e)
    ensures e.data.denom == Voucher(SourceKey(e.packet), Base(e))
  {
  }

  /** No supply changes but that of `y`, and no balance of the application's but that of `x`. */
  ghost predicate MovesOnly(b: BankState, c: BankState, account: Address, x: Bytes, y: Bytes) {
    && (forall z | z != y :: Supply(c, z) == Supply(b, z))
    && (forall z | z != x :: BalanceOf(c, z, account) == BalanceOf(b, z, account))
  }

  /** `sendTransfer` puts the tokens in escrow or burns the vouchers. */
  lemma TakeEffect(bank: BankState, app: AppState, t: Transfer, e: SendEvent)
    requires e.data == FungibleTokenPacketData(t.denom, t.amount, t.sender, t.receiver)
    requires SourceKey(e.packet) == ChannelKey(t.port, t.channel)
    requires t.channel in app.escrows && app.escrows[t.channel] == app.address
    requires t.sender != app.address
    requires Supply(bank, t.denom) < TWO_256
    requires TakeTokens(bank, app, t).Ok?
    ensures var after, voucher := TakeTokens(bank, app, t).value, Voucher(SourceKey(e.packet), Base(e));
            && MovesOnly(bank, after, app.address, Base(e), voucher)
            && BalanceOf(after, Base(e), app.address) == BalanceOf(bank, Base(e), app.address) + Weight(e, Base(e), true)
            && Supply(after, voucher) == Supply(bank, voucher) - Weight(e, Base(e), false)
  {
    hide Supply, BalanceOf, Debit, TransferFrom, DenomPrefix, Voucher;
    if FromEscrow(e) {
      TransferEffect(bank, t.sender, app.address, t.denom, t.amount);
    } else {
      BurntDenom(e);
      DebitEffect(bank, t.denom, t.sender, t.amount);
    }
  }

  /**
   `onRecvPacket`: burnt vouchers are paid from escrow, unless the receiver is the zero
   address or escrow falls short; tokens in escrow become vouchers, unconditionally.
   */
  lemma PayEffect(bank: BankState, app: AppState, e: SendEvent)
    requires Decode(e.packet.data) == Ok(e.data)
    requires |e.data.receiver| == 20
    requires e.packet.destinationChannel in app.escrows && app.escrows[e.packet.destinationChannel] == app.address
    requires app.address != ZERO_ADDRESS
    requires Supply(bank, Base(e)) < TWO_256
    requires FromEscrow(e) ==> Supply(bank, Voucher(DestinationKey(e.packet), Base(e))) + e.data.amount < TWO_256
    ensures OnRecvPacket(bank, app, e.packet).Ok?
    ensures var (after, ack) := OnRecvPacket(bank, app, e.packet).value;
            var denom := ReceivedDenom(e.packet, e.data.denom);
            var voucher := Voucher(DestinationKey(e.packet), Base(e));
            var toApp := if e.data.receiver == app.address then e.data.amount else 0;
            && denom == (if FromEscrow(e) then voucher else Base(e))
            && ack == (if FromEscrow(e) || (e.data.receiver != ZERO_ADDRESS && BalanceOf(bank, denom, app.address) >= e.data.amount)
                       then ACK_SUCCESS else ACK_FAILURE)
            && (ack == ACK_SUCCESS ==>
                  && MovesOnly(bank, after, app.address, denom, voucher)
                  && Supply(after, voucher) == Supply(bank, voucher) + Weight(e, Base(e), true)
                  && BalanceOf(after, denom, app.address)
                     == BalanceOf(bank, denom, app.address) - (if FromEscrow(e) then 0 else e.data.amount) + toApp)
            && (ack == ACK_FAILURE ==> after == bank)
  {
    hide Supply, BalanceOf, Credit, DenomPrefix, Decode;
    var voucher := Voucher(DestinationKey(e.packet), Base(e));
    if FromEscrow(e) {
      assert DenomPrefix(e.packet.destinationPort, e.packet.destinationChannel) + e.data.denom == voucher;
      CreditEffect(bank, voucher, e.data.receiver, e.data.amount);
    } else if OnRecvPacket(bank, app, e.packet).value.1 == ACK_SUCCESS {
      TransferEffect(bank, app.address, e.data.receiver, Base(e), e.data.amount);
    }
  }

  /** `_refundTokens` undoes what `sendTransfer` took. */
  lemma RefundEffect(bank: BankState, app: AppState, e: SendEvent, ack: Bytes)
    requires ack == ACK_FAILURE
    requires Decode(e.packet.data) == Ok(e.data)
    requires |e.data.sender| == 20 && e.data.sender != app.address && e.data.sender != ZERO_ADDRESS
    requires e.packet.sourceChannel in app.escrows && app.escrows[e.packet.sourceChannel] == app.address
    requires app.address != ZERO_ADDRESS
    requires Supply(bank, Base(e)) < TWO_256
    requires !FromEscrow(e) ==> Supply(bank, Voucher(SourceKey(e.packet), Base(e))) + e.data.amount < TWO_256
    ensures OnAcknowledgementPacket(bank, app, e.packet, ack).Ok?
            <==> FromEscrow(e) ==> BalanceOf(bank, Base(e), app.address) >= e.data.amount
    ensures OnAcknowledgementPacket(bank, app, e.packet, ack).Ok? ==>
              var after := OnAcknowledgementPacket(bank, app, e.packet, ack).value;
              var voucher := Voucher(SourceKey(e.packet), Base(e));
              && MovesOnly(bank, after, app.address, Base(e), voucher)
              && BalanceOf(after, Base(e), app.address) == BalanceOf(bank, Base(e), app.address) - Weight(e, Base(e), true)
              && Supply(after, voucher) == Supply(bank, voucher) + Weight(e, Base(e), false)
  {
    hide Supply, BalanceOf, Credit, DenomPrefix, Voucher, Decode;
    if FromEscrow(e) {
      if OnAcknowledgementPacket(bank, app, e.packet, ack).Ok? {
        TransferEffect(bank, app.address, e.data.sender, Base(e), e.data.amount);
      }
    } else {
      BurntDenom(e);
      CreditEffect(bank, e.data.denom, e.data.sender, e.data.amount);
    }
  }

  // ----- Every account -----

  /** `amount` if the condition holds. */
  function When(condition: bool, amount: nat): nat {
    if condition then amount else 0
  }

  /** Balances after `amount` of `denom` went from one account to another; either may be absent. */
  ghost predicate Moved(b: BankState, c: BankState, denom: Bytes, from: Option<Bytes>, to: Option<Bytes>, amount: nat) {
    forall x, a: Address ::
      BalanceOf(c, x, a) == BalanceOf(b, x, a) - When(x == denom && from == Some(a), amount) + When(x == denom && to == Some(a), amount)
  }

  /** Sending takes the tokens from the sender, into escrow or out of existence. */
  lemma TakeMoves(bank: BankState, app: AppState, t: Transfer, e: SendEvent)
    requires e.data == FungibleTokenPacketData(t.denom, t.amount, t.sender, t.receiver)
    requires SourceKey(e.packet) == ChannelKey(t.port, t.channel)
    requires t.channel in app.escrows && app.escrows[t.channel] == app.address
    requires Supply(bank, t.denom) < TWO_256
    requires TakeTokens(bank, app, t).Ok?
    ensures Moved(bank, TakeTokens(bank, app, t).value, t.denom, Some(t.sender),
                  if FromEscrow(e) then Some(app.address) else None, t.amount)
  {
    hide Supply, BalanceOf, Debit, TransferFrom, DenomPrefix;
    if FromEscrow(e) {
      TransferEffect(bank, t.sender, app.address, t.denom, t.amount);
    } else {
      DebitEffect(bank, t.denom, t.sender, t.amount);
    }
  }

  /** A successful payment goes to the receiver, out of escrow or newly issued. */
  lemma PayMoves(bank: BankState, app: AppState, e: SendEvent)
    requires Decode(e.packet.data) == Ok(e.data)
    requires |e.data.receiver| == 20
    requires e.packet.destinationChannel in app.escrows && app.escrows[e.packet.destinationChannel] == app.address
    requires app.address != ZERO_ADDRESS
    requires Supply(bank, Base(e)) < TWO_256
    requires FromEscrow(e) ==> Supply(bank, Voucher(DestinationKey(e.packet), Base(e))) + e.data.amount < TWO_256
    requires OnRecvPacket(bank, app, e.packet).Ok? && OnRecvPacket(bank, app, e.packet).value.1 == ACK_SUCCESS
    ensures Moved(bank, OnRecvPacket(bank, app, e.packet).value.0, ReceivedDenom(e.packet, e.data.denom),
                  if FromEscrow(e) then None else Some(app.address), Some(e.data.receiver), e.data.amount)
  {
    hide Supply, BalanceOf, Credit, DenomPrefix, Decode;
    if FromEscrow(e) {
      var voucher := Voucher(DestinationKey(e.packet), Base(e));
      assert DenomPrefix(e.packet.destinationPort, e.packet.destinationChannel) + e.data.denom == voucher;
      CreditEffect(bank, voucher, e.data.receiver, e.data.amount);
    } else {
      TransferEffect(bank, app.address, e.data.receiver, Base(e), e.data.amount);
    }
  }

  /** A refund goes to the sender, out of escrow or newly issued. */
  lemma RefundMoves(bank: BankState, app: AppState, e: SendEvent)
    requires Decode(e.packet.data) == Ok(e.data)
    requires |e.data.sender| == 20
    requires e.packet.sourceChannel in app.escrows && app.escrows[e.packet.sourceChannel] == app.address
    requires Supply(bank, Base(e)) < TWO_256
    requires !FromEscrow(e) ==> Supply(bank, Voucher(SourceKey(e.packet), Base(e))) + e.data.amount < TWO_256
    requires OnAcknowledgementPacket(bank, app, e.packet, ACK_FAILURE).Ok?
    ensures Moved(bank, OnAcknowledgementPacket(bank, app, e.packet, ACK_FAILURE).value, e.data.denom,
                  if FromEscrow(e) then Some(app.address) else None, Some(e.data.sender), e.data.amount)
  {
    hide Supply, BalanceOf, Credit, DenomPrefix, Voucher, Decode;
    if FromEscrow(e) {
      TransferEffect(bank, app.address, e.data.sender, Base(e), e.data.amount);
    } else {
      BurntDenom(e);
      CreditEffect(bank, e.data.denom, e.data.sender, e.data.amount);
    }
  }
}
