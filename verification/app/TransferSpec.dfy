/** The ICS-20 transfer application: its callbacks as functions of the bank's ledger. */
module TransferSpec {
  import opened Prelude
  import opened IBCIdentifier
  import opened IBCTypes
  import opened AppMessages
  import opened BankSpec

  /** The application's own address and the escrow account of each channel. */
  datatype AppState = AppState(address: Address, escrows: map<Bytes, Address>)

  const ACK_SUCCESS: Bytes := [1]
  const ACK_FAILURE: Bytes := [0]

  /** "port/channel/". */
  function DenomPrefix(port: Bytes, channel: Bytes): Bytes {
    port + [SLASH] + channel + [SLASH]
  }

  /** What prefixes and acknowledgements read. */
  lemma TransferTexts(port: Bytes, channel: Bytes)
    ensures DenomPrefix(port, channel) == port + Ascii("/") + channel + Ascii("/")
    ensures ACK_SUCCESS == [0x01] && ACK_FAILURE == [0x00]
  {
    assert Ascii("/") == [SLASH];
  }

  /** Whether the chain that names the channel end `port`, `channel` holds only a voucher of `denom`. */
  predicate IsVoucher(port: Bytes, channel: Bytes, denom: Bytes) {
    DenomPrefix(port, channel) <= denom
  }

  /** The denomination behind a voucher. */
  function Unprefixed(port: Bytes, channel: Bytes, denom: Bytes): Bytes
    requires IsVoucher(port, channel, denom)
  {
    denom[|DenomPrefix(port, channel)|..]
  }

  function EscrowAddress(app: AppState, channel: Bytes): Result<Address> {
    var _ :- Require(channel in app.escrows && app.escrows[channel] != ZERO_ADDRESS);
    Ok(app.escrows[channel])
  }

  /** `Bytes.toAddress`. */
  function ToAddress(b: Bytes): Result<Address> {
    if |b| == 20 then Ok(b) else Revert
  }

  /** `sendTransfer` up to the packet: the sender's tokens are escrowed or burnt. */
  function TakeTokens(bank: BankState, app: AppState, t: Transfer): Result<BankState> {
    if !IsVoucher(t.port, t.channel, t.denom) then
      var escrow :- EscrowAddress(app, t.channel);
      TransferFrom(bank, t.sender, escrow, t.denom, t.amount)
    else
      Debit(bank, t.denom, t.sender, t.amount)
  }

  /** `onRecvPacket`: the receiver is paid from escrow or in vouchers; a failed payment is acknowledged as such. */
  function OnRecvPacket(bank: BankState, app: AppState, p: Packet): Result<(BankState, Bytes)> {
    var data :- Decode(p.data);
    if IsVoucher(p.sourcePort, p.sourceChannel, data.denom) then
      var escrow :- EscrowAddress(app, p.destinationChannel);
      var receiver :- ToAddress(data.receiver);
      var denom := Unprefixed(p.sourcePort, p.sourceChannel, data.denom);
      match TransferFrom(bank, escrow, receiver, denom, data.amount)
      case Ok(paid) => Ok((paid, ACK_SUCCESS))
      case Revert => Ok((bank, ACK_FAILURE))
    else
      var receiver :- ToAddress(data.receiver);
      var denom := DenomPrefix(p.destinationPort, p.destinationChannel) + data.denom;
      Ok((Credit(bank, denom, receiver, data.amount), ACK_SUCCESS))
  }

  /** `onAcknowledgementPacket`: anything but success gives the tokens back. */
  function OnAcknowledgementPacket(bank: BankState, app: AppState, p: Packet, ack: Bytes): Result<BankState> {
    var _ :- Require(|ack| == 1);
    if ack[0] == 1 then Ok(bank)
    else
      var data :- Decode(p.data);
      if !IsVoucher(p.sourcePort, p.sourceChannel, data.denom) then
        var escrow :- EscrowAddress(app, p.sourceChannel);
        var sender :- ToAddress(data.sender);
        TransferFrom(bank, escrow, sender, data.denom, data.amount)
      else
        var sender :- ToAddress(data.sender);
        Ok(Credit(bank, data.denom, sender, data.amount))
  }

  /** The escrow account of a channel, if there is one. */
  predicate HasEscrow(app: AppState, channel: Bytes) {
    channel in app.escrows && app.escrows[channel] != ZERO_ADDRESS
  }

  /** What any packet pays, whoever sent it. */
  lemma RecvExactly(bank: BankState, app: AppState, p: Packet)
    ensures OnRecvPacket(bank, app, p)
         == if Decode(p.data).Revert? || |Decode(p.data).value.receiver| != 20 then Revert
            else
              var data := Decode(p.data).value;
              var prefix := p.sourcePort + Ascii("/") + p.sourceChannel + Ascii("/");
              if !(prefix <= data.denom) then
                Ok((Credit(bank, p.destinationPort + Ascii("/") + p.destinationChannel + Ascii("/") + data.denom, data.receiver,
                           data.amount), [1]))
              else if !HasEscrow(app, p.destinationChannel) then Revert
              else
                var escrow, denom := app.escrows[p.destinationChannel], data.denom[|prefix|..];
                if data.receiver != ZERO_ADDRESS && BalanceOf(bank, denom, escrow) >= data.amount
                then Ok((TransferFrom(bank, escrow, data.receiver, denom, data.amount).value, [1]))
                else Ok((bank, [0]))
  {
    hide Decode, BalanceOf, Credit, DenomPrefix;
    TransferTexts(p.sourcePort, p.sourceChannel);
    TransferTexts(p.destinationPort, p.destinationChannel);
  }

  /** What any acknowledgement gives back: one byte, and unless it is 1 the tokens of the packet. */
  lemma AckExactly(bank: BankState, app: AppState, p: Packet, ack: Bytes)
    ensures OnAcknowledgementPacket(bank, app, p, ack)
         == if |ack| != 1 then Revert
            else if ack == [1] then Ok(bank)
            else if Decode(p.data).Revert? || |Decode(p.data).value.sender| != 20 then Revert
            else
              var data := Decode(p.data).value;
              if p.sourcePort + Ascii("/") + p.sourceChannel + Ascii("/") <= data.denom
              then Ok(Credit(bank, data.denom, data.sender, data.amount))
              else if !HasEscrow(app, p.sourceChannel) then Revert
              else
                var escrow := app.escrows[p.sourceChannel];
                if data.sender != ZERO_ADDRESS && BalanceOf(bank, data.denom, escrow) >= data.amount
                then Ok(TransferFrom(bank, escrow, data.sender, data.denom, data.amount).value) else Revert
  {
    hide Decode, BalanceOf, Credit, DenomPrefix;
    TransferTexts(p.sourcePort, p.sourceChannel);
  }

  // ----- Prefixes of distinct channels -----

  /** Two channel ends without '/' whose prefixes both start a denomination are the same end. */
  lemma PrefixUnique(p: Bytes, c: Bytes, q: Bytes, d: Bytes, denom: Bytes)
    requires SlashFree(p) && SlashFree(c) && SlashFree(q) && SlashFree(d)
    requires IsVoucher(p, c, denom) && IsVoucher(q, d, denom)
    ensures p == q && c == d
  {
    FirstSlash(p, c + [SLASH], q, d + [SLASH], denom);
    var rest := denom[|p| + 1..];
    assert rest == denom[|q| + 1..];
    assert c + [SLASH] <= rest && d + [SLASH] <= rest by {
      assert DenomPrefix(p, c) == p + [SLASH] + (c + [SLASH]);
      assert DenomPrefix(q, d) == q + [SLASH] + (d + [SLASH]);
      assert denom[..|DenomPrefix(p, c)|] == DenomPrefix(p, c);
      assert denom[..|DenomPrefix(q, d)|] == DenomPrefix(q, d);
      assert rest[..|c| + 1] == DenomPrefix(p, c)[|p| + 1..] == c + [SLASH];
      assert rest[..|d| + 1] == DenomPrefix(q, d)[|q| + 1..] == d + [SLASH];
    }
    FirstSlash(c, [], d, [], rest);
  }

  lemma FirstSlash(a: Bytes, x: Bytes, b: Bytes, y: Bytes, s: Bytes)
    requires SlashFree(a) && SlashFree(b)
    requires a + [SLASH] + x <= s && b + [SLASH] + y <= s
    ensures a == b
  {
    assert s[|a|] == (a + [SLASH] + x)[|a|] == SLASH;
    assert s[|b|] == (b + [SLASH] + y)[|b|] == SLASH;
    assert forall k | 0 <= k < |a| :: s[k] == (a + [SLASH] + x)[k] == a[k] != SLASH;
    assert forall k | 0 <= k < |b| :: s[k] == (b + [SLASH] + y)[k] == b[k] != SLASH;
    assert |a| == |b|;
  }
}
