/**
 The generated parsers: one loop over the fields of a message, with loops inside for
 varints and for skipping unknown fields. The code generator writes this loop out once per
 message; here the message's fields and assignments are a schema.
 */
module Unmarshalling {
  import opened Prelude
  import opened BigEndianBytes
  import opened Wire
  import opened IBCTypes
  import App = AppMessages
  import Chan = ChannelMessages
  import Conn = ConnectionMessages
  import opened Marshalling
  import opened MessageMarshalling

  /** `for shift := uint(0); ; shift += 7` around `wire |= uint64(b&0x7F) << shift`. */
  method ReadVarintLoop(b: Bytes, start: nat) returns (r: Result<(nat, nat)>)
    ensures r == ReadVarint(b, start)
  {
    hide ShiftLeft;
    var i, shift, wire: nat := start, 0, 0;
    while shift < 64 && i < |b|
      invariant ReadVarint(b, i, shift, wire) == ReadVarint(b, start)
      decreases |b| - i
    {
      wire := wire + ShiftLeft(b[i] as int % 128, shift) % TWO_64;
      i := i + 1;
      if b[i - 1] < 128 {
        return Ok((wire, i));
      }
      shift := shift + 7;
    }
    return Revert;
  }

  /** The bits of a varint's bytes never overlap, so adding them up is the bitwise or. */
  lemma {:induction false} VarintBitsDisjoint(b: Bytes, i: nat, shift: nat, acc: nat)
    requires acc < ShiftLeft(1, shift) && acc < TWO_64
    requires shift < 64 && i < |b|
    ensures var chunk := ShiftLeft(b[i] as int % 128, shift) % TWO_64;
            && chunk % ShiftLeft(1, shift) == 0
            && acc + chunk < TWO_64
            && (acc + chunk < ShiftLeft(1, shift + 7))
  {
    var d := b[i] as int % 128;
    var unit := ShiftLeft(1, shift);
    ShiftLeftTimes(d, shift);
    ShiftLeftGrows(1, shift);
    ShiftLeftSum(1, shift, 64 - shift);
    ShiftLeftTimes(ShiftLeft(1, shift), 64 - shift);
    ShiftLeft32(1);
    ShiftLeft32(TWO_32);
    ShiftLeftSum(1, 32, 32);
    ShiftLeft7(1);
    ShiftLeftSum(1, shift, 7);
    ShiftLeft7(unit);
    hide ShiftLeft;
    ChunkAligned(d, unit, ShiftLeft(1, 64 - shift), acc);
  }

  lemma {:induction false} ShiftLeftTimes(x: nat, k: nat)
    ensures ShiftLeft(x, k) == x * ShiftLeft(1, k)
  {
    if k > 0 {
      ShiftLeftTimes(x, k - 1);
      TwiceProduct(x, ShiftLeft(1, k - 1));
    }
  }

  lemma TwiceProduct(x: nat, y: nat)
    ensures 2 * (x * y) == x * (2 * y)
  {
  }

  lemma ChunkAligned(d: nat, unit: nat, above: nat, acc: nat)
    requires unit > 0 && above > 0 && unit * above == TWO_64
    requires d < 128 && acc < unit
    ensures var chunk := d * unit % TWO_64;
            chunk % unit == 0 && acc + chunk < TWO_64 && acc + chunk < 128 * unit
  {
    var q, r := d / above, d % above;
    assert d == q * above + r;
    Rearrange(q, above, r, unit);
    assert d * unit == q * TWO_64 + r * unit;
    Below(r, above, unit);
    QuotientOf(q, TWO_64, r * unit);
    QuotientOf(r, unit, 0);
    Below(r, 128, unit);
    assert r <= d by { RemainderAtMost(d, above); }
  }

  lemma Rearrange(q: nat, above: nat, r: nat, unit: nat)
    ensures (q * above + r) * unit == q * (unit * above) + r * unit
  {
  }

  /** A multiple below another leaves room for anything below the unit. */
  lemma Below(r: nat, above: nat, unit: nat)
    ensures r < above ==> r * unit + unit <= above * unit
    ensures above * unit == unit * above
  {
    if r < above {
      MultiplesOrdered(r + 1, above, unit);
    }
  }

  lemma RemainderAtMost(x: nat, d: nat)
    requires d > 0
    ensures x % d <= x
  {
  }

  // ----- Skipping -----

  method SkipVarintLoop(b: Bytes, start: nat) returns (r: Result<nat>)
    ensures r == SkipVarint(b, start)
  {
    var i, shift: nat := start, 0;
    while shift < 64 && i < |b|
      invariant SkipVarint(b, i, shift) == SkipVarint(b, start)
      decreases |b| - i
    {
      i := i + 1;
      if b[i - 1] < 128 {
        return Ok(i);
      }
      shift := shift + 7;
    }
    return Revert;
  }

  /** `skip`: steps over one field, and over all the groups it opens. */
  method SkipLoop(b: Bytes) returns (r: Result<nat>)
    ensures r == Skip(b, 0)
  {
    hide ReadVarint, SkipVarint;
    var i, depth: nat := 0, 0;
    while i < |b|
      invariant Skip(b, i, depth) == Skip(b, 0)
      decreases |b| - i
    {
      var wire := ReadVarintLoop(b, i);
      if wire.Revert? {
        return Revert;
      }
      var wireType := wire.value.0 % 8;
      var j := wire.value.1;
      if wireType == 0 {
        var past := SkipVarintLoop(b, j);
        if past.Revert? {
          return Revert;
        }
        j := past.value;
      } else if wireType == 1 {
        j := j + 8;
      } else if wireType == 2 {
        var length := ReadVarintLoop(b, j);
        if length.Revert? || length.value.0 >= TWO_63 || length.value.1 + length.value.0 >= TWO_63 {
          return Revert;
        }
        j := length.value.1 + length.value.0;
      } else if wireType == 3 {
        depth := depth + 1;
      } else if wireType == 4 {
        if depth == 0 {
          return Revert;
        }
        depth := depth - 1;
      } else if wireType == 5 {
        j := j + 4;
      } else {
        return Revert;
      }
      i := j;
      if depth == 0 {
        return Ok(i);
      }
    }
    return Revert;
  }

  // ----- Unmarshal -----

  /** What `Unmarshal` does with a field it knows, whose tag `wire` ends at `j`. */
  method KnownField<M>(s: Schema<M>, b: Bytes, ghost i: nat, wire: nat, j: nat, m: M) returns (r: Result<(M, nat)>)
    requires i < |b| && ReadVarint(b, i) == Ok((wire, j))
    requires wire % 8 != 4 && FieldNum(wire) > 0 && FieldNum(wire) in s.wireTypes
    ensures r == MergeOne(s, b, i, m)
  {
    hide ReadVarint, FieldNum;
    var fieldNum := FieldNum(wire);
    if wire % 8 != s.wireTypes[fieldNum] {
      return Revert;
    }
    var number := ReadVarintLoop(b, j);
    if number.Revert? {
      return Revert;
    }
    var (v, k) := number.value;
    var next;
    if wire % 8 == 0 {
      next := s.apply(m, Varint(fieldNum, v % TWO_64));
    } else {
      if v >= TWO_63 || k + v >= TWO_63 || k + v > |b| {
        return Revert;
      }
      next := s.apply(m, Delimited(fieldNum, b[k..k + v]));
      k := k + v;
    }
    if next.Revert? {
      return Revert;
    }
    return Ok((next.value, k));
  }

  /** `Unmarshal` into an existing message. */
  method Unmarshal<M>(s: Schema<M>, b: Bytes, into: M) returns (r: Result<M>)
    ensures r == Merge(s, b, 0, into)
  {
    hide ReadVarint, Skip, FieldNum;
    var m, i := into, 0;
    while i < |b|
      invariant Merge(s, b, i, m) == Merge(s, b, 0, into)
      decreases |b| - i
    {
      var tag := ReadVarintLoop(b, i);
      if tag.Revert? {
        return Revert;
      }
      var (wire, j) := tag.value;
      var fieldNum, wireType := FieldNum(wire), wire % 8;
      if wireType == 4 || fieldNum <= 0 {
        return Revert;
      }
      if fieldNum !in s.wireTypes {
        var skipped := SkipLoop(b[i..]);
        if skipped.Revert? || i + skipped.value >= TWO_63 || i + skipped.value > |b| {
          return Revert;
        }
        i := i + skipped.value;
        continue;
      }
      var next := KnownField(s, b, i, wire, j, m);
      if next.Revert? {
        return Revert;
      }
      m, i := next.value.0, next.value.1;
    }
    return Ok(m);
  }

  // ----- Marshalling and parsing back -----

  method ParseData(m: App.FungibleTokenPacketData) returns (r: Result<App.FungibleTokenPacketData>)
    requires DataSize(m) < TWO_63
    ensures r == Ok(m)
  {
    hide App.Encode, DataSize, Merge;
    DataSizeIsLength(m);
    App.RoundTrip(m);
    var bytes := DataBytes(m);
    r := Unmarshal(App.DataSchema(), bytes, App.EMPTY);
  }

  method ParsePacket(p: Packet) returns (r: Result<Packet>)
    requires PacketSize(p) < TWO_63
    ensures r == Ok(p)
  {
    hide Chan.EncodePacket, PacketSize, Merge;
    PacketSizeIsLength(p);
    Chan.PacketRoundTrip(p);
    var bytes := PacketBytes(p);
    r := Unmarshal(Chan.PacketSchema(), bytes, Chan.NO_PACKET);
  }

  method ParseChannel(m: Chan.ChannelMessage) returns (r: Result<Chan.ChannelMessage>)
    requires ChannelSize(m) < TWO_63
    ensures r == Ok(m)
  {
    hide Chan.EncodeChannel, ChannelSize, Merge;
    ChannelSizeIsLength(m);
    Chan.ChannelRoundTrip(m);
    var bytes := ChannelBytes(m);
    r := Unmarshal(Chan.ChannelSchema(), bytes, Chan.NO_CHANNEL);
  }

  method ParseConnection(m: Conn.ConnectionMessage) returns (r: Result<Conn.ConnectionMessage>)
    requires ConnectionSize(m) < TWO_63
    ensures r == Ok(m)
  {
    hide Conn.EncodeConnection, ConnectionSize, Merge;
    ConnectionSizeIsLength(m);
    Conn.ConnectionRoundTrip(m);
    var bytes := ConnectionBytes(m);
    r := Unmarshal(Conn.ConnectionSchema(), bytes, Conn.NO_CONNECTION);
  }
}
