/**
 Generated identifiers, commitment paths, and the packed keys under which the host
 stores commitments. A keccak digest of a packed key stands for the packed key itself.
 */
module IBCIdentifier {
  import opened Prelude
  import opened BigEndianBytes

  const SLASH: byte := 47
  const DASH: byte := 45

  predicate SlashFree(s: Bytes) {
    SLASH !in s
  }

  // ----- Decimal printing -----

  function Decimal(n: nat): (s: Bytes)
    ensures |s| > 0
    ensures forall c | c in s :: 48 <= c <= 57
  {
    if n < 10 then [(48 + n) as byte] else Decimal(n / 10) + [(48 + n % 10) as byte]
  }

  /** The number a string of decimal digits denotes. */
  function DecimalValue(s: Bytes): int {
    if s == [] then 0 else 10 * DecimalValue(s[..|s| - 1]) + (s[|s| - 1] as int - 48)
  }

  lemma {:induction false} DecimalRoundTrip(n: nat)
    ensures DecimalValue(Decimal(n)) == n
  {
    if n < 10 {
      assert Decimal(n)[..0] == [];
    } else {
      DecimalRoundTrip(n / 10);
      var s := Decimal(n);
      assert s[..|s| - 1] == Decimal(n / 10);
    }
  }

  lemma DecimalInjective(m: nat, n: nat)
    requires Decimal(m) == Decimal(n)
    ensures m == n
  {
    DecimalRoundTrip(m);
    DecimalRoundTrip(n);
  }

  // ----- Generated identifiers -----

  const CONNECTION_PREFIX: Bytes := [99, 111, 110, 110, 101, 99, 116, 105, 111, 110, 45]  // "connection-"
  const CHANNEL_PREFIX: Bytes := [99, 104, 97, 110, 110, 101, 108, 45]                    // "channel-"

  function ClientId(clientType: Bytes, n: nat): Bytes {
    clientType + [DASH] + Decimal(n)
  }

  function ConnectionId(n: nat): Bytes {
    CONNECTION_PREFIX + Decimal(n)
  }

  function ChannelId(n: nat): Bytes {
    CHANNEL_PREFIX + Decimal(n)
  }

  /** Decimal text, digit by digit. */
  lemma DecimalDigits(n: nat)
    ensures Decimal(n) == (if n < 10 then [] else Decimal(n / 10)) + [Ascii("0123456789")[n % 10]]
  {
  }

  /** What the generated identifiers read. */
  lemma IdentifierTexts(clientType: Bytes, n: nat)
    ensures ClientId(clientType, n) == clientType + Ascii("-") + Decimal(n)
    ensures ConnectionId(n) == Ascii("connection-") + Decimal(n)
    ensures ChannelId(n) == Ascii("channel-") + Decimal(n)
  {
    assert Ascii("-") == [DASH];
    assert Ascii("connection-") == CONNECTION_PREFIX;
    assert Ascii("channel-") == CHANNEL_PREFIX;
  }

  lemma ConnectionIdInjective(m: nat, n: nat)
    requires ConnectionId(m) == ConnectionId(n)
    ensures m == n
  {
    assert ConnectionId(m)[|CONNECTION_PREFIX|..] == Decimal(m);
    assert ConnectionId(n)[|CONNECTION_PREFIX|..] == Decimal(n);
    DecimalInjective(m, n);
  }

  lemma ChannelIdInjective(m: nat, n: nat)
    requires ChannelId(m) == ChannelId(n)
    ensures m == n
  {
    assert ChannelId(m)[|CHANNEL_PREFIX|..] == Decimal(m);
    assert ChannelId(n)[|CHANNEL_PREFIX|..] == Decimal(n);
    DecimalInjective(m, n);
  }

  lemma ChannelIdSlashFree(n: nat)
    ensures SlashFree(ChannelId(n))
  {
    assert SlashFree(CHANNEL_PREFIX);
    assert SlashFree(Decimal(n));
  }

  /** Two strings joined by a separator that the right-hand parts lack split in one way only. */
  lemma SplitUnique(sep: byte, a: Bytes, b: Bytes, c: Bytes, d: Bytes)
    requires sep !in b && sep !in d
    requires a + [sep] + b == c + [sep] + d
    ensures a == c && b == d
  {
    var s := a + [sep] + b;
    assert s[|a|] == sep && s[|c|] == sep;
    assert |a| == |c|;
    assert a == s[..|a|] && c == s[..|c|];
    assert b == s[|a| + 1..] && d == s[|c| + 1..];
  }

  lemma ClientIdInjective(t: Bytes, m: nat, u: Bytes, n: nat)
    requires ClientId(t, m) == ClientId(u, n)
    ensures t == u && m == n
  {
    assert DASH !in Decimal(m) && DASH !in Decimal(n);
    SplitUnique(DASH, t, Decimal(m), u, Decimal(n));
    DecimalInjective(m, n);
  }

  // ----- Commitment paths and packed keys -----

  datatype Path =
    | ClientPath(clientId: Bytes)
    | ConsensusPath(clientId: Bytes, height: uint64)
    | ConnectionPath(connectionId: Bytes)
    | ChannelPath(portId: Bytes, channelId: Bytes)
    | PacketPath(portId: Bytes, channelId: Bytes, sequence: uint64)
    | AckPath(portId: Bytes, channelId: Bytes, sequence: uint64)

  lemma UInt64BytesInjective(m: uint64, n: uint64)
    requires BigEndian(m, 8) == BigEndian(n, 8)
    ensures m == n
  {
    assert Pow256(8) == 256 * (256 * (256 * (256 * Pow256(4)))) && Pow256(4) == 256 * (256 * (256 * (256 * Pow256(0))));
    BigEndianInjective(m, n, 8);
  }

  /** The leading byte of a packed key. */
  function Kind(path: Path): byte {
    match path
    case ClientPath(_) => 0
    case ConsensusPath(_, _) => 1
    case ConnectionPath(_) => 2
    case ChannelPath(_, _) => 3
    case PacketPath(_, _, _) => 4
    case AckPath(_, _, _) => 5
  }

  function Body(path: Path): Bytes {
    match path
    case ClientPath(clientId) => clientId
    case ConsensusPath(clientId, height) => clientId + [SLASH] + BigEndian(height, 8)
    case ConnectionPath(connectionId) => connectionId
    case ChannelPath(portId, channelId) => portId + [SLASH] + channelId
    case PacketPath(portId, channelId, sequence) =>
      portId + [SLASH] + channelId + [SLASH] + BigEndian(sequence, 8)
    case AckPath(portId, channelId, sequence) =>
      portId + [SLASH] + channelId + [SLASH] + BigEndian(sequence, 8)
  }

  /** The bytes whose keccak digest is the storage key of `path`. */
  function Pack(path: Path): Bytes {
    [Kind(path)] + Body(path)
  }

  /** The packed keys of all kinds of paths. */
  lemma PackedKeys(id: Bytes, port: Bytes, channel: Bytes, n: uint64)
    ensures Pack(ClientPath(id)) == [0] + id
    ensures Pack(ConsensusPath(id, n)) == [1] + (id + Ascii("/") + BigEndian(n, 8))
    ensures Pack(ConnectionPath(id)) == [2] + id
    ensures Pack(ChannelPath(port, channel)) == [3] + (port + Ascii("/") + channel)
    ensures Pack(PacketPath(port, channel, n)) == [4] + (port + Ascii("/") + channel + Ascii("/") + BigEndian(n, 8))
    ensures Pack(AckPath(port, channel, n)) == [5] + (port + Ascii("/") + channel + Ascii("/") + BigEndian(n, 8))
    ensures ChannelCapabilityPath(port, channel) == port + Ascii("/") + channel
  {
    assert Ascii("/") == [SLASH];
  }

  /** A path whose port and channel hold no '/'; the other kinds of path need no such condition. */
  predicate Regular(path: Path) {
    match path
    case ChannelPath(p, c) => SlashFree(p) && SlashFree(c)
    case PacketPath(p, c, _) => SlashFree(p) && SlashFree(c)
    case AckPath(p, c, _) => SlashFree(p) && SlashFree(c)
    case _ => true
  }

  /** With slash-free parts on one side only, "port/channel" still splits in one way. */
  lemma PortChannelUnique(p: Bytes, c: Bytes, q: Bytes, d: Bytes)
    requires SlashFree(q) && SlashFree(d)
    requires p + [SLASH] + c == q + [SLASH] + d
    ensures p == q && c == d
  {
    var s := p + [SLASH] + c;
    assert s[|p|] == SLASH;
    assert |p| == |q|;
    assert p == s[..|p|] && q == s[..|q|];
    assert c == s[|p| + 1..] && d == s[|q| + 1..];
  }

  lemma TailUnique(a: Bytes, m: uint64, b: Bytes, n: uint64)
    requires a + [SLASH] + BigEndian(m, 8) == b + [SLASH] + BigEndian(n, 8)
    ensures a == b && m == n
  {
    var s, t := a + [SLASH] + BigEndian(m, 8), b + [SLASH] + BigEndian(n, 8);
    assert a == s[..|s| - 9] && b == t[..|t| - 9];
    assert BigEndian(m, 8) == s[|s| - 8..] && BigEndian(n, 8) == t[|t| - 8..];
    UInt64BytesInjective(m, n);
  }

  lemma HeadUnique(x: byte, a: Bytes, y: byte, b: Bytes)
    requires [x] + a == [y] + b
    ensures x == y && a == b
  {
    assert ([x] + a)[0] == x && ([y] + b)[0] == y;
    assert a == ([x] + a)[1..] && b == ([y] + b)[1..];
  }

  /** A '/' in a port can stand for the one after it: two paths, one key. */
  lemma SlashCollides(p: Bytes, q: Bytes, c: Bytes)
    ensures ChannelPath(p + [SLASH] + q, c) != ChannelPath(p, q + [SLASH] + c)
    ensures Pack(ChannelPath(p + [SLASH] + q, c)) == Pack(ChannelPath(p, q + [SLASH] + c))
  {
    assert |p + [SLASH] + q| > |p|;
    assert (p + [SLASH] + q) + [SLASH] + c == p + [SLASH] + (q + [SLASH] + c);
  }

  /**
   The six kinds of packed key never collide: a key equal to that of a regular path
   belongs to that very path, whatever strings the other path was built from.
   */
  lemma PackInjective(path: Path, regular: Path)
    requires Regular(regular)
    requires Pack(path) == Pack(regular)
    ensures path == regular
  {
    HeadUnique(Kind(path), Body(path), Kind(regular), Body(regular));
    match path {
      case ClientPath(_) =>
      case ConsensusPath(a, m) => TailUnique(a, m, regular.clientId, regular.height);
      case ConnectionPath(_) =>
      case ChannelPath(p, c) => PortChannelUnique(p, c, regular.portId, regular.channelId);
      case PacketPath(p, c, m) =>
        TailUnique(p + [SLASH] + c, m, regular.portId + [SLASH] + regular.channelId, regular.sequence);
        PortChannelUnique(p, c, regular.portId, regular.channelId);
      case AckPath(p, c, m) =>
        TailUnique(p + [SLASH] + c, m, regular.portId + [SLASH] + regular.channelId, regular.sequence);
        PortChannelUnique(p, c, regular.portId, regular.channelId);
    }
  }

  // ----- Capability names -----

  function ChannelCapabilityPath(portId: Bytes, channelId: Bytes): Bytes {
    portId + [SLASH] + channelId
  }
}
