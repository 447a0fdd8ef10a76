/**
 What the host accepts in any state, also in states that no run of two honest chains reaches, and
 what it then records.
 */
module HostAcceptance {
  import opened Prelude
  import opened IBCIdentifier
  import opened IBCTypes
  import opened HostSpec
  import ConnectionSpec
  import ChannelSpec

  /** The counterparty end that an acknowledgement claims: in TRYOPEN, with the one version and naming this end. */
  function ClaimedAnswer(end: ConnectionEnd, msg: MsgConnectionOpenAck): ConnectionEnd {
    ConnectionEnd(end.counterparty.clientId, [msg.version], CONN_TRYOPEN, end.delayPeriod,
                  Counterparty(end.clientId, msg.connectionId, Ascii("ibc")))
  }

  /** An end in INIT takes any proved version, one in TRYOPEN only the one version it has. */
  lemma ConnectionAckOnHost(s: HostState, msg: MsgConnectionOpenAck)
    ensures ConnectionSpec.ConnectionOpenAck(s, msg)
         == if msg.connectionId !in s.store.connections then Revert
            else
              var end := s.store.connections[msg.connectionId];
              var theirs := end.counterparty;
              if && (end.state == CONN_INIT || (end.state == CONN_TRYOPEN && end.versions == [msg.version]))
                 && VerifyMembership(s, end.clientId, msg.proofHeight, theirs.prefix, msg.proofTry,
                                     ConnectionPath(msg.counterpartyConnectionId), ConnectionDigest(ClaimedAnswer(end, msg)))
                 && VerifyMembership(s, end.clientId, msg.proofHeight, theirs.prefix, msg.proofClient,
                                     ClientPath(theirs.clientId), ClientDigest(msg.clientState))
              then Ok(s.(store := s.store.(connections := s.store.connections[msg.connectionId :=
                     ConnectionEnd(end.clientId, [msg.version], CONN_OPEN, end.delayPeriod,
                                   Counterparty(theirs.clientId, msg.counterpartyConnectionId, theirs.prefix))])))
              else Revert
  {
    hide VerifyMembership;
    assert Ascii("ibc") == ConnectionSpec.COMMITMENT_PREFIX;
    if msg.connectionId in s.store.connections {
      var versions := s.store.connections[msg.connectionId].versions;
      assert |versions| == 1 && versions[0] == msg.version <==> versions == [msg.version];
    }
  }

  /** An end in INIT or in TRYOPEN, over one open connection, takes the proved version and counterparty. */
  lemma ChannelAckOnHost(s: HostState, msg: MsgChannelOpenAck)
    ensures var key := ChannelKey(msg.portId, msg.channelId);
            ChannelSpec.ChannelOpenAck(s, msg)
            == if key !in s.store.channels || |s.store.channels[key].connectionHops| != 1
                  || s.store.channels[key].connectionHops[0] !in s.store.connections then Revert
               else
                 var end := s.store.channels[key];
                 var connection := s.store.connections[end.connectionHops[0]];
                 if && end.state in {CHAN_INIT, CHAN_TRYOPEN} && connection.state == CONN_OPEN
                    && VerifyMembership(s, connection.clientId, msg.proofHeight, connection.counterparty.prefix, msg.proofTry,
                                        ChannelPath(end.counterparty.portId, msg.counterpartyChannelId),
                                        ChannelDigest(Channel(CHAN_TRYOPEN, end.ordering,
                                                              ChannelCounterparty(msg.portId, msg.channelId),
                                                              [connection.counterparty.connectionId], msg.counterpartyVersion)))
                 then Ok(s.(store := s.store.(channels := s.store.channels[key :=
                        Channel(CHAN_OPEN, end.ordering, ChannelCounterparty(end.counterparty.portId, msg.counterpartyChannelId),
                                end.connectionHops, msg.counterpartyVersion)])))
                 else Revert
  {
    hide VerifyMembership;
  }

  /**
   A proved acknowledgement of a packet that is committed deletes the commitment; on an ordered
   channel only if the packet's sequence and the counter of acknowledgements are both 0.
   */
  lemma PacketAckOnHost(s: HostState, msg: MsgPacketAcknowledgement)
    ensures var p := msg.packet;
            var key := ChannelKey(p.sourcePort, p.sourceChannel);
            ChannelSpec.AcknowledgePacket(s, msg)
            == if key !in s.store.channels || |s.store.channels[key].connectionHops| == 0
                  || s.store.channels[key].connectionHops[0] !in s.store.connections then Revert
               else
                 var end := s.store.channels[key];
                 var connection := s.store.connections[end.connectionHops[0]];
                 var commitments := s.store.packetCommitments;
                 if && end.state == CHAN_OPEN && connection.state == CONN_OPEN
                    && end.counterparty == ChannelCounterparty(p.destinationPort, p.destinationChannel)
                    && PacketKey(key, p.sequence) in commitments
                    && commitments[PacketKey(key, p.sequence)] == PacketDigest(p.timeoutTimestamp, p.timeoutHeight, p.data)
                    && VerifyMembership(s, connection.clientId, msg.proofHeight, connection.counterparty.prefix, msg.proof,
                                        AckPath(p.destinationPort, p.destinationChannel, p.sequence),
                                        AckDigest(msg.acknowledgement))
                    && (end.ordering == ORDER_ORDERED ==>
                          p.sequence == 0 && (key in s.nextSequenceAcks ==> s.nextSequenceAcks[key] == 0))
                 then
                   Ok(s.(store := s.store.(packetCommitments := commitments - {PacketKey(key, p.sequence)}),
                         nextSequenceAcks := if end.ordering == ORDER_ORDERED then s.nextSequenceAcks[key := 1]
                                             else s.nextSequenceAcks))
                 else Revert
  {
    hide VerifyMembership;
  }

  /**
   A proved and timely packet leaves its receipt on an unordered channel, and moves the counter on an
   ordered one, where it has to be the next.
   */
  lemma PacketRecvOnHost(s: HostState, msg: MsgPacketRecv, env: Env)
    ensures var p := msg.packet;
            var key := ChannelKey(p.destinationPort, p.destinationChannel);
            ChannelSpec.RecvPacket(s, msg, env)
            == if key !in s.store.channels || |s.store.channels[key].connectionHops| == 0
                  || s.store.channels[key].connectionHops[0] !in s.store.connections then Revert
               else
                 var end := s.store.channels[key];
                 var connection := s.store.connections[end.connectionHops[0]];
                 var digest := PacketDigest(p.timeoutTimestamp, p.timeoutHeight, p.data);
                 var next := if key in s.nextSequenceRecvs then s.nextSequenceRecvs[key] else 0;
                 if !(&& end.state == CHAN_OPEN && connection.state == CONN_OPEN
                      && end.counterparty == ChannelCounterparty(p.sourcePort, p.sourceChannel)
                      && (p.timeoutHeight.revisionHeight == 0 || env.number < p.timeoutHeight.revisionHeight)
                      && (p.timeoutTimestamp == 0 || env.timestamp < p.timeoutTimestamp)
                      && VerifyMembership(s, connection.clientId, msg.proofHeight, connection.counterparty.prefix, msg.proof,
                                          PacketPath(p.sourcePort, p.sourceChannel, p.sequence), digest)) then Revert
                 else if end.ordering == ORDER_UNORDERED && PacketKey(key, p.sequence) !in s.packetReceipts then
                   Ok(s.(packetReceipts := s.packetReceipts + {PacketKey(key, p.sequence)}))
                 else if end.ordering == ORDER_ORDERED && p.sequence == next != 0 then
                   Ok(s.(nextSequenceRecvs := s.nextSequenceRecvs[key := Inc64(p.sequence)]))
                 else Revert
  {
    hide VerifyMembership;
  }

  /** An acknowledgement is written once, and not an empty one. */
  lemma AckWrittenOnHost(s: HostState, port: Bytes, channel: Bytes, sequence: uint64, ack: Bytes)
    ensures var key := ChannelKey(port, channel);
            var acks := s.store.acknowledgements;
            ChannelSpec.WriteAcknowledgement(s, port, channel, sequence, ack)
            == if && key in s.store.channels && s.store.channels[key].state == CHAN_OPEN
                  && PacketKey(key, sequence) !in acks && ack != []
               then Ok(s.(store := s.store.(acknowledgements := acks[PacketKey(key, sequence) := AckDigest(ack)])))
               else Revert
  {
  }
}
