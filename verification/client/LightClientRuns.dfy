/** What a light client stores over any run of updates: a chain of trust back to its creation. */
module LightClientRuns {
  import opened Prelude
  import opened Seals
  import opened IBFT2Client

  /** An accepted header, the state it was checked against, and the state it left. */
  datatype Accepted = Accepted(header: Header, trusted: Consensus, height: uint64, result: Consensus)

  /** What the host stores for one client; `log` records the accepted headers. */
  datatype Stored = Stored(client: Client, states: map<uint64, Consensus>, log: seq<Accepted>)

  /** `createClient`, with a consensus state at the client's latest height. */
  function Create(client: Client, consensus: Consensus): Stored {
    Stored(client, map[client.latestHeight := consensus], [])
  }

  /** `updateClient`; a header that is refused changes nothing. */
  ghost function Update(s: Stored, header: Header, crypto: Crypto): Stored {
    match CheckHeader(s.client, s.states, header, crypto)
    case Revert => s
    case Ok((client, consensus, height)) =>
      Stored(client, s.states[height := consensus],
             s.log + [Accepted(header, s.states[header.trustedHeight], height, consensus)])
  }

  ghost function Run(s: Stored, headers: seq<Header>, crypto: Crypto): Stored {
    if headers == [] then s
    else Update(Run(s, headers[..|headers| - 1], crypto), headers[|headers| - 1], crypto)
  }

  /** A header that passes both seal checks against a state, and leaves another. */
  ghost predicate Checked(a: Accepted, crypto: Crypto) {
    && ParseBesuHeader(a.header.besuHeader).Ok?
    && var parsed := ParseBesuHeader(a.header.besuHeader).value;
    && a.height == parsed.height && a.header.trustedHeight < a.height
    && a.result.timestamp == parsed.time
    && VerifyHeader(a.trusted, a.header, parsed, crypto) == Ok(a.result.validators)
  }

  ghost predicate ResultAt(log: seq<Accepted>, j: nat, height: uint64, result: Consensus) {
    j < |log| && log[j].height == height && log[j].result == result
  }

  /** A state stored at a height: the one at creation, or the result of one of the first `n` headers. */
  ghost predicate Trusted(log: seq<Accepted>, n: nat, height: uint64, state: Consensus, first: uint64, consensus: Consensus) {
    (height == first && state == consensus) || exists j: nat :: j < n && ResultAt(log, j, height, state)
  }

  ghost predicate StoredInv(s: Stored, first: uint64, consensus: Consensus, crypto: Crypto) {
    && s.client.latestHeight in s.states
    && (forall h | h in s.states :: first <= h <= s.client.latestHeight)
    && first in s.states && s.states[first] == consensus
    && (forall h | h in s.states :: Trusted(s.log, |s.log|, h, s.states[h], first, consensus))
    && (forall i | 0 <= i < |s.log| ::
          && Checked(s.log[i], crypto)
          && first < s.log[i].height
          && Trusted(s.log, i, s.log[i].header.trustedHeight, s.log[i].trusted, first, consensus))
  }

  /** What an accepted header checked and stored. */
  lemma UpdateShape(s: Stored, header: Header, crypto: Crypto)
    requires CheckHeader(s.client, s.states, header, crypto).Ok?
    ensures var (client, consensus, height) := CheckHeader(s.client, s.states, header, crypto).value;
            && header.trustedHeight in s.states
            && Checked(Accepted(header, s.states[header.trustedHeight], height, consensus), crypto)
            && client.latestHeight == (if height > s.client.latestHeight then height else s.client.latestHeight)
  {
    hide ParseBesuHeader, VerifyHeader, StorageRoot;
  }

  lemma TrustedLonger(log: seq<Accepted>, more: seq<Accepted>, n: nat, height: uint64, state: Consensus, first: uint64,
                      consensus: Consensus)
    requires Trusted(log, n, height, state, first, consensus) && log <= more && n <= |log|
    ensures Trusted(more, n, height, state, first, consensus)
  {
    if j: nat :| j < n && ResultAt(log, j, height, state) {
      assert ResultAt(more, j, height, state);
    }
  }

  lemma UpdateKeeps(s: Stored, header: Header, first: uint64, consensus: Consensus, crypto: Crypto)
    requires StoredInv(s, first, consensus, crypto)
    ensures StoredInv(Update(s, header, crypto), first, consensus, crypto)
    ensures s.client.latestHeight <= Update(s, header, crypto).client.latestHeight
    ensures s.log <= Update(s, header, crypto).log
  {
    hide CheckHeader, Checked, Trusted;
    if CheckHeader(s.client, s.states, header, crypto).Ok? {
      UpdateShape(s, header, crypto);
      var t := Update(s, header, crypto);
      var a := t.log[|s.log|];
      CheckedHeights(a, crypto);
      forall h | h in t.states
        ensures Trusted(t.log, |t.log|, h, t.states[h], first, consensus)
      {
        if h == a.height {
          TrustedNow(t.log, |s.log|, first, consensus);
        } else {
          TrustedLonger(s.log, t.log, |s.log|, h, s.states[h], first, consensus);
          TrustedMore(t.log, |s.log|, |t.log|, h, s.states[h], first, consensus);
        }
      }
      forall i | 0 <= i < |t.log|
        ensures Trusted(t.log, i, t.log[i].header.trustedHeight, t.log[i].trusted, first, consensus)
      {
        if i < |s.log| {
          TrustedLonger(s.log, t.log, i, s.log[i].header.trustedHeight, s.log[i].trusted, first, consensus);
        } else {
          TrustedLonger(s.log, t.log, i, header.trustedHeight, s.states[header.trustedHeight], first, consensus);
        }
      }
    }
  }

  lemma CheckedHeights(a: Accepted, crypto: Crypto)
    requires Checked(a, crypto)
    ensures a.header.trustedHeight < a.height
  {
  }

  lemma TrustedNow(log: seq<Accepted>, i: nat, first: uint64, consensus: Consensus)
    requires i < |log|
    ensures Trusted(log, |log|, log[i].height, log[i].result, first, consensus)
  {
    assert ResultAt(log, i, log[i].height, log[i].result);
  }

  lemma TrustedMore(log: seq<Accepted>, m: nat, n: nat, height: uint64, state: Consensus, first: uint64, consensus: Consensus)
    requires Trusted(log, m, height, state, first, consensus) && m <= n
    ensures Trusted(log, n, height, state, first, consensus)
  {
  }

  /**
   In every run the latest height has a state, every stored height lies between creation and
   the latest, the state at creation stays, and every other state is the result of a header
   that passed both seal checks against a state stored before it at a lower height.
   */
  lemma {:induction false} RunTrusted(client: Client, consensus: Consensus, headers: seq<Header>, crypto: Crypto)
    ensures StoredInv(Run(Create(client, consensus), headers, crypto), client.latestHeight, consensus, crypto)
  {
    if headers != [] {
      hide StoredInv, Update;
      RunTrusted(client, consensus, headers[..|headers| - 1], crypto);
      UpdateKeeps(Run(Create(client, consensus), headers[..|headers| - 1], crypto), headers[|headers| - 1],
                  client.latestHeight, consensus, crypto);
    }
  }

  /** The latest height never decreases, and no accepted header is forgotten. */
  lemma {:induction false} RunMonotone(client: Client, consensus: Consensus, headers: seq<Header>, more: seq<Header>,
                                       crypto: Crypto)
    ensures var s := Run(Create(client, consensus), headers, crypto);
            var t := Run(Create(client, consensus), headers + more, crypto);
            s.client.latestHeight <= t.client.latestHeight && s.log <= t.log
    decreases |more|
  {
    if more == [] {
      assert headers + more == headers;
    } else {
      hide StoredInv, Update;
      var before := more[..|more| - 1];
      assert (headers + more)[..|headers + more| - 1] == headers + before;
      RunMonotone(client, consensus, headers, before, crypto);
      RunTrusted(client, consensus, headers + before, crypto);
      UpdateKeeps(Run(Create(client, consensus), headers + before, crypto), more[|more| - 1], client.latestHeight,
                  consensus, crypto);
    }
  }

  /** The heights of the trusted states behind an accepted header, back to the creation. */
  ghost predicate TrustChain(log: seq<Accepted>, chain: seq<nat>, first: uint64, consensus: Consensus) {
    && chain != []
    && (forall k | 0 <= k < |chain| :: chain[k] < |log|)
    && (forall k | 0 < k < |chain| ::
          && chain[k - 1] < chain[k]
          && ResultAt(log, chain[k - 1], log[chain[k]].header.trustedHeight, log[chain[k]].trusted))
    && log[chain[0]].header.trustedHeight == first && log[chain[0]].trusted == consensus
  }

  lemma TrustedAt(s: Stored, i: nat, first: uint64, consensus: Consensus, crypto: Crypto)
    requires StoredInv(s, first, consensus, crypto) && i < |s.log|
    ensures Trusted(s.log, i, s.log[i].header.trustedHeight, s.log[i].trusted, first, consensus)
  {
    hide Trusted, Checked;
  }

  lemma ChainStart(log: seq<Accepted>, i: nat, first: uint64, consensus: Consensus)
    requires i < |log| && log[i].header.trustedHeight == first && log[i].trusted == consensus
    ensures TrustChain(log, [i], first, consensus) && [i][|[i]| - 1] == i
  {
  }

  lemma ChainLonger(log: seq<Accepted>, chain: seq<nat>, i: nat, first: uint64, consensus: Consensus)
    requires TrustChain(log, chain, first, consensus) && i < |log| && chain[|chain| - 1] < i
    requires ResultAt(log, chain[|chain| - 1], log[i].header.trustedHeight, log[i].trusted)
    ensures TrustChain(log, chain + [i], first, consensus)
  {
    hide ResultAt;
  }

  /** From every accepted header a chain of accepted headers leads back to the creation. */
  lemma {:induction false} ChainToCreation(s: Stored, i: nat, first: uint64, consensus: Consensus, crypto: Crypto)
    requires StoredInv(s, first, consensus, crypto) && i < |s.log|
    ensures exists chain :: TrustChain(s.log, chain, first, consensus) && chain != [] && chain[|chain| - 1] == i
    decreases i
  {
    hide StoredInv, ResultAt, TrustChain;
    TrustedAt(s, i, first, consensus, crypto);
    var a := s.log[i];
    if a.header.trustedHeight == first && a.trusted == consensus {
      ChainStart(s.log, i, first, consensus);
    } else {
      var j: nat :| j < i && ResultAt(s.log, j, a.header.trustedHeight, a.trusted);
      ChainToCreation(s, j, first, consensus, crypto);
      var chain :| TrustChain(s.log, chain, first, consensus) && chain != [] && chain[|chain| - 1] == j;
      ChainLonger(s.log, chain, i, first, consensus);
      assert (chain + [i])[|chain + [i]| - 1] == i;
    }
  }
}
