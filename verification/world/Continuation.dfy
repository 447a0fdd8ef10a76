/** What can follow a state, and what every continuation keeps. */
module Continuation {
  import opened Prelude
  import opened IBCTypes
  import opened HostSpec
  import opened ChainSpec
  import opened World
  import opened ProtocolInvariant
  import opened Conservation
  import opened History
  import opened Books
  import ClientSpec

  // ----- Continuations of a state -----

  function Side(w: World, onA: bool): Chain {
    if onA then w.a else w.b
  }

  lemma NextSides(w: World, step: Step)
    ensures Side(Next(w, step), step.onA) == Apply(Side(w, step.onA), Side(w, !step.onA), step)
    ensures Side(Next(w, step), !step.onA) == Side(w, !step.onA)
  {
    hide Apply;
  }

  /** The state after some more steps. */
  function Steps(w: World, more: seq<Step>): World {
    if more == [] then w else Next(Steps(w, more[..|more| - 1]), more[|more| - 1])
  }

  lemma {:induction false} StepsConcat(w: World, first: seq<Step>, second: seq<Step>)
    ensures Steps(w, first + second) == Steps(Steps(w, first), second)
    decreases |second|
  {
    hide Next;
    if second == [] {
      assert first + second == first;
    } else {
      StepsConcat(w, first, second[..|second| - 1]);
      assert (first + second)[..|first + second| - 1] == first + second[..|second| - 1];
    }
  }

  /** A longer run is a continuation of a shorter one. */
  lemma {:induction false} RunContinues(setup: Setup, steps: seq<Step>, more: seq<Step>)
    ensures Run(setup, steps + more) == Steps(Run(setup, steps), more)
    decreases |more|
  {
    hide Next;
    if more == [] {
      assert steps + more == steps;
    } else {
      RunContinues(setup, steps, more[..|more| - 1]);
      assert (steps + more)[..|steps + more| - 1] == steps + more[..|more| - 1];
    }
  }

  lemma {:induction false} StepsSound(w: World, more: seq<Step>, n: nat)
    requires Sound(w, n) && n + |more| < TWO_64 - 1
    ensures Sound(Steps(w, more), n + |more|)
    decreases |more|
  {
    hide Sound, Next;
    if more != [] {
      StepsSound(w, more[..|more| - 1], n);
      NextSound(Steps(w, more[..|more| - 1]), more[|more| - 1], n + |more| - 1);
    }
  }

  /** `v` comes `k` steps after `w`. */
  ghost predicate Leads(w: World, v: World, k: nat) {
    exists more :: |more| == k && Steps(w, more) == v
  }

  lemma LeadsNow(w: World)
    ensures Leads(w, w, 0)
  {
    assert Steps(w, []) == w;
  }

  lemma LeadsNext(w: World, v: World, k: nat, step: Step)
    requires Leads(w, v, k)
    ensures Leads(w, Next(v, step), k + 1)
  {
    hide Next;
    var more :| |more| == k && Steps(w, more) == v;
    assert (more + [step])[..|more + [step]| - 1] == more;
    assert Steps(w, more + [step]) == Next(v, step) && |more + [step]| == k + 1;
  }

  lemma LeadsJoin(w: World, v: World, u: World, j: nat, k: nat)
    requires Leads(w, v, j) && Leads(v, u, k)
    ensures Leads(w, u, j + k)
  {
    hide Steps;
    var first :| |first| == j && Steps(w, first) == v;
    var second :| |second| == k && Steps(v, second) == u;
    StepsConcat(w, first, second);
    assert |first + second| == j + k;
  }

  lemma LeadsSound(w: World, v: World, k: nat, n: nat)
    requires Leads(w, v, k) && Sound(w, n) && n + k < TWO_64 - 1
    ensures Sound(v, n + k)
  {
    hide Sound, Steps;
    var more :| |more| == k && Steps(w, more) == v;
    StepsSound(w, more, n);
  }

  /** From a run's state on, what leads somewhere makes a longer run. */
  lemma LeadsRun(setup: Setup, steps: seq<Step>, v: World, k: nat)
    requires Leads(Run(setup, steps), v, k)
    ensures exists more :: |more| == k && Run(setup, steps + more) == v
  {
    hide Run, Steps;
    var more :| |more| == k && Steps(Run(setup, steps), more) == v;
    RunContinues(setup, steps, more);
    assert |more| == k && Run(setup, steps + more) == v;
  }

  /** What holds of one side of a sound state. */
  lemma SideSound(w: World, onA: bool, n: nat)
    requires Sound(w, n)
    ensures Sides(Side(w, onA), Side(w, !onA))
    ensures |Side(w, onA).blocks| <= n && |Side(w, onA).sent| <= n
  {
    SoundSides(w, n);
    SoundBounded(w, n);
    hide Sound, Sides;
  }

  lemma SoundBounded(w: World, n: nat)
    requires Sound(w, n)
    ensures Bounded(w.a, n) && Bounded(w.b, n)
  {
    hide LocalInv, Links, BlocksInv, MoneyInv, OrderedInv, BookInv;
  }

  // ----- Clients -----

  /** A client that exists and has an implementation. */
  predicate Working(c: Chain, clientId: Bytes) {
    HasClientImpl(c.host, clientId) && clientId in c.host.store.clientStates
  }

  /** The client knows `root` at a height it accepts. */
  predicate Knows(c: Chain, clientId: Bytes, height: uint64, root: Store) {
    && Working(c, clientId) && height <= c.host.store.clientStates[clientId].latestHeight
    && ConsensusKey(clientId, height) in c.host.store.consensusStates
    && c.host.store.consensusStates[ConsensusKey(clientId, height)].root == root
  }

  /** The client's latest height has a consensus state. */
  predicate Current(c: Chain, clientId: Bytes) {
    && clientId in c.host.store.clientStates
    && ConsensusKey(clientId, c.host.store.clientStates[clientId].latestHeight) in c.host.store.consensusStates
  }

  /** Nothing but the states of clients changes. */
  ghost predicate OnlyClients(c: Chain, d: Chain) {
    && d == c.(host := d.host)
    && d.host == c.host.(store := d.host.store)
    && d.host.store == c.host.store.(clientStates := d.host.store.clientStates, consensusStates := d.host.store.consensusStates)
    && (forall id | id in c.host.store.clientStates :: id in d.host.store.clientStates)
  }

  /** The other side seals a block, and the client is shown it. */
  function Refresh(w: World, onA: bool, clientId: Bytes): World {
    Next(Next(w, Seal(!onA, 0)), Submit(onA, Action.UpdateClient(clientId, |Side(w, !onA).blocks|)))
  }

  lemma UpdateAccepted(c: Chain, peer: Chain, clientId: Bytes, height: uint64, onA: bool)
    requires Working(c, clientId) && c.host.lightClient.accepts(clientId, height)
    requires height < |peer.blocks|
    ensures var d := Apply(c, peer, Submit(onA, Action.UpdateClient(clientId, height)));
            && OnlyClients(c, d) && Knows(d, clientId, height, peer.blocks[height].root)
            && d.host.store.clientStates
               == c.host.store.clientStates[clientId := ClientSpec.Advance(c.host.store.clientStates[clientId], height)]
            && d.host.store.consensusStates
               == c.host.store.consensusStates[ConsensusKey(clientId, height) := peer.blocks[height]]
  {
    hide ClientSpec.Advance;
    AdvancedBeyond(c.host.store.clientStates[clientId], height);
  }

  lemma AdvancedBeyond(client: ClientState, height: uint64)
    ensures height <= ClientSpec.Advance(client, height).latestHeight
  {
  }

  /** Shown the latest state of the other side, a client knows it. */
  lemma Refreshed(w: World, onA: bool, clientId: Bytes)
    requires var c, peer := Side(w, onA), Side(w, !onA);
             Working(c, clientId) && |peer.blocks| < TWO_64 && c.host.lightClient.accepts(clientId, |peer.blocks|)
    ensures var c, peer := Side(w, onA), Side(w, !onA);
            var v := Refresh(w, onA, clientId);
            && Leads(w, v, 2)
            && Side(v, !onA) == SealBlock(peer, 0)
            && OnlyClients(c, Side(v, onA)) && Knows(Side(v, onA), clientId, |peer.blocks|, peer.host.store)
            && Side(v, onA).host.store.clientStates
               == c.host.store.clientStates[clientId := ClientSpec.Advance(c.host.store.clientStates[clientId], |peer.blocks|)]
            && Side(v, onA).host.store.consensusStates
               == c.host.store.consensusStates[ConsensusKey(clientId, |peer.blocks|) := SealBlock(peer, 0).blocks[|peer.blocks|]]
  {
    hide Next, Apply, OnlyClients, Knows, Working, Leads;
    var c, peer := Side(w, onA), Side(w, !onA);
    var height := |peer.blocks|;
    var seal, show := Seal(!onA, 0), Submit(onA, Action.UpdateClient(clientId, height));
    NextSides(w, seal);
    SealApplied(peer, c, seal);
    NextSides(Next(w, seal), show);
    UpdateAccepted(c, SealBlock(peer, 0), clientId, height, onA);
    LeadsNow(w);
    LeadsNext(w, w, 0, seal);
    LeadsNext(w, Next(w, seal), 1, show);
  }

  lemma SealApplied(c: Chain, peer: Chain, step: Step)
    requires step.Seal?
    ensures Apply(c, peer, step) == SealBlock(c, step.timestamp)
  {
  }
}
