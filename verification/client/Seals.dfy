/**
 Commit seals: the two counting loops of the IBFT 2.0 client, and the collector that
 prepares the seals. `recover` is signature recovery over one block hash; it gives the zero
 address for what is no signature.
 */
module Seals {
  import opened Prelude
  import opened RLPCodec

  type Recovery = Bytes -> Address

  /** `bytes.toAddress()`. */
  function ToAddress(b: Bytes): Result<Address> {
    if |b| == 20 then Ok(b) else Revert
  }

  /** The unchecked `++` of a `uint8`. */
  function Inc8(x: nat): nat {
    (x + 1) % 256
  }

  predicate SignedBy(seals: seq<Bytes>, i: nat, who: Bytes, recover: Recovery) {
    i < |seals| && seals[i] != [] && recover(seals[i]) == who
  }

  // ----- The trusted validators -----

  /** Whether a seal other than the empty one recovers to the `j`-th trusted validator. */
  ghost predicate EndorsedBy(trusted: seq<Bytes>, j: nat, seals: seq<Bytes>, recover: Recovery) {
    j < |trusted| && exists i: nat :: SignedBy(seals, i, trusted[j], recover)
  }

  ghost function Endorsed(trusted: seq<Bytes>, seals: seq<Bytes>, recover: Recovery): (s: set<nat>)
    ensures forall j :: j in s <==> EndorsedBy(trusted, j, seals, recover)
  {
    set j | 0 <= j < |trusted| && EndorsedBy(trusted, j, seals, recover)
  }

  predicate AllEmpty(seals: seq<Bytes>) {
    forall i | 0 <= i < |seals| :: seals[i] == []
  }

  predicate AllAddresses(vals: seq<Bytes>) {
    forall j | 0 <= j < |vals| :: |vals[j]| == 20
  }

  /** `n * numerator / denominator`. */
  function Portion(n: nat, numerator: nat, denominator: nat): nat
    requires denominator > 0
  {
    n * numerator / denominator
  }

  /**
   `verifyCommitSealsTrusting`: compares the number of endorsed positions, as a `uint8`,
   with the given fraction of the trusted validators, whatever the order or repetition of
   the seals.
   */
  method VerifyCommitSealsTrusting(trusted: seq<Bytes>, seals: seq<Bytes>, recover: Recovery, numerator: nat, denominator: nat)
    returns (r: Result<bool>)
    requires denominator > 0
    ensures r.Ok? <==> AllEmpty(seals) || AllAddresses(trusted)
    ensures r.Ok? ==> r.value == (|Endorsed(trusted, seals, recover)| % 256 >= Portion(|trusted|, numerator, denominator))
  {
    hide EndorsedBy, AllEmpty, Inc8, Portion;
    var success := 0;
    var marked := new bool[|trusted|](_ => false);
    ghost var counted: set<nat> := {};
    NoneEndorsed(trusted, seals, recover);
    for i := 0 to |seals|
      invariant AllEmpty(seals[..i]) || AllAddresses(trusted)
      invariant success == |counted| % 256
      invariant forall j | 0 <= j < |trusted| :: marked[j] <==> j in counted
      invariant forall j :: j in counted <==> EndorsedBy(trusted, j, seals[..i], recover)
    {
      EndorsedNext(trusted, seals, i, recover);
      if |seals[i]| == 0 {
        continue;
      }
      SomeSeal(seals, i);
      var signer := recover(seals[i]);
      ghost var before := counted;
      for j := 0 to |trusted|
        invariant forall k | 0 <= k < j :: |trusted[k]| == 20
        invariant success == |counted| % 256
        invariant forall k | 0 <= k < |trusted| :: marked[k] <==> k in counted
        invariant forall k :: k in counted <==> k in before || (0 <= k < j && trusted[k] == signer)
      {
        if !marked[j] {
          if |trusted[j]| != 20 {
            return Revert;
          }
          if trusted[j] == signer {
            success := Inc8(success);
            Inc8Counts(counted, j);
            marked[j] := true;
            counted := counted + {j};
          }
        } else {
          EndorsedIsAddress(trusted, j, seals[..i + 1], recover);
        }
      }
    }
    assert seals[..|seals|] == seals;
    assert counted == Endorsed(trusted, seals, recover);
    return Ok(success >= Portion(|trusted|, numerator, denominator));
  }

  lemma Inc8Counts(s: set<nat>, x: nat)
    requires x !in s
    ensures Inc8(|s| % 256) == |s + {x}| % 256
  {
  }

  lemma SomeSeal(seals: seq<Bytes>, i: nat)
    requires i < |seals| && seals[i] != []
    ensures !AllEmpty(seals)
  {
  }

  lemma NoneEndorsed(trusted: seq<Bytes>, seals: seq<Bytes>, recover: Recovery)
    ensures forall j: nat :: !EndorsedBy(trusted, j, seals[..0], recover)
    ensures AllEmpty(seals[..0])
  {
  }

  lemma EndorsedIsAddress(trusted: seq<Bytes>, j: nat, seals: seq<Bytes>, recover: Recovery)
    requires EndorsedBy(trusted, j, seals, recover)
    ensures |trusted[j]| == 20
  {
  }

  /** What one more seal adds. */
  lemma EndorsedNext(trusted: seq<Bytes>, seals: seq<Bytes>, i: nat, recover: Recovery)
    requires i < |seals|
    ensures forall j: nat :: EndorsedBy(trusted, j, seals[..i + 1], recover)
                        <==> EndorsedBy(trusted, j, seals[..i], recover)
                             || (j < |trusted| && seals[i] != [] && recover(seals[i]) == trusted[j])
    ensures AllEmpty(seals[..i + 1]) <==> AllEmpty(seals[..i]) && seals[i] == []
  {
    var next := seals[..i + 1];
    assert next[i] == seals[i] && forall k | 0 <= k < i :: next[k] == seals[..i][k];
    forall j: nat
      ensures EndorsedBy(trusted, j, next, recover)
         <==> EndorsedBy(trusted, j, seals[..i], recover)
              || (j < |trusted| && seals[i] != [] && recover(seals[i]) == trusted[j])
    {
      if j < |trusted| {
        assert forall k: nat | k != i :: SignedBy(next, k, trusted[j], recover) <==> SignedBy(seals[..i], k, trusted[j], recover);
        assert !SignedBy(seals[..i], i, trusted[j], recover);
        assert SignedBy(next, i, trusted[j], recover) <==> seals[i] != [] && recover(seals[i]) == trusted[j];
      }
    }
  }

  lemma {:induction false} PositionsAtMost(s: set<nat>, n: nat)
    requires forall x | x in s :: x < n
    ensures |s| <= n
  {
    if n == 0 {
      assert s == {};
    } else {
      PositionsAtMost(s - {n - 1}, n - 1);
    }
  }

  /** Up to 255 trusted validators the count is exact, and beyond that it only falls short. */
  lemma TrustingCount(trusted: seq<Bytes>, seals: seq<Bytes>, recover: Recovery)
    ensures var count := |Endorsed(trusted, seals, recover)|;
            && (count % 256 >= |trusted| / 3 ==> count >= |trusted| / 3)
            && (|trusted| <= 255 ==> (count % 256 >= |trusted| / 3 <==> count >= |trusted| / 3))
  {
    PositionsAtMost(Endorsed(trusted, seals, recover), |trusted|);
  }

  // ----- The header's own validators -----

  /** The positions whose seal recovers to the validator there. */
  ghost function Signers(vals: seq<Bytes>, seals: seq<Bytes>, recover: Recovery): (s: set<nat>)
    ensures forall i :: i in s <==> 0 <= i < |vals| && SignedBy(seals, i, vals[i], recover)
  {
    set i | 0 <= i < |vals| && SignedBy(seals, i, vals[i], recover)
  }

  /** What the loop stores: the bytes of the validators that have a seal, empty or not. */
  function Listed(mem: Bytes, items: seq<RLPItem>, seals: seq<Bytes>): (vals: seq<Result<Bytes>>)
    ensures |vals| == |items|
    ensures forall i | 0 <= i < |vals| :: vals[i] == if i < |seals| then ToBytes(mem, items[i]) else Ok([])
  {
    seq(|items|, i requires 0 <= i < |items| => if i < |seals| then ToBytes(mem, items[i]) else Ok([]))
  }

  /** Whether the loop runs to its end. */
  predicate SealsFit(mem: Bytes, items: seq<RLPItem>, seals: seq<Bytes>) {
    && |seals| <= |items|
    && forall i | 0 <= i < |seals| ::
         && ToBytes(mem, items[i]).Ok?
         && (seals[i] != [] ==> |ToBytes(mem, items[i]).value| == 20)
  }

  /**
   `verifyCommitSeals`: gives back the validators that have a seal, and accepts if the number
   of signed positions, as a `uint8`, exceeds two thirds.
   */
  method VerifyCommitSeals(mem: Bytes, items: seq<RLPItem>, seals: seq<Bytes>, recover: Recovery)
    returns (r: Result<(seq<Bytes>, bool)>)
    ensures r.Ok? <==> SealsFit(mem, items, seals)
    ensures r.Ok? ==>
              var (validators, ok) := r.value;
              && |validators| == |items|
              && (forall i | 0 <= i < |items| :: Ok(validators[i]) == Listed(mem, items, seals)[i])
              && ok == (|Signers(validators, seals, recover)| % 256 > |items| * 2 / 3)
  {
    hide ToBytes, SealsFit, SignedBy, Inc8;
    FitNone(mem, items, seals);
    var validators := new Bytes[|items|](_ => []);
    var success := 0;
    ghost var counted: set<nat> := {};
    for i := 0 to |seals|
      invariant i <= |items|
      invariant SealsFit(mem, items, seals[..i])
      invariant forall k | 0 <= k < i :: Ok(validators[k]) == ToBytes(mem, items[k])
      invariant forall k | i <= k < |items| :: validators[k] == []
      invariant success == |counted| % 256
      invariant forall k :: k in counted <==> 0 <= k < i && SignedBy(seals, k, validators[k], recover)
    {
      FitNext(mem, items, seals, i);
      if i >= |items| {
        return Revert;
      }
      var bytes := ToBytes(mem, items[i]);
      if bytes.Revert? {
        return Revert;
      }
      validators[i] := bytes.value;
      if |seals[i]| == 0 {
        SignedHere(seals, i, validators[i], recover);
        continue;
      }
      if |validators[i]| != 20 {
        return Revert;
      }
      SignedHere(seals, i, validators[i], recover);
      if validators[i] == recover(seals[i]) {
        success := Inc8(success);
        Inc8Counts(counted, i);
        counted := counted + {i};
      }
    }
    assert seals[..|seals|] == seals;
    assert counted == Signers(validators[..], seals, recover) by {
      SignedBeyond(seals, recover);
    }
    return Ok((validators[..], success > |items| * 2 / 3));
  }

  lemma SignedHere(seals: seq<Bytes>, i: nat, who: Bytes, recover: Recovery)
    requires i < |seals|
    ensures SignedBy(seals, i, who, recover) <==> seals[i] != [] && recover(seals[i]) == who
  {
  }

  lemma SignedBeyond(seals: seq<Bytes>, recover: Recovery)
    ensures forall i: nat, who | i >= |seals| :: !SignedBy(seals, i, who, recover)
  {
  }

  lemma FitNone(mem: Bytes, items: seq<RLPItem>, seals: seq<Bytes>)
    ensures SealsFit(mem, items, seals[..0])
    ensures SealsFit(mem, items, seals) ==> |seals| <= |items|
  {
  }

  lemma FitNext(mem: Bytes, items: seq<RLPItem>, seals: seq<Bytes>, i: nat)
    requires i < |seals| && SealsFit(mem, items, seals[..i])
    ensures SealsFit(mem, items, seals[..i + 1])
       <==> i < |items| && ToBytes(mem, items[i]).Ok? && (seals[i] != [] ==> |ToBytes(mem, items[i]).value| == 20)
    ensures !SealsFit(mem, items, seals[..i + 1]) ==> !SealsFit(mem, items, seals)
  {
    hide ToBytes;
    assert seals[..i + 1][i] == seals[i];
    assert forall k | 0 <= k < i :: seals[..i + 1][k] == seals[..i][k] == seals[k];
  }

  /**
   Exactly the quorums of at most 255 signers are accepted; so from 383 validators on nothing
   is, since a quorum of them has 256 signers or more.
   */
  lemma QuorumCount(vals: seq<Bytes>, seals: seq<Bytes>, recover: Recovery)
    ensures var count := |Signers(vals, seals, recover)|;
            count % 256 > |vals| * 2 / 3 <==> |vals| * 2 / 3 < count < 256
  {
    PositionsAtMost(Signers(vals, seals, recover), |vals|);
  }

  /** The `uint8` makes a unanimous committee of 256 fail. */
  lemma UnanimousFails(vals: seq<Bytes>, seals: seq<Bytes>, recover: Recovery)
    requires |vals| == |seals| == 256
    requires forall i: nat | i < 256 :: SignedBy(seals, i, vals[i], recover)
    ensures |Signers(vals, seals, recover)| == 256
    ensures !(|Signers(vals, seals, recover)| % 256 > |vals| * 2 / 3)
  {
    AllPositions(Signers(vals, seals, recover), 256);
  }

  lemma {:induction false} AllPositions(s: set<nat>, n: nat)
    requires forall x: nat :: x in s <==> x < n
    ensures |s| == n
  {
    if n == 0 {
      assert s == {};
    } else {
      AllPositions(s - {n - 1}, n - 1);
    }
  }

  /** Two accepted sets of positions share more than any minority of faulty validators. */
  lemma QuorumsIntersect(n: nat, s: set<nat>, t: set<nat>)
    requires forall x | x in s + t :: x < n
    requires |s| > n * 2 / 3 && |t| > n * 2 / 3
    ensures |s * t| > (n - 1) / 3
  {
    PositionsAtMost(s + t, n);
    assert |s + t| == |s| + |t| - |s * t|;
  }

  /** Any two seal lists accepted for the same validators share an honest majority's worth of signers. */
  lemma AcceptedHeadersIntersect(vals: seq<Bytes>, seals: seq<Bytes>, recover: Recovery, seals': seq<Bytes>, recover': Recovery)
    requires |Signers(vals, seals, recover)| % 256 > |vals| * 2 / 3
    requires |Signers(vals, seals', recover')| % 256 > |vals| * 2 / 3
    ensures |Signers(vals, seals, recover) * Signers(vals, seals', recover')| > (|vals| - 1) / 3
  {
    QuorumCount(vals, seals, recover);
    QuorumCount(vals, seals', recover');
    QuorumsIntersect(|vals|, Signers(vals, seals, recover), Signers(vals, seals', recover'));
  }

  /** Positions 0, 1, ..., n - 1. */
  ghost function Positions(n: nat): (s: set<nat>)
    ensures |s| == n && forall x :: x in s <==> 0 <= x < n
  {
    if n == 0 then {} else Positions(n - 1) + {n - 1}
  }

  /**
   One third of the trusted validators is sure to hold an honest one, whichever floor((n - 1) / 3)
   are faulty, exactly if 3 divides their number.
   */
  lemma TrustThresholdHonest(n: nat)
    requires n > 0
    ensures (forall signed: set<nat>, faulty: set<nat> ::
               |signed| >= n / 3 && |faulty| <= (n - 1) / 3 ==> !(signed <= faulty))
       <==> n % 3 == 0
  {
    if n % 3 == 0 {
      forall signed: set<nat>, faulty: set<nat> | |signed| >= n / 3 && |faulty| <= (n - 1) / 3
        ensures !(signed <= faulty)
      {
        if signed <= faulty {
          SubsetAtMost(signed, faulty);
        }
      }
    } else {
      var s := Positions(n / 3);
      assert s <= s;
    }
  }

  lemma SubsetAtMost(s: set<nat>, t: set<nat>)
    requires s <= t
    ensures |s| <= |t|
  {
    assert t == s + (t - s);
  }

  // ----- The collector -----

  /** Recovery that reports failure; where it succeeds on one of the seals it agrees with the contract's. */
  type PartialRecovery = Bytes -> Option<Address>

  ghost predicate Agrees(go: PartialRecovery, recover: Recovery, seals: seq<Bytes>) {
    && go([]) == None
    && forall s | s in seals && go(s).Some? :: recover(s) == go(s).value
  }

  /** `RecoverCommitterAddressesVals`: the last seal of each signer, or an error. */
  method RecoverCommitters(seals: seq<Bytes>, go: PartialRecovery) returns (r: Result<map<Address, Bytes>>)
    ensures r.Ok? <==> forall s | s in seals :: go(s).Some?
    ensures r.Ok? ==> forall a | a in r.value :: r.value[a] in seals && go(r.value[a]) == Some(a)
    ensures r.Ok? ==> forall s | s in seals :: go(s).value in r.value
  {
    var vals: map<Address, Bytes> := map[];
    for i := 0 to |seals|
      invariant forall s | s in seals[..i] :: go(s).Some? && go(s).value in vals
      invariant forall a | a in vals :: vals[a] in seals && go(vals[a]) == Some(a)
    {
      assert seals[..i + 1] == seals[..i] + [seals[i]];
      match go(seals[i])
      case None => return Revert;
      case Some(addr) => vals := vals[addr := seals[i]];
    }
    assert seals[..|seals|] == seals;
    return Ok(vals);
  }

  /** One seal per validator that recovers to it, and an empty one where there is none. */
  ghost predicate Collected(validators: seq<Address>, seals: seq<Bytes>, go: PartialRecovery, newSeals: seq<Bytes>) {
    && |newSeals| == |validators|
    && forall i | 0 <= i < |validators| ::
         if i in Represented(validators, seals, go)
         then newSeals[i] in seals && go(newSeals[i]) == Some(validators[i])
         else newSeals[i] == []
  }

  /** `ValidateAndGetCommitSeals`: collects the seals, and checks that they are more than two thirds. */
  method GetCommitSeals(validators: seq<Address>, seals: seq<Bytes>, go: PartialRecovery) returns (r: Result<seq<Bytes>>)
    ensures r.Ok? <==> && (forall s | s in seals :: go(s).Some?)
                       && |Represented(validators, seals, go)| > |validators| * 2 / 3
    ensures r.Ok? ==> Collected(validators, seals, go, r.value)
  {
    hide Represented, Collected;
    var recovered := RecoverCommitters(seals, go);
    if recovered.Revert? {
      return Revert;
    }
    var vals := recovered.value;
    var newSeals: seq<Bytes> := [];
    var count := 0;
    ghost var counted: set<nat> := {};
    for k := 0 to |validators|
      invariant |newSeals| == k && count == |counted|
      invariant forall i :: i in counted <==> 0 <= i < k && validators[i] in vals
      invariant forall i | 0 <= i < k :: newSeals[i] == if validators[i] in vals then vals[validators[i]] else []
    {
      if validators[k] in vals {
        count := count + 1;
        counted := counted + {k};
        newSeals := newSeals + [vals[validators[k]]];
      } else {
        newSeals := newSeals + [[]];
      }
    }
    RepresentedIs(validators, seals, go, vals, counted, newSeals);
    if count > |validators| * 2 / 3 {
      return Ok(newSeals);
    }
    return Revert;
  }

  lemma RepresentedIs(validators: seq<Address>, seals: seq<Bytes>, go: PartialRecovery, vals: map<Address, Bytes>,
                      counted: set<nat>, newSeals: seq<Bytes>)
    requires forall s | s in seals :: go(s).Some? && go(s).value in vals
    requires forall a | a in vals :: vals[a] in seals && go(vals[a]) == Some(a)
    requires forall i :: i in counted <==> 0 <= i < |validators| && validators[i] in vals
    requires |newSeals| == |validators|
    requires forall i | 0 <= i < |validators| :: newSeals[i] == if validators[i] in vals then vals[validators[i]] else []
    ensures counted == Represented(validators, seals, go)
    ensures Collected(validators, seals, go, newSeals)
  {
    forall i | 0 <= i < |validators|
      ensures validators[i] in vals <==> exists s :: s in seals && go(s) == Some(validators[i])
    {
      if validators[i] in vals {
        assert vals[validators[i]] in seals;
      }
    }
  }

  /** The validators one of the seals recovers to. */
  ghost function Represented(validators: seq<Address>, seals: seq<Bytes>, go: PartialRecovery): (s: set<nat>)
    ensures forall i :: i in s <==> 0 <= i < |validators| && exists s :: s in seals && go(s) == Some(validators[i])
  {
    set i | 0 <= i < |validators| && exists s :: s in seals && go(s) == Some(validators[i])
  }

  /**
   The collector and the contract agree: whatever the collector returns, the contract finds
   signed exactly the positions the collector counted, gives back the header's validators,
   and accepts exactly if at most 255 positions are signed.
   */
  lemma CollectorAgrees(validators: seq<Address>, seals: seq<Bytes>, go: PartialRecovery, recover: Recovery,
                        newSeals: seq<Bytes>, mem: Bytes, items: seq<RLPItem>)
    requires Agrees(go, recover, seals)
    requires Collected(validators, seals, go, newSeals) && |Represented(validators, seals, go)| > |validators| * 2 / 3
    requires |items| == |validators| && forall i | 0 <= i < |items| :: ToBytes(mem, items[i]) == Ok(validators[i])
    ensures SealsFit(mem, items, newSeals)
    ensures forall i | 0 <= i < |items| :: Listed(mem, items, newSeals)[i] == Ok(validators[i])
    ensures Signers(validators, newSeals, recover) == Represented(validators, seals, go)
    ensures |Signers(validators, newSeals, recover)| % 256 > |items| * 2 / 3
       <==> |Represented(validators, seals, go)| <= 255
  {
    hide ToBytes;
    forall i | 0 <= i < |validators|
      ensures i in Signers(validators, newSeals, recover) <==> i in Represented(validators, seals, go)
    {
      assert SignedBy(newSeals, i, validators[i], recover) <==> newSeals[i] != [] && recover(newSeals[i]) == validators[i];
    }
    assert Signers(validators, newSeals, recover) == Represented(validators, seals, go);
    QuorumCount(validators, newSeals, recover);
  }
}
