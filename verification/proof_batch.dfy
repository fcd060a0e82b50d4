/** Proving a provider's samples of a v3 session in batches of at most 64. */
module ProofBatch {
  import opened Wrappers
  import opened Basics

  datatype Challenge = Challenge(slot: nat, ordinal: nat)

  datatype Share = Share(slot: nat, provider: Account)

  /** `accepted` is the accepted-sample bitmap; `closed` holds the settled and refunded slots. */
  datatype Session = Session(shares: seq<Share>, closed: set<nat>, challenges: seq<Challenge>, accepted: set<nat>)

  const MAX_BATCH := 64

  /** The ordinals of a slot that are not accepted yet, in order. */
  function Pending(challenges: seq<Challenge>, accepted: set<nat>, slot: nat): seq<nat> {
    if challenges == [] then []
    else
      var c, init := challenges[|challenges| - 1], Pending(challenges[..|challenges| - 1], accepted, slot);
      if c.slot == slot && c.ordinal !in accepted then init + [c.ordinal] else init
  }

  function First(s: seq<nat>, limit: nat): seq<nat> {
    if |s| <= limit then s else s[..limit]
  }

  method SelectPending(challenges: seq<Challenge>, accepted: set<nat>, slot: nat, limit: nat) returns (selected: seq<nat>, remaining: nat)
    ensures selected == First(Pending(challenges, accepted, slot), limit)
    ensures remaining == |Pending(challenges, accepted, slot)| - |selected|
  {
    selected := [];
    var found := 0;
    for i := 0 to |challenges|
      invariant found == |Pending(challenges[..i], accepted, slot)|
      invariant selected == First(Pending(challenges[..i], accepted, slot), limit)
    {
      assert challenges[..i + 1][..i] == challenges[..i];
      var c := challenges[i];
      if c.slot == slot && c.ordinal !in accepted {
        found := found + 1;
        if |selected| < limit {
          selected := selected + [c.ordinal];
        }
      }
    }
    assert challenges[..|challenges|] == challenges;
    remaining := found - |selected|;
  }

  /** The one slot a signer provides. */
  ghost predicate Provides(s: Session, signer: Account, slot: nat) {
    exists i :: 0 <= i < |s.shares| && s.shares[i] == Share(slot, signer) && forall j :: 0 <= j < |s.shares| && s.shares[j].provider == signer ==> j == i
  }

  method FindSlot(s: Session, signer: Account) returns (r: Option<nat>)
    ensures r.Some? ==> Provides(s, signer, r.value)
    ensures r.None? ==> forall slot :: !Provides(s, signer, slot)
  {
    var at: Option<nat> := None;
    for i := 0 to |s.shares|
      invariant at.None? ==> forall j :: 0 <= j < i ==> s.shares[j].provider != signer
      invariant at.Some? ==> at.value < i && s.shares[at.value].provider == signer
      invariant at.Some? ==> forall j :: 0 <= j < i && s.shares[j].provider == signer ==> j == at.value
    {
      if s.shares[i].provider == signer {
        if at.Some? {
          return None;
        }
        at := Some(i);
      }
    }
    if at.None? {
      return None;
    }
    assert s.shares[at.value] == Share(s.shares[at.value].slot, signer);
    return Some(s.shares[at.value].slot);
  }

  /** The next batch of a provider, and how many samples stay for later batches. */
  method ProviderChallenges(s: Session, signer: Account, limit: nat) returns (r: Option<(nat, seq<nat>, nat)>)
    ensures r.Some? <==> 1 <= limit <= MAX_BATCH && exists slot :: Provides(s, signer, slot)
    ensures r.Some? ==>
              var (slot, selected, remaining) := r.value;
              && Provides(s, signer, slot)
              && (slot in s.closed ==> selected == [] && remaining == 0)
              && (slot !in s.closed ==>
                    && selected == First(Pending(s.challenges, s.accepted, slot), limit)
                    && remaining == |Pending(s.challenges, s.accepted, slot)| - |selected|)
  {
    hide Provides;
    if limit < 1 || limit > MAX_BATCH {
      return None;
    }
    var slot := FindSlot(s, signer);
    if slot.None? {
      return None;
    }
    if slot.value in s.closed {
      return Some((slot.value, [], 0));
    }
    var selected, remaining := SelectPending(s.challenges, s.accepted, slot.value, limit);
    return Some((slot.value, selected, remaining));
  }

  // Rounds of batches.

  ghost predicate DistinctOrdinals(challenges: seq<Challenge>) {
    forall i, j :: 0 <= i < j < |challenges| ==> challenges[i].ordinal != challenges[j].ordinal
  }

  lemma {:induction false} PendingFacts(challenges: seq<Challenge>, accepted: set<nat>, slot: nat)
    ensures forall x :: x in Pending(challenges, accepted, slot) <==> x !in accepted && Challenge(slot, x) in challenges
    ensures DistinctOrdinals(challenges) ==> Distinct(Pending(challenges, accepted, slot))
    decreases |challenges|
  {
    if challenges != [] {
      var n := |challenges| - 1;
      var init, c := challenges[..n], challenges[n];
      PendingFacts(init, accepted, slot);
      assert challenges == init + [c];
      assert DistinctOrdinals(challenges) ==> forall i :: 0 <= i < n ==> challenges[i].ordinal != c.ordinal;
      assert DistinctOrdinals(challenges) ==> DistinctOrdinals(init);
      assert DistinctOrdinals(challenges) ==> Challenge(slot, c.ordinal) !in init;
    }
  }

  function Ordinals(s: seq<nat>): set<nat> {
    set x | x in s
  }

  /** Accepting more samples removes exactly those from what is pending, and keeps the order. */
  function Without(s: seq<nat>, gone: set<nat>): seq<nat> {
    if s == [] then []
    else
      var x, init := s[|s| - 1], Without(s[..|s| - 1], gone);
      if x in gone then init else init + [x]
  }

  lemma {:induction false} PendingShrinks(challenges: seq<Challenge>, accepted: set<nat>, gone: set<nat>, slot: nat)
    ensures Pending(challenges, accepted + gone, slot) == Without(Pending(challenges, accepted, slot), gone)
    decreases |challenges|
  {
    if challenges != [] {
      var n := |challenges| - 1;
      PendingShrinks(challenges[..n], accepted, gone, slot);
      var c, init := challenges[n], Pending(challenges[..n], accepted, slot);
      if c.slot == slot && c.ordinal !in accepted {
        assert (init + [c.ordinal])[..|init|] == init;
      }
    }
  }

  lemma {:induction false} WithoutPrefix(s: seq<nat>, k: nat)
    requires Distinct(s) && k <= |s|
    ensures Without(s, Ordinals(s[..k])) == s[k..]
    decreases |s|
  {
    if s != [] {
      var n := |s| - 1;
      var init := s[..n];
      assert Distinct(init);
      if k <= n {
        assert init[..k] == s[..k] && s[k..] == init[k..] + [s[n]];
        WithoutPrefix(init, k);
      } else {
        WithoutAll(s, Ordinals(s));
        assert s[..k] == s;
      }
    }
  }

  lemma {:induction false} WithoutAll(s: seq<nat>, gone: set<nat>)
    requires Ordinals(s) <= gone
    ensures Without(s, gone) == []
    decreases |s|
  {
    if s != [] {
      assert s[|s| - 1] in Ordinals(s);
      assert Ordinals(s[..|s| - 1]) <= Ordinals(s);
      WithoutAll(s[..|s| - 1], gone);
    }
  }

  /** One accepted batch leaves exactly the rest pending. */
  lemma BatchAccepted(challenges: seq<Challenge>, accepted: set<nat>, slot: nat, limit: nat)
    requires DistinctOrdinals(challenges)
    ensures var pending := Pending(challenges, accepted, slot);
            Pending(challenges, accepted + Ordinals(First(pending, limit)), slot) == pending[|First(pending, limit)|..]
  {
    var pending := Pending(challenges, accepted, slot);
    PendingFacts(challenges, accepted, slot);
    PendingShrinks(challenges, accepted, Ordinals(First(pending, limit)), slot);
    WithoutPrefix(pending, |First(pending, limit)|);
    assert First(pending, limit) == pending[..|First(pending, limit)|];
  }

  function Rounds(n: nat, limit: nat): nat
    requires limit > 0
  {
    (n + limit - 1) / limit
  }

  /** How many of `n` are proved after some full rounds. */
  function Progress(rounds: nat, n: nat): nat {
    if rounds * MAX_BATCH <= n then rounds * MAX_BATCH else n
  }

  lemma OneRound(rounds: nat, n: nat)
    requires Progress(rounds, n) < n && rounds <= Rounds(n, MAX_BATCH)
    ensures Progress(rounds + 1, n) == Progress(rounds, n) + (if n - Progress(rounds, n) <= MAX_BATCH then n - Progress(rounds, n) else MAX_BATCH)
    ensures rounds + 1 <= Rounds(n, MAX_BATCH)
  {
  }

  lemma LastRound(rounds: nat, n: nat)
    requires Progress(rounds, n) == n && rounds <= Rounds(n, MAX_BATCH)
    ensures rounds == Rounds(n, MAX_BATCH)
  {
  }

  /** What is proved and accepted after one more batch. */
  lemma NextBatch(challenges: seq<Challenge>, accepted: set<nat>, slot: nat, all: seq<nat>, proved: seq<nat>)
    requires DistinctOrdinals(challenges) && |proved| <= |all| && proved == all[..|proved|]
    requires Pending(challenges, accepted + Ordinals(proved), slot) == all[|proved|..]
    ensures var batch := First(all[|proved|..], MAX_BATCH);
            && |batch| == (if |all| - |proved| <= MAX_BATCH then |all| - |proved| else MAX_BATCH)
            && proved + batch == all[..|proved| + |batch|]
            && accepted + Ordinals(proved) + Ordinals(batch) == accepted + Ordinals(proved + batch)
            && Pending(challenges, accepted + Ordinals(proved + batch), slot) == all[|proved + batch|..]
  {
    hide Pending, DistinctOrdinals;
    var rest := all[|proved|..];
    var batch := First(rest, MAX_BATCH);
    BatchAccepted(challenges, accepted + Ordinals(proved), slot, MAX_BATCH);
    assert batch == rest[..|batch|];
    assert proved + batch == all[..|proved| + |batch|];
    assert Ordinals(proved + batch) == Ordinals(proved) + Ordinals(batch);
    assert accepted + Ordinals(proved) + Ordinals(batch) == accepted + Ordinals(proved + batch);
    assert rest[|batch|..] == all[|proved + batch|..];
  }

  /**
   Batches until nothing is pending: each pending ordinal is proved once, in order, the
   reported remainder is what later batches prove, and no round is wasted.
   */
  method ProveAll(challenges: seq<Challenge>, accepted: set<nat>, slot: nat) returns (proved: seq<nat>, rounds: nat)
    requires DistinctOrdinals(challenges)
    ensures proved == Pending(challenges, accepted, slot) && Distinct(proved)
    ensures rounds == Rounds(|proved|, MAX_BATCH)
    ensures Pending(challenges, accepted + Ordinals(proved), slot) == []
  {
    hide Pending, First, Rounds, Progress, DistinctOrdinals, Ordinals;
    ghost var all := Pending(challenges, accepted, slot);
    PendingFacts(challenges, accepted, slot);
    proved, rounds := [], 0;
    var now := accepted;
    Unproved(accepted, |all|);
    while true
      invariant |proved| == Progress(rounds, |all|) <= |all| && proved == all[..|proved|] && now == accepted + Ordinals(proved)
      invariant Pending(challenges, now, slot) == all[|proved|..]
      invariant rounds <= Rounds(|all|, MAX_BATCH)
      decreases |all| - |proved|
    {
      var batch, remaining := SelectPending(challenges, now, slot, MAX_BATCH);
      NextBatch(challenges, accepted, slot, all, proved);
      if batch == [] {
        break;
      }
      OneRound(rounds, |all|);
      proved, now, rounds := proved + batch, now + Ordinals(batch), rounds + 1;
    }
    LastRound(rounds, |all|);
  }

  lemma Unproved(accepted: set<nat>, n: nat)
    ensures accepted == accepted + Ordinals([]) && Progress(0, n) == 0
  {
    assert Ordinals([]) == {};
  }

  /** Pending ordinals come in the order of the challenge list. */
  lemma {:induction false} PendingInOrder(challenges: seq<Challenge>, accepted: set<nat>, slot: nat, i: nat, j: nat) returns (p: nat, q: nat)
    requires i < j < |Pending(challenges, accepted, slot)|
    ensures p < q < |challenges|
    ensures challenges[p] == Challenge(slot, Pending(challenges, accepted, slot)[i])
    ensures challenges[q] == Challenge(slot, Pending(challenges, accepted, slot)[j])
    decreases |challenges|
  {
    var n := |challenges| - 1;
    var init := Pending(challenges[..n], accepted, slot);
    if j < |init| {
      p, q := PendingInOrder(challenges[..n], accepted, slot, i, j);
    } else {
      q := n;
      p := PendingAt(challenges[..n], accepted, slot, i);
    }
  }

  lemma {:induction false} PendingAt(challenges: seq<Challenge>, accepted: set<nat>, slot: nat, i: nat) returns (p: nat)
    requires i < |Pending(challenges, accepted, slot)|
    ensures p < |challenges| && challenges[p] == Challenge(slot, Pending(challenges, accepted, slot)[i])
    decreases |challenges|
  {
    var n := |challenges| - 1;
    if i < |Pending(challenges[..n], accepted, slot)| {
      p := PendingAt(challenges[..n], accepted, slot, i);
    } else {
      p := n;
    }
  }
}
