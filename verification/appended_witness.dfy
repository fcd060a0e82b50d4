/**
 Append and the witness reader meet: whatever was appended, the reader finds each user
 MDU's own commitments at its current index.
 */
module AppendedWitness {
  import opened Wrappers
  import opened Codec
  import DecodedReader
  import WitnessReader
  import opened Append

  lemma AppendedIsPacked(kit: Kit, g: Generation, users: seq<Stripe>, u: nat)
    requires Represents(kit, g, users) && u * CAPACITY < |Stream(users)|
    ensures DecodedReader.PackedMdu(g.mdus, 1, WitnessReader.Stream(|Stream(users)|), Stream(users), u)
  {
    hide Encoded, ShardsHold, RootsHold, WitnessRootsHold, Append.Stream, Shaped, Witnesses, Span;
    var w := Witnesses(kit, |users|);
    StreamLength(kit, users);
    EnoughWitnesses(kit, |users|);
    Within(u, w, |Stream(users)|);
    assert WitnessAt(g.mdus, Stream(users), u);
  }

  lemma Within(u: nat, w: nat, n: nat)
    requires u * CAPACITY < n <= w * CAPACITY
    ensures u < w
  {
  }

  lemma AllPacked(kit: Kit, g: Generation, users: seq<Stripe>)
    requires Represents(kit, g, users)
    ensures var data := Stream(users);
            forall i: nat :: i * CAPACITY < |data| ==> DecodedReader.PackedMdu(g.mdus, 1, WitnessReader.Stream(|data|), data, i)
  {
    hide Represents, Append.Stream, DecodedReader.PackedMdu;
    var data := Stream(users);
    forall i: nat | i * CAPACITY < |data|
      ensures DecodedReader.PackedMdu(g.mdus, 1, WitnessReader.Stream(|data|), data, i)
    {
      AppendedIsPacked(kit, g, users, i);
    }
  }

  /** Reads the commitments of user MDU `u` of a generation that represents `users`. */
  method ReadAppended(kit: Kit, g: Generation, users: seq<Stripe>, u: nat) returns (r: Result<Bytes>)
    requires Represents(kit, g, users) && u < |users| && 0 < kit.commitments <= WitnessReader.MAX_LEAVES
    ensures r == Ok(users[u].flat)
  {
    hide Represents, Encoded, Append.Stream, DecodedReader.PackedMdu, WitnessReader.CleanFrom, DecodedReader.Delivers, Witnesses, Shaped, SpanAt;
    var metadata := 1 + Witnesses(kit, |users|);
    ghost var data := Stream(users);
    Represented(kit, g, users);
    StreamLength(kit, users);
    Fits(kit, |users|);
    r := WitnessReader.ReadFrozenWitnessCommitments(g.mdus, metadata, |users|, metadata + u, kit.commitments);
    AllPacked(kit, g, users);
    WitnessReader.PackedWitness(g.mdus, |users|, u, Span(kit), data, if r.Ok? then r.value else []);
    StreamAt(kit, users, u);
    SpanIs(kit, data, u);
  }

  lemma Fits(kit: Kit, n: nat)
    requires n > 0 && kit.commitments > 0
    ensures Witnesses(kit, n) > 0 && n * (kit.commitments * WitnessReader.COMMITMENT) <= Witnesses(kit, n) * CAPACITY
  {
    EnoughWitnesses(kit, n);
    assert n * Span(kit) > 0;
  }

  lemma SpanIs(kit: Kit, stream: Bytes, u: nat)
    requires u * Span(kit) + Span(kit) <= |stream|
    ensures SpanAt(kit, stream, u) == stream[u * Span(kit)..u * Span(kit) + Span(kit)]
  {
  }
}
