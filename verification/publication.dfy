/**
 Immutable publication of artifacts and generation directories. The filesystem is a map
 of directories; linking and renaming are atomic and refuse an existing destination.
 */
module Publication {

  datatype Name = Name(text: string)

  datatype Place = Place(text: string)

  datatype Node = Regular(bytes: seq<bv8>) | Special | Subdirectory

  datatype Item = Directory(entries: map<Name, Node>) | NotDirectory

  datatype Loc = Loc(place: Place, name: Name)

  /** Opaque digests of file contents. */
  datatype Digest = Digest(bytes: seq<bv8>)

  type Fs = map<Place, Item>

  const METADATA := Name("slab_meta.json")
  const COMPLETE := Name(".slab_complete")

  predicate Hint(n: Name) {
    n == METADATA || n == COMPLETE
  }

  predicate Binary(n: Name) {
    |n.text| >= 4 && n.text[|n.text| - 4..] == ".bin"
  }

  /** Binaries are exactly the names made of any stem and the suffix, and never a hint. */
  lemma BinaryHasSuffix(n: Name)
    ensures Binary(n) <==> exists stem :: n.text == stem + ".bin"
    ensures Binary(n) ==> n.text != "slab_meta.json" && n.text != ".slab_complete"
  {
    if Binary(n) {
      assert n.text == n.text[..|n.text| - 4] + ".bin";
      HintsAreNotBinary(n);
    }
  }

  predicate Has(fs: Fs, l: Loc) {
    l.place in fs && fs[l.place].Directory? && l.name in fs[l.place].entries
  }

  function At(fs: Fs, l: Loc): Node
    requires Has(fs, l)
  {
    fs[l.place].entries[l.name]
  }

  function Put(fs: Fs, l: Loc, n: Node): Fs
    requires l.place in fs && fs[l.place].Directory?
  {
    fs[l.place := Directory(fs[l.place].entries[l.name := n])]
  }

  function Cut(fs: Fs, l: Loc): Fs
    requires l.place in fs && fs[l.place].Directory?
  {
    fs[l.place := Directory(fs[l.place].entries - {l.name})]
  }

  /** How two files are compared: both regular, of one size and one digest. */
  ghost predicate SameFile(digest: seq<bv8> -> Digest, a: Node, b: Node) {
    a.Regular? && b.Regular? && |a.bytes| == |b.bytes| && digest(a.bytes) == digest(b.bytes)
  }

  /** Two different files that the comparison takes for one. */
  ghost predicate Clash(digest: seq<bv8> -> Digest, a: Node, b: Node) {
    SameFile(digest, a, b) && a != b
  }

  ghost predicate NoClash(digest: seq<bv8> -> Digest, a: map<Name, Node>, b: map<Name, Node>) {
    forall n :: n in a && n in b ==> !Clash(digest, a[n], b[n])
  }

  ghost predicate SameAt(digest: seq<bv8> -> Digest, a: map<Name, Node>, b: map<Name, Node>, n: Name) {
    Hint(n) || (Binary(n) && n in a && n in b && SameFile(digest, a[n], b[n]))
  }

  /** Every entry on either side but the two hints is a binary artifact present and equal on both. */
  ghost predicate Matching(digest: seq<bv8> -> Digest, stage: map<Name, Node>, final: map<Name, Node>) {
    forall n :: n in stage || n in final ==> SameAt(digest, stage, final, n)
  }

  /** The binary artifacts of a directory with their contents. */
  ghost function Binaries(entries: map<Name, Node>): map<Name, seq<bv8>> {
    map n | n in entries && Binary(n) && entries[n].Regular? :: entries[n].bytes
  }

  datatype Outcome = Published | Refused

  /** What publishing one artifact does. */
  ghost function ArtifactResult(digest: seq<bv8> -> Digest, fs: Fs, src: Loc, dst: Loc): (Outcome, Fs) {
    if src == dst || !Has(fs, src) || !At(fs, src).Regular? then (Refused, fs)
    else if Has(fs, dst) then
      if SameFile(digest, At(fs, src), At(fs, dst)) then (Published, Cut(fs, src)) else (Refused, fs)
    else if dst.place in fs && fs[dst.place].Directory? then (Published, Cut(Put(fs, dst, At(fs, src)), src))
    else (Refused, fs)
  }

  /** What publishing a generation does while its publisher holds the lock of the destination. */
  ghost function GenerationResult(digest: seq<bv8> -> Digest, fs: Fs, stage: Place, final: Place): (Outcome, Fs) {
    if final !in fs then
      if stage in fs then (Published, (fs - {stage})[final := fs[stage]]) else (Refused, fs)
    else if !fs[final].Directory? || stage !in fs || !fs[stage].Directory? then (Refused, fs)
    else if Matching(digest, fs[stage].entries, fs[final].entries) then (Published, fs - {stage})
    else (Refused, fs)
  }

  class Publisher {
    var fs: Fs
    const digest: seq<bv8> -> Digest

    constructor (fs: Fs, digest: seq<bv8> -> Digest)
      ensures this.fs == fs && this.digest == digest
    {
      this.fs, this.digest := fs, digest;
    }

    method SameArtifactFiles(a: Loc, b: Loc) returns (found: bool, same: bool)
      ensures same ==> found
      ensures found && same <==> Has(fs, a) && Has(fs, b) && SameFile(digest, At(fs, a), At(fs, b))
      ensures !found <==> !Has(fs, a) || (At(fs, a).Regular? && !Has(fs, b))
    {
      if !Has(fs, a) {
        return false, false;
      }
      if !At(fs, a).Regular? {
        return true, false;
      }
      if !Has(fs, b) {
        return false, false;
      }
      if !At(fs, b).Regular? || |At(fs, b).bytes| != |At(fs, a).bytes| {
        return true, false;
      }
      return true, digest(At(fs, a).bytes) == digest(At(fs, b).bytes);
    }

    /** Links the source to the destination unless something is there, and then removes the source. */
    method PublishImmutableArtifact(src: Loc, dst: Loc) returns (outcome: Outcome)
      modifies this`fs
      ensures (outcome, fs) == ArtifactResult(digest, old(fs), src, dst)
    {
      if src == dst || !Has(fs, src) || !At(fs, src).Regular? {
        return Refused;
      }
      if Has(fs, dst) {
        var found, same := SameArtifactFiles(src, dst);
        if !found || !same {
          return Refused;
        }
      } else if dst.place in fs && fs[dst.place].Directory? {
        fs := Put(fs, dst, At(fs, src));
      } else {
        return Refused;
      }
      fs := Cut(fs, src);
      return Published;
    }

    /** Checks the entries of one side against both directories. */
    method CompareEntries(side: map<Name, Node>, stage: Place, final: Place) returns (same: bool)
      requires stage in fs && fs[stage].Directory? && final in fs && fs[final].Directory?
      ensures same <==> forall n :: n in side ==> SideSame(side, n, stage, final)
    {
      var todo := side.Keys;
      while todo != {}
        invariant todo <= side.Keys
        invariant forall n :: n in side.Keys - todo ==> SideSame(side, n, stage, final)
        decreases todo
      {
        var n :| n in todo;
        if !Hint(n) {
          if side[n] == Subdirectory || !Binary(n) {
            assert !SideSame(side, n, stage, final);
            return false;
          }
          var found, equal := SameArtifactFiles(Loc(stage, n), Loc(final, n));
          if !found || !equal {
            assert !SideSame(side, n, stage, final);
            return false;
          }
        }
        todo := todo - {n};
      }
      return true;
    }

    ghost predicate SideSame(side: map<Name, Node>, n: Name, stage: Place, final: Place)
      requires n in side
      reads this`fs
    {
      || Hint(n)
      || (side[n] != Subdirectory && Binary(n) && Has(fs, Loc(stage, n)) && Has(fs, Loc(final, n))
          && SameFile(digest, At(fs, Loc(stage, n)), At(fs, Loc(final, n))))
    }

    method PublishImmutableGeneration(stage: Place, final: Place) returns (outcome: Outcome)
      modifies this`fs
      ensures (outcome, fs) == GenerationResult(digest, old(fs), stage, final)
    {
      if final !in fs {
        if stage !in fs {
          return Refused;
        }
        fs := (fs - {stage})[final := fs[stage]];
        return Published;
      }
      if !fs[final].Directory? || stage !in fs || !fs[stage].Directory? {
        return Refused;
      }
      var same := CompareEntries(fs[stage].entries, stage, final);
      if same {
        same := CompareEntries(fs[final].entries, stage, final);
      }
      SidesMatch(stage, final, same);
      if !same {
        return Refused;
      }
      fs := fs - {stage};
      return Published;
    }

    lemma SidesMatch(stage: Place, final: Place, same: bool)
      requires stage in fs && fs[stage].Directory? && final in fs && fs[final].Directory?
      requires same <==>
                 && (forall n :: n in fs[stage].entries ==> SideSame(fs[stage].entries, n, stage, final))
                 && (forall n :: n in fs[final].entries ==> SideSame(fs[final].entries, n, stage, final))
      ensures same <==> Matching(digest, fs[stage].entries, fs[final].entries)
    {
      var a, b := fs[stage].entries, fs[final].entries;
      forall n | n in a || n in b
        ensures n in a ==> (SideSame(a, n, stage, final) <==> SameAt(digest, a, b, n))
        ensures n in b ==> (SideSame(b, n, stage, final) <==> SameAt(digest, a, b, n))
      {
      }
    }
  }

  // One publication.

  lemma MatchingBinaries(digest: seq<bv8> -> Digest, a: map<Name, Node>, b: map<Name, Node>)
    requires NoClash(digest, a, b) && Matching(digest, a, b)
    ensures Binaries(a) == Binaries(b)
  {
    forall n | n in Binaries(a) || n in Binaries(b)
      ensures n in Binaries(a) && n in Binaries(b) && Binaries(a)[n] == Binaries(b)[n]
    {
      assert SameAt(digest, a, b, n);
      HintsAreNotBinary(n);
    }
  }

  lemma HintsAreNotBinary(n: Name)
    ensures !(Hint(n) && Binary(n))
  {
    assert METADATA.text[|METADATA.text| - 4..][0] == 'j';
    assert ".bin"[0] == '.';
    assert COMPLETE.text[|COMPLETE.text| - 4..][0] == 'l';
  }

  /**
   A generation published while nobody else writes holds exactly the binaries that were
   staged, unless two files of one name clash; a destination already there is not touched.
   */
  lemma GenerationPublished(digest: seq<bv8> -> Digest, fs: Fs, stage: Place, final: Place)
    requires stage != final && GenerationResult(digest, fs, stage, final).0 == Published
    requires stage in fs && final in fs && fs[stage].Directory? && fs[final].Directory? ==> NoClash(digest, fs[stage].entries, fs[final].entries)
    ensures var next := GenerationResult(digest, fs, stage, final).1;
            && stage in fs && stage !in next && final in next
            && (fs[stage].Directory? ==> next[final].Directory? && Binaries(next[final].entries) == Binaries(fs[stage].entries))
            && (final in fs ==> next[final] == fs[final])
            && (forall p :: p != stage && p != final ==> (p in next <==> p in fs) && (p in fs ==> next[p] == fs[p]))
  {
    if final in fs {
      MatchingBinaries(digest, fs[stage].entries, fs[final].entries);
    }
  }

  /**
   Exactly when a publication nobody interleaves with succeeds: the stage is there, and the
   destination is absent, or both are directories in which every entry of either is a hint
   or a binary that is a regular file of one size and digest on both sides. A new destination
   is what was staged, and a refusal changes nothing.
   */
  lemma GenerationOutcome(digest: seq<bv8> -> Digest, fs: Fs, stage: Place, final: Place)
    ensures var r := GenerationResult(digest, fs, stage, final);
            && (r.0 == Published <==>
                  && stage in fs
                  && (final !in fs ||
                      (fs[stage].Directory? && fs[final].Directory? && forall n :: n in fs[stage].entries || n in fs[final].entries ==>
                         Hint(n) || (Binary(n) && EqualFiles(digest, fs[stage].entries, fs[final].entries, n)))))
            && (r.0 == Published && final !in fs ==> final in r.1 && r.1[final] == fs[stage] && stage !in r.1)
            && (r.0 == Published && final in fs ==> r.1 == fs - {stage})
            && (r.0 == Refused ==> r.1 == fs)
  {
    hide Binary, Hint;
    if final in fs && stage in fs && fs[stage].Directory? && fs[final].Directory? {
      var a, b := fs[stage].entries, fs[final].entries;
      forall n | n in a || n in b
        ensures SameAt(digest, a, b, n) <==> Hint(n) || (Binary(n) && EqualFiles(digest, a, b, n))
      {
      }
    }
  }

  ghost predicate EqualFiles(digest: seq<bv8> -> Digest, a: map<Name, Node>, b: map<Name, Node>, n: Name) {
    && n in a && n in b && a[n].Regular? && b[n].Regular?
    && |a[n].bytes| == |b[n].bytes| && digest(a[n].bytes) == digest(b[n].bytes)
  }

  /** Publishing a complete directory onto itself reports success and deletes it. */
  lemma SelfPublicationDeletes(digest: seq<bv8> -> Digest, fs: Fs, p: Place)
    requires p in fs
    ensures GenerationResult(digest, fs, p, p).0 == Published <==>
              fs[p].Directory? && forall n :: n in fs[p].entries ==> Hint(n) || (Binary(n) && fs[p].entries[n].Regular?)
    ensures GenerationResult(digest, fs, p, p).0 == Published ==> GenerationResult(digest, fs, p, p).1 == fs - {p}
  {
    if fs[p].Directory? {
      var a := fs[p].entries;
      assert forall n :: n in a ==> (SameAt(digest, a, a, n) <==> Hint(n) || (Binary(n) && a[n].Regular?));
    }
  }

  /** After a publication, another stage is accepted as a duplicate exactly when it matches; otherwise nothing changes. */
  lemma DuplicateOrConflict(digest: seq<bv8> -> Digest, fs: Fs, stage: Place, again: Place, final: Place)
    requires GenerationResult(digest, fs, stage, final).0 == Published && final !in {stage, again} && stage in fs && fs[stage].Directory?
    requires again in fs && again != stage && fs[again].Directory?
    ensures var next := GenerationResult(digest, fs, stage, final).1;
            var second := GenerationResult(digest, next, again, final);
            if Matching(digest, fs[again].entries, next[final].entries) then second == (Published, next - {again})
            else second == (Refused, next)
  {
  }

  /** An artifact is published with the source's bytes, or the destination already had them; a conflict changes nothing. */
  lemma ArtifactPublished(digest: seq<bv8> -> Digest, fs: Fs, src: Loc, dst: Loc)
    requires Has(fs, src) && Has(fs, dst) ==> !Clash(digest, At(fs, src), At(fs, dst))
    ensures var r := ArtifactResult(digest, fs, src, dst);
            && (r.0 == Refused ==> r.1 == fs)
            && (r.0 == Published ==>
                  && Has(fs, src) && !Has(r.1, src) && Has(r.1, dst) && At(r.1, dst) == At(fs, src)
                  && (forall l :: l != src && l != dst ==> (Has(r.1, l) <==> Has(fs, l)) && (Has(fs, l) ==> At(r.1, l) == At(fs, l))))
            && (r.0 == Published <==>
                  && src != dst && Has(fs, src) && At(fs, src).Regular?
                  && if Has(fs, dst) then At(fs, dst) == At(fs, src) else dst.place in fs && fs[dst.place].Directory?)
  {
  }
}
