/**
 The journal IDs of a v3 proof batch: the session ID in hexadecimal, a colon, and the
 ordinal of the sample in decimal. Printing and parsing are inverse to each other.
 */
module ProofIds {
  import opened Wrappers
  import opened Basics

  const SESSION_DIGITS := 64
  const MAX_SAMPLES := 132
  const UINT64: nat := 0x1_0000_0000_0000_0000

  // Decimal numbers.

  function DigitChar(d: nat): char
    requires d < 10
  {
    "0123456789"[d]
  }

  predicate IsDigit(c: char) {
    '0' <= c <= '9'
  }

  function DigitValue(c: char): (d: nat)
    requires IsDigit(c)
    ensures d < 10
  {
    c as int - '0' as int
  }

  lemma DigitRoundTrip(d: nat)
    requires d < 10
    ensures IsDigit(DigitChar(d)) && DigitValue(DigitChar(d)) == d
  {
  }

  /** Canonical decimal digits. */
  function Digits(n: nat): (s: string)
    ensures s != []
  {
    if n < 10 then [DigitChar(n)] else Digits(n / 10) + [DigitChar(n % 10)]
  }

  predicate AllDigits(s: string) {
    forall i :: 0 <= i < |s| ==> IsDigit(s[i])
  }

  function Value(s: string): nat
    requires AllDigits(s)
  {
    if s == [] then 0 else 10 * Value(s[..|s| - 1]) + DigitValue(s[|s| - 1])
  }

  lemma {:induction false} DigitsRoundTrip(n: nat)
    ensures AllDigits(Digits(n)) && Value(Digits(n)) == n
  {
    if n < 10 {
      DigitRoundTrip(n);
      assert Digits(n)[..0] == [];
    } else {
      DigitsRoundTrip(n / 10);
      DigitRoundTrip(n % 10);
      assert Digits(n)[..|Digits(n)| - 1] == Digits(n / 10);
    }
  }

  /** Reads an unsigned 64-bit decimal; leading zeros are allowed. */
  method ParseUint(s: string) returns (r: Option<nat>)
    ensures r.Some? <==> s != [] && AllDigits(s) && Value(s) < UINT64
    ensures r.Some? ==> r.value == Value(s)
  {
    if s == [] {
      return None;
    }
    var n := 0;
    for i := 0 to |s|
      invariant AllDigits(s[..i]) && n == Value(s[..i])
    {
      if !IsDigit(s[i]) {
        return None;
      }
      assert s[..i + 1][..i] == s[..i];
      n := 10 * n + DigitValue(s[i]);
    }
    assert s[..|s|] == s;
    if n >= UINT64 {
      return None;
    }
    return Some(n);
  }

  // Operation IDs.

  predicate IsHexDigit(c: char) {
    '0' <= c <= '9' || 'a' <= c <= 'f'
  }

  predicate IsSession(prefix: string) {
    |prefix| == SESSION_DIGITS && forall i :: 0 <= i < |prefix| ==> IsHexDigit(prefix[i])
  }

  ghost predicate Canonical(session: string, ordinals: seq<nat>) {
    IsSession(session) && ordinals != [] && Distinct(ordinals) && forall i :: 0 <= i < |ordinals| ==> ordinals[i] < MAX_SAMPLES
  }

  function IdOf(session: string, ordinal: nat): string {
    session + ":" + Digits(ordinal)
  }

  function Printed(session: string, ordinals: seq<nat>): seq<string> {
    seq(|ordinals|, i requires 0 <= i < |ordinals| => IdOf(session, ordinals[i]))
  }

  method PrintIds(session: string, ordinals: seq<nat>) returns (ids: seq<string>)
    ensures ids == Printed(session, ordinals)
  {
    ids := [];
    for i := 0 to |ordinals|
      invariant |ids| == i && forall j :: 0 <= j < i ==> ids[j] == IdOf(session, ordinals[j])
    {
      ids := ids + [session + ":" + Digits(ordinals[i])];
    }
  }

  /** The position of the first colon, or the length. */
  function Colon(s: string): (k: nat)
    ensures k <= |s| && (k < |s| ==> s[k] == ':') && forall i :: 0 <= i < k ==> s[i] != ':'
  {
    if s == [] then 0 else if s[0] == ':' then 0 else 1 + Colon(s[1..])
  }

  lemma ColonAt(before: string, after: string)
    requires forall i :: 0 <= i < |before| ==> before[i] != ':'
    ensures Colon(before + ":" + after) == |before|
  {
    var s := before + ":" + after;
    assert s[|before|] == ':';
    assert forall i :: 0 <= i < |before| ==> s[i] == before[i];
  }

  method Cut(s: string) returns (ok: bool, before: string, after: string)
    ensures ok <==> Colon(s) < |s|
    ensures ok ==> before == s[..Colon(s)] && after == s[Colon(s) + 1..]
  {
    for i := 0 to |s|
      invariant forall j :: 0 <= j < i ==> s[j] != ':'
    {
      if s[i] == ':' {
        return true, s[..i], s[i + 1..];
      }
    }
    return false, s, "";
  }

  lemma SessionHasNoColon(session: string)
    requires IsSession(session)
    ensures forall i :: 0 <= i < |session| ==> session[i] != ':'
  {
    assert forall i :: 0 <= i < |session| ==> IsHexDigit(session[i]);
  }

  lemma IdParts(session: string, ordinal: nat)
    requires IsSession(session)
    ensures var id := IdOf(session, ordinal);
            Colon(id) == |session| < |id| && id[..|session|] == session && id[|session| + 1..] == Digits(ordinal)
  {
    SessionHasNoColon(session);
    ColonAt(session, Digits(ordinal));
  }

  /** One ID of a session: exactly the canonical ones are read. */
  method ParseId(session: string, id: string) returns (r: Option<nat>)
    requires IsSession(session)
    ensures r.Some? ==> r.value < MAX_SAMPLES && id == IdOf(session, r.value)
    ensures r.None? ==> forall n :: 0 <= n < MAX_SAMPLES ==> id != IdOf(session, n)
  {
    forall n | 0 <= n < MAX_SAMPLES && id == IdOf(session, n)
      ensures Colon(id) < |id| && id[..Colon(id)] == session && id[Colon(id) + 1..] == Digits(n)
    {
      IdParts(session, n);
    }
    var ok, prefix, raw := Cut(id);
    if !ok || prefix != session {
      return None;
    }
    forall n | 0 <= n < MAX_SAMPLES && raw == Digits(n)
      ensures AllDigits(raw) && Value(raw) == n
    {
      DigitsRoundTrip(n);
    }
    var ordinal := ParseUint(raw);
    if ordinal.None? || Digits(ordinal.value) != raw || ordinal.value >= MAX_SAMPLES {
      return None;
    }
    assert id == id[..Colon(id)] + ":" + id[Colon(id) + 1..];
    return ordinal;
  }

  /** Reads back a recorded operation: it succeeds exactly on what printing makes of a canonical batch. */
  method ParseIds(ids: seq<string>) returns (r: Option<(string, seq<nat>)>)
    ensures r.Some? ==> Canonical(r.value.0, r.value.1) && ids == Printed(r.value.0, r.value.1)
    ensures r.None? ==> forall session, ordinals :: Canonical(session, ordinals) ==> ids != Printed(session, ordinals)
  {
    hide IdOf;
    forall session, ordinals | Canonical(session, ordinals) && ids == Printed(session, ordinals)
      ensures ids != [] && Colon(ids[0]) < |ids[0]| && ids[0][..Colon(ids[0])] == session
    {
      IdParts(session, ordinals[0]);
      assert ids[0] == IdOf(session, ordinals[0]);
    }
    if ids == [] {
      return None;
    }
    var ok, session, _ := Cut(ids[0]);
    if !ok || !IsSession(session) {
      return None;
    }
    r := ParseOrdinals(session, ids);
  }

  method ParseOrdinals(session: string, ids: seq<string>) returns (r: Option<(string, seq<nat>)>)
    requires IsSession(session) && ids != []
    ensures r.Some? ==> r.value.0 == session && Canonical(session, r.value.1) && ids == Printed(session, r.value.1)
    ensures r.None? ==> forall ordinals :: Canonical(session, ordinals) ==> ids != Printed(session, ordinals)
  {
    hide IdOf, IsSession;
    var ordinals: seq<nat> := [];
    var seen: set<nat> := {};
    for i := 0 to |ids|
      invariant |ordinals| == i && seen == set x | x in ordinals
      invariant Distinct(ordinals)
      invariant forall j :: 0 <= j < i ==> ordinals[j] < MAX_SAMPLES && ids[j] == IdOf(session, ordinals[j])
    {
      var ordinal := ParseId(session, ids[i]);
      if ordinal.None? {
        BadId(session, ids, i);
        return None;
      }
      if ordinal.value in seen {
        DuplicateId(session, ids, ordinals, ordinal.value, i);
        return None;
      }
      seen := seen + {ordinal.value};
      ordinals := ordinals + [ordinal.value];
    }
    return Some((session, ordinals));
  }

  lemma BadId(session: string, ids: seq<string>, i: nat)
    requires i < |ids| && forall n :: 0 <= n < MAX_SAMPLES ==> ids[i] != IdOf(session, n)
    ensures forall ordinals :: Canonical(session, ordinals) ==> ids != Printed(session, ordinals)
  {
    hide IdOf;
    forall ordinals | Canonical(session, ordinals)
      ensures ids != Printed(session, ordinals)
    {
      if |ordinals| == |ids| {
        assert Printed(session, ordinals)[i] == IdOf(session, ordinals[i]);
      }
    }
  }

  lemma SameOrdinal(session: string, a: nat, b: nat)
    requires IsSession(session) && IdOf(session, a) == IdOf(session, b)
    ensures a == b
  {
    IdParts(session, a);
    IdParts(session, b);
    DigitsRoundTrip(a);
    DigitsRoundTrip(b);
  }

  lemma DuplicateId(session: string, ids: seq<string>, found: seq<nat>, again: nat, i: nat)
    requires IsSession(session) && |found| == i < |ids| && again in found && ids[i] == IdOf(session, again)
    requires forall j :: 0 <= j < i ==> ids[j] == IdOf(session, found[j])
    ensures forall ordinals :: Canonical(session, ordinals) ==> ids != Printed(session, ordinals)
  {
    hide IdOf, IsSession;
    var j :| 0 <= j < i && found[j] == again;
    forall ordinals | Canonical(session, ordinals)
      ensures ids != Printed(session, ordinals)
    {
      if ids == Printed(session, ordinals) {
        assert IdOf(session, ordinals[i]) == IdOf(session, ordinals[j]);
        SameOrdinal(session, ordinals[i], ordinals[j]);
      }
    }
  }

  /** A hashless operation counts as accepted only if it names this session and every sample of it is accepted. */
  method PendingProofsAccepted(ids: seq<string>, session: string, samples: nat, accepted: set<nat>) returns (ok: bool)
    ensures ok <==> exists ordinals :: Canonical(session, ordinals) && ids == Printed(session, ordinals) && AllAccepted(ordinals, samples, accepted)
  {
    hide Printed;
    var parsed := ParseIds(ids);
    if parsed.None? || parsed.value.0 != session {
      if parsed.Some? {
        OneSession(parsed.value.0, session, parsed.value.1);
      }
      return false;
    }
    ok := true;
    for i := 0 to |parsed.value.1|
      invariant ok <==> forall j :: 0 <= j < i ==> parsed.value.1[j] < samples && parsed.value.1[j] in accepted
    {
      if parsed.value.1[i] >= samples || parsed.value.1[i] !in accepted {
        ok := false;
      }
    }
    OneReading(session, parsed.value.1);
  }

  ghost predicate AllAccepted(ordinals: seq<nat>, samples: nat, accepted: set<nat>) {
    forall j :: 0 <= j < |ordinals| ==> ordinals[j] < samples && ordinals[j] in accepted
  }

  lemma OneReading(session: string, ordinals: seq<nat>)
    requires IsSession(session)
    ensures forall other :: Printed(session, other) == Printed(session, ordinals) ==> other == ordinals
  {
    forall other | Printed(session, other) == Printed(session, ordinals)
      ensures other == ordinals
    {
      assert |other| == |ordinals|;
      forall i | 0 <= i < |other|
        ensures other[i] == ordinals[i]
      {
        assert Printed(session, other)[i] == Printed(session, ordinals)[i];
        SameOrdinal(session, other[i], ordinals[i]);
      }
    }
  }

  lemma OneSession(a: string, b: string, ordinals: seq<nat>)
    requires a != b && Canonical(a, ordinals)
    ensures forall other :: Canonical(b, other) ==> Printed(b, other) != Printed(a, ordinals)
  {
    forall other | Canonical(b, other)
      ensures Printed(b, other) != Printed(a, ordinals)
    {
      IdParts(a, ordinals[0]);
      IdParts(b, other[0]);
      assert Printed(b, other)[0] == IdOf(b, other[0]) && Printed(a, ordinals)[0] == IdOf(a, ordinals[0]);
    }
  }
}
