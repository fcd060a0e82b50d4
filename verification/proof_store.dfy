/**
 The durable proof bucket: one pending-signer marker per account and the frozen proof
 records, changed only inside all-or-nothing transactions.
 */
module ProofStore {
  import opened Wrappers

  /**
   What a marker is for. `Retrieval` and `Legacy` are written under one name; a session is
   either frozen or legacy, so they never name the same operation.
   */
  datatype Kind = Retrieval | Legacy | Audit | GenerationV3 | RetrievalV3

  datatype Id = Id(text: string)

  datatype Signer = Signer(address: string)

  /** A normalized transaction hash. */
  datatype Hash = Hash(digits: string)

  datatype Op = Op(kind: Kind, ids: seq<Id>)

  datatype Marker = Marker(op: Op, hash: Option<Hash>)

  /** `statement` stands for the frozen context, seed and proofs, which no submission changes. */
  datatype Record = Record(statement: string, submitting: bool, hash: Option<Hash>)

  datatype Db = Db(markers: map<Signer, Marker>, records: map<Id, Record>)

  const MAX_MARKERS := 4
  const MAX_IDS := 64
  const MAX_ID_BYTES := 128

  ghost predicate DistinctIds(ids: seq<Id>) {
    forall i, j :: 0 <= i < j < |ids| ==> ids[i] != ids[j]
  }

  function IdSet(ids: seq<Id>): set<Id> {
    set i | 0 <= i < |ids| :: ids[i]
  }

  ghost predicate ValidOp(op: Op) {
    && 1 <= |op.ids| <= MAX_IDS
    && (forall i :: 0 <= i < |op.ids| ==> 1 <= |op.ids[i].text| <= MAX_ID_BYTES)
    && DistinctIds(op.ids)
  }

  /** Claiming records an intent or a hash; it never replaces another operation or a recorded hash. */
  ghost function ClaimMarker(markers: map<Signer, Marker>, s: Signer, m: Marker): Option<map<Signer, Marker>> {
    if !ValidOp(m.op) then None
    else if s in markers then
      if markers[s].op == m.op && (markers[s].hash == None || markers[s].hash == m.hash) then Some(markers[s := m]) else None
    else if |markers| >= MAX_MARKERS then None
    else Some(markers[s := m])
  }

  function ClearMarker(markers: map<Signer, Marker>, s: Signer, op: Op): Option<map<Signer, Marker>> {
    if s !in markers then Some(markers)
    else if markers[s].op == op then Some(markers - {s})
    else None
  }

  datatype MarkerChange =
    | Untouched
    | Claim(s: Signer, m: Marker)
    | Clear(s: Signer, op: Op)
    | ClearHashed(s: Signer, op: Op, h: Hash)

  ghost function ChangeMarker(markers: map<Signer, Marker>, c: MarkerChange): Option<map<Signer, Marker>> {
    match c
    case Untouched => Some(markers)
    case Claim(s, m) => ClaimMarker(markers, s, m)
    case Clear(s, op) => ClearMarker(markers, s, op)
    case ClearHashed(s, op, h) =>
      if s in markers && markers[s].hash != Some(h) then None else ClearMarker(markers, s, op)
  }

  datatype Update = Keep | Submit | RecordHash(h: Hash) | Withdraw | Reset

  function Updated(u: Update, r: Record): Record {
    match u
    case Keep => r
    case Submit => r.(submitting := true)
    case RecordHash(h) => r.(hash := Some(h))
    case Withdraw => r.(submitting := false)
    case Reset => r.(submitting := false, hash := None)
  }

  /** What an update leaves of a record: its statement always, its broadcast state as the update says. */
  predicate Follows(u: Update, before: Record, after: Record) {
    && after.statement == before.statement
    && after.submitting == (u.Submit? || (!u.Withdraw? && !u.Reset? && before.submitting))
    && after.hash == (if u.RecordHash? then Some(u.h) else if u.Reset? then None else before.hash)
  }

  function UpdateAll(records: map<Id, Record>, ids: set<Id>, u: Update): map<Id, Record> {
    map id | id in records :: if id in ids then Updated(u, records[id]) else records[id]
  }

  function Rewritten(records: map<Id, Record>, ids: set<Id>, u: Update, remove: bool): map<Id, Record> {
    if remove then records - ids else UpdateAll(records, ids, u)
  }

  /** A record as some request loaded it. */
  datatype Entry = Entry(id: Id, raw: Record)

  function EntryIds(entries: seq<Entry>): seq<Id> {
    seq(|entries|, i requires 0 <= i < |entries| => entries[i].id)
  }

  ghost predicate Current(db: Db, entries: seq<Entry>) {
    forall i :: 0 <= i < |entries| ==> entries[i].id in db.records && db.records[entries[i].id] == entries[i].raw
  }

  /** The whole transaction: nothing unless every loaded record is still current and the marker change is allowed. */
  ghost function Change(db: Db, entries: seq<Entry>, u: Update, remove: bool, c: MarkerChange): Option<Db> {
    if !Current(db, entries) then None
    else
      var ids := IdSet(EntryIds(entries));
      match ChangeMarker(db.markers, c)
      case None => None
      case Some(m) => Some(Db(m, Rewritten(db.records, ids, u, remove)))
  }

  const MAX_RECORDS := 8192

  /**
   Storing a freshly generated proof: a record already there must hold the same statement
   and stays as it is, broadcast evidence included; a new one needs room.
   */
  function Store(db: Db, id: Id, statement: string): Option<Db> {
    if id in db.records then if db.records[id].statement == statement then Some(db) else None
    else if |db.records| >= MAX_RECORDS then None
    else Some(db.(records := db.records[id := Record(statement, false, None)]))
  }

  class Bucket {
    var markers: map<Signer, Marker>
    var records: map<Id, Record>

    ghost function Value(): Db
      reads this
    {
      Db(markers, records)
    }

    constructor ()
      ensures Value() == Db(map[], map[])
    {
      markers, records := map[], map[];
    }

    static method CheckOp(op: Op) returns (ok: bool)
      ensures ok <==> ValidOp(op)
    {
      if |op.ids| == 0 || |op.ids| > MAX_IDS {
        return false;
      }
      var seen: set<Id> := {};
      for i := 0 to |op.ids|
        invariant forall k :: 0 <= k < i ==> op.ids[k] in seen && 1 <= |op.ids[k].text| <= MAX_ID_BYTES
        invariant forall x :: x in seen ==> exists k :: 0 <= k < i && op.ids[k] == x
        invariant forall j, k :: 0 <= j < k < i ==> op.ids[j] != op.ids[k]
      {
        var id := op.ids[i];
        if id.text == "" || |id.text| > MAX_ID_BYTES || id in seen {
          return false;
        }
        seen := seen + {id};
      }
      return true;
    }

    method ClaimPendingSigner(s: Signer, m: Marker) returns (ok: bool)
      modifies this`markers
      ensures ok <==> ClaimMarker(old(markers), s, m).Some?
      ensures markers == if ok then ClaimMarker(old(markers), s, m).value else old(markers)
    {
      var valid := CheckOp(m.op);
      if !valid {
        return false;
      }
      if s in markers {
        var previous := markers[s];
        if previous.op.kind != m.op.kind || previous.op.ids != m.op.ids || (previous.hash != None && previous.hash != m.hash) {
          return false;
        }
      } else if |markers| >= MAX_MARKERS {
        return false;
      }
      markers := markers[s := m];
      return true;
    }

    method ClearPendingSigner(s: Signer, op: Op) returns (ok: bool)
      modifies this`markers
      ensures ok <==> ClearMarker(old(markers), s, op).Some?
      ensures markers == if ok then ClearMarker(old(markers), s, op).value else old(markers)
    {
      if s !in markers {
        return true;
      }
      if markers[s].op.kind != op.kind || markers[s].op.ids != op.ids {
        return false;
      }
      markers := markers - {s};
      return true;
    }

    method ApplyMarkerChange(c: MarkerChange) returns (ok: bool)
      modifies this`markers
      ensures ok <==> ChangeMarker(old(markers), c).Some?
      ensures markers == if ok then ChangeMarker(old(markers), c).value else old(markers)
    {
      match c {
        case Untouched =>
          ok := true;
        case Claim(s, m) =>
          ok := ClaimPendingSigner(s, m);
        case Clear(s, op) =>
          ok := ClearPendingSigner(s, op);
        case ClearHashed(s, op, h) =>
          if s in markers && markers[s].hash != Some(h) {
            return false;
          }
          ok := ClearPendingSigner(s, op);
      }
    }

    method StoreFrozenSessionProof(id: Id, statement: string) returns (ok: bool)
      modifies this`records
      ensures ok <==> Store(old(Value()), id, statement).Some?
      ensures Value() == if ok then Store(old(Value()), id, statement).value else old(Value())
    {
      if id in records {
        var existing := records[id].(submitting := false, hash := None);
        return existing == Record(statement, false, None);
      }
      var todo := records.Keys;
      var count := 0;
      while todo != {}
        invariant todo <= records.Keys && count == |records.Keys| - |todo| && count < MAX_RECORDS
        decreases todo
      {
        var k :| k in todo;
        count := count + 1;
        if count >= MAX_RECORDS {
          assert |records| == |records.Keys|;
          return false;
        }
        todo := todo - {k};
      }
      assert |records| == |records.Keys|;
      records := records[id := Record(statement, false, None)];
      ok := true;
    }

    /** One update transaction over distinct loaded records; an error rolls every record back. */
    method ChangeFrozenSubmissions(entries: seq<Entry>, u: Update, remove: bool, c: MarkerChange) returns (ok: bool)
      requires DistinctIds(EntryIds(entries))
      modifies this
      ensures ok <==> Change(old(Value()), entries, u, remove, c).Some?
      ensures Value() == if ok then Change(old(Value()), entries, u, remove, c).value else old(Value())
      ensures ok && remove ==> records == old(records) - IdSet(EntryIds(entries))
      ensures ok && !remove ==> records.Keys == old(records).Keys && forall id :: id in records ==>
                if id in IdSet(EntryIds(entries)) then Follows(u, old(records)[id], records[id]) else records[id] == old(records)[id]
    {
      hide IdSet, UpdateAll, Updated, Rewritten, ChangeMarker;
      var next := records;
      StartRewrite(records, EntryIds(entries), u, remove);
      ghost var ids := EntryIds(entries);
      for i := 0 to |entries|
        invariant Value() == old(Value())
        invariant next == Rewritten(records, IdSet(ids[..i]), u, remove)
        invariant forall k :: 0 <= k < i ==> entries[k].id in records && records[entries[k].id] == entries[k].raw
      {
        RewriteOne(records, ids, i, u, remove);
        var id := entries[i].id;
        assert id == ids[i];
        if id !in next || next[id] != entries[i].raw {
          assert !Current(old(Value()), entries);
          return false;
        }
        next := if remove then next - {id} else next[id := Updated(u, entries[i].raw)];
      }
      assert ids[..|entries|] == ids && Current(old(Value()), entries);
      ok := ApplyMarkerChange(c);
      if ok {
        RewrittenFollows(records, IdSet(ids), u, remove);
        records := next;
      }
    }
  }

  lemma RewrittenFollows(records: map<Id, Record>, ids: set<Id>, u: Update, remove: bool)
    ensures remove ==> Rewritten(records, ids, u, remove) == records - ids
    ensures var next := Rewritten(records, ids, u, remove);
            !remove ==> next.Keys == records.Keys && forall id :: id in next ==>
              if id in ids then Follows(u, records[id], next[id]) else next[id] == records[id]
  {
  }

  lemma StartRewrite(records: map<Id, Record>, ids: seq<Id>, u: Update, remove: bool)
    ensures Rewritten(records, IdSet(ids[..0]), u, remove) == records
  {
  }

  lemma RewriteOne(records: map<Id, Record>, ids: seq<Id>, i: nat, u: Update, remove: bool)
    requires i < |ids| && DistinctIds(ids)
    ensures ids[i] !in IdSet(ids[..i]) && IdSet(ids[..i + 1]) == IdSet(ids[..i]) + {ids[i]}
    ensures var before, after := Rewritten(records, IdSet(ids[..i]), u, remove), Rewritten(records, IdSet(ids[..i + 1]), u, remove);
            && (ids[i] in before <==> ids[i] in records)
            && (ids[i] in records ==> before[ids[i]] == records[ids[i]])
            && (ids[i] in records ==>
                  after == if remove then before - {ids[i]} else before[ids[i] := Updated(u, records[ids[i]])])
  {
    assert forall k :: 0 <= k < i ==> ids[..i + 1][k] == ids[..i][k];
    assert ids[..i + 1][i] == ids[i];
  }

  /** A proof is stored if and only if there is room for it or the same one is there; a new one is not submitted yet. */
  lemma StoreGranted(db: Db, id: Id, statement: string)
    ensures Store(db, id, statement).Some? <==>
              if id in db.records then db.records[id].statement == statement else |db.records| < 8192
    ensures Store(db, id, statement).Some? ==>
              var next := Store(db, id, statement).value;
              && next.markers == db.markers && next.records.Keys == db.records.Keys + {id}
              && next.records[id].statement == statement
              && (id !in db.records ==> !next.records[id].submitting && next.records[id].hash == None)
  {
  }

  /** A stored proof can be stored again without effect, and never loses its hash or its statement to another one. */
  lemma StoreIsIdempotent(db: Db, id: Id, statement: string, other: string)
    requires Store(db, id, statement).Some?
    ensures var next := Store(db, id, statement).value;
            && Store(next, id, statement) == Some(next)
            && (other != statement ==> Store(next, id, other) == None)
            && (id in db.records ==> next == db)
            && (forall x :: x in db.records ==> x in next.records && next.records[x] == db.records[x])
            && (|db.records| <= MAX_RECORDS ==> |next.records| <= MAX_RECORDS)
  {
  }
}
