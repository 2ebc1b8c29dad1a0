/**
  The hash-chained audit ledger and its external seals. The hash and the signature are arbitrary functions:
  where a theorem needs the hash to be good, the exception is a collision among the very rows it speaks of.
 */
module AuditLedger {
  import opened Wrappers

  const ZERO_HASH: string := "0000000000000000000000000000000000000000000000000000000000000000"

  /** What is hashed. */
  datatype Event = Event(
    id: string, ts: real, actor: string, action: string, mission: Option<string>, payload: string, prev: string)

  datatype Row = Row(seqNo: nat, event: Event, hash: string)

  type HashFn = Event -> string

  /** The hash a row must link to. */
  function PrevHash(rows: seq<Row>, k: nat): string
    requires k <= |rows|
  {
    if k == 0 then ZERO_HASH else rows[k - 1].hash
  }

  predicate Linked(hash: HashFn, rows: seq<Row>, k: nat)
    requires k < |rows|
  {
    rows[k].event.prev == PrevHash(rows, k) && hash(rows[k].event) == rows[k].hash
  }

  ghost predicate Verified(hash: HashFn, rows: seq<Row>) {
    forall k :: 0 <= k < |rows| ==> Linked(hash, rows, k)
  }

  function Head(rows: seq<Row>): string {
    PrevHash(rows, |rows|)
  }

  function Events(rows: seq<Row>): (es: seq<Event>)
    ensures |es| == |rows|
  {
    seq(|rows|, i requires 0 <= i < |rows| => rows[i].event)
  }

  /** Two rows, one of each chain, record different events under one hash. */
  ghost predicate Collide(hash: HashFn, a: seq<Row>, b: seq<Row>) {
    exists i, j :: 0 <= i < |a| && 0 <= j < |b| && a[i].event != b[j].event && hash(a[i].event) == hash(b[j].event)
  }

  /** Some row records an event whose hash is that of the empty ledger. */
  ghost predicate HitsZero(hash: HashFn, rows: seq<Row>) {
    exists i :: 0 <= i < |rows| && hash(rows[i].event) == ZERO_HASH
  }

  /** The hash is broken by what these two chains record. */
  ghost predicate Cheated(hash: HashFn, a: seq<Row>, b: seq<Row>) {
    Collide(hash, a, b) || HitsZero(hash, a) || HitsZero(hash, b)
  }

  /** Two chains that verify and end in the same hash record the same events, unless a row of each collide. */
  lemma {:induction false} SameHeadSameHistory(hash: HashFn, a: seq<Row>, b: seq<Row>)
    requires Verified(hash, a) && Verified(hash, b) && Head(a) == Head(b)
    ensures Events(a) == Events(b) || Cheated(hash, a, b)
  {
    var m, n := |a| - 1, |b| - 1;
    if a == [] || b == [] {
      if b != [] {
        assert Linked(hash, b, n);
      }
      if a != [] {
        assert Linked(hash, a, m);
      }
    } else {
      assert Linked(hash, a, m) && Linked(hash, b, n);
      if a[m].event == b[n].event {
        VerifiedFront(hash, a, m);
        VerifiedFront(hash, b, n);
        SameHeadSameHistory(hash, a[..m], b[..n]);
        CheatedFront(hash, a, m, b, n);
        assert Events(a) == Events(a[..m]) + [a[m].event] && Events(b) == Events(b[..n]) + [b[n].event];
      }
    }
  }

  lemma CheatedFront(hash: HashFn, a: seq<Row>, m: nat, b: seq<Row>, n: nat)
    requires m <= |a| && n <= |b|
    ensures Cheated(hash, a[..m], b[..n]) ==> Cheated(hash, a, b)
  {
    var x, y := a[..m], b[..n];
    if i, j :| 0 <= i < m && 0 <= j < n && x[i].event != y[j].event && hash(x[i].event) == hash(y[j].event) {
      assert a[i].event != b[j].event && hash(a[i].event) == hash(b[j].event);
    }
    if i :| 0 <= i < m && hash(a[..m][i].event) == ZERO_HASH {
      assert hash(a[i].event) == ZERO_HASH;
    }
    if j :| 0 <= j < n && hash(b[..n][j].event) == ZERO_HASH {
      assert hash(b[j].event) == ZERO_HASH;
    }
  }

  lemma VerifiedFront(hash: HashFn, rows: seq<Row>, k: nat)
    requires Verified(hash, rows) && k <= |rows|
    ensures Verified(hash, rows[..k]) && Head(rows[..k]) == PrevHash(rows, k)
  {
    forall i | 0 <= i < k ensures Linked(hash, rows[..k], i) {
      assert Linked(hash, rows, i);
    }
  }

  /** Appending a linked row keeps a ledger verified. */
  lemma AppendVerified(hash: HashFn, rows: seq<Row>, row: Row)
    requires Verified(hash, rows) && row.event.prev == Head(rows) && row.hash == hash(row.event)
    ensures Verified(hash, rows + [row])
  {
    var longer := rows + [row];
    forall k | 0 <= k < |longer| ensures Linked(hash, longer, k) {
      assert k < |rows| ==> Linked(hash, rows, k);
    }
  }

  /** Sequence numbers start above zero and go up. */
  ghost predicate Numbered(rows: seq<Row>, last: nat) {
    && (forall i, j :: 0 <= i < j < |rows| ==> rows[i].seqNo < rows[j].seqNo)
    && (forall i :: 0 <= i < |rows| ==> 0 < rows[i].seqNo <= last)
  }

  predicate Repeats(rows: seq<Row>, id: string, hash: string) {
    exists i :: 0 <= i < |rows| && (rows[i].event.id == id || rows[i].hash == hash)
  }

  class Ledger {
    const hash: HashFn
    var rows: seq<Row>
    var lastSeq: nat

    /** The ledger as only `Append` makes it. */
    ghost predicate Valid()
      reads this
    {
      Verified(hash, rows) && Numbered(rows, lastSeq)
    }

    constructor (hash: HashFn)
      ensures this.hash == hash && rows == [] && Valid()
    {
      this.hash, rows, lastSeq := hash, [], 0;
    }

    /** Adds an event linked to the last row; a repeated id or hash is refused and changes nothing. */
    method Append(id: string, ts: real, actor: string, action: string, mission: Option<string>, payload: string)
      returns (r: Option<string>)
      requires Valid()
      modifies this
      ensures Valid()
      ensures r.None? ==> rows == old(rows) && lastSeq == old(lastSeq)
      ensures r.Some? ==>
        && |rows| == |old(rows)| + 1 && old(rows) < rows && r.value == Head(rows)
        && rows[|old(rows)|].event == Event(id, ts, actor, action, mission, payload, Head(old(rows)))
      ensures r.None? <==>
        Repeats(old(rows), id, hash(Event(id, ts, actor, action, mission, payload, Head(old(rows)))))
    {
      var event := Event(id, ts, actor, action, mission, payload, Head(rows));
      var eventHash := hash(event);
      if Repeats(rows, id, eventHash) {
        return None;
      }
      AppendVerified(hash, rows, Row(lastSeq + 1, event, eventHash));
      rows, lastSeq := rows + [Row(lastSeq + 1, event, eventHash)], lastSeq + 1;
      return Some(eventHash);
    }
  }

  ghost predicate FirstBroken(hash: HashFn, rows: seq<Row>, k: nat)
    requires k < |rows|
  {
    !Linked(hash, rows, k) && forall j :: 0 <= j < k ==> Linked(hash, rows, j)
  }

  /** Walks any table of rows and gives the number of the first one that does not link; none when the chain holds. */
  method VerifyChain(hash: HashFn, rows: seq<Row>) returns (broken: Option<nat>)
    ensures broken.None? <==> Verified(hash, rows)
    ensures broken.Some? ==> exists k :: 0 <= k < |rows| && FirstBroken(hash, rows, k) && rows[k].seqNo == broken.value
  {
    var expectedPrev := ZERO_HASH;
    for i := 0 to |rows|
      invariant expectedPrev == PrevHash(rows, i)
      invariant forall j :: 0 <= j < i ==> Linked(hash, rows, j)
    {
      if rows[i].event.prev != expectedPrev {
        assert FirstBroken(hash, rows, i);
        return Some(rows[i].seqNo);
      }
      if hash(rows[i].event) != rows[i].hash {
        assert FirstBroken(hash, rows, i);
        return Some(rows[i].seqNo);
      }
      expectedPrev := rows[i].hash;
    }
    return None;
  }

  // ---------------------------------------------------------------------------------------------
  // Seals.

  datatype SealPayload = SealPayload(generation: int, seqNo: nat, head: string, ts: real)

  datatype Seal = Seal(payload: SealPayload, signature: string)

  datatype SealError = FileMissing | FileEmpty | BadSignature | Rollback | Diverges

  type SignFn = SealPayload -> string

  /** The checkpoint of a ledger: its last number and head. */
  function Checkpoint(rows: seq<Row>, generation: int, ts: real): SealPayload {
    SealPayload(generation, if rows == [] then 0 else rows[|rows| - 1].seqNo, Head(rows), ts)
  }

  /** The seal at an index is signed, starts a later generation than the one before and does not go back. */
  predicate SealOk(sign: SignFn, seals: seq<Seal>, i: nat)
    requires i < |seals|
  {
    var p := seals[i].payload;
    && sign(p) == seals[i].signature
    && (if i == 0 then 0 < p.generation
        else seals[i - 1].payload.generation < p.generation && seals[i - 1].payload.seqNo <= p.seqNo)
  }

  /** Seals in order, taken together: all signed, generations positive and strictly rising, numbers never falling. */
  lemma SealsRise(sign: SignFn, seals: seq<Seal>)
    ensures (forall i :: 0 <= i < |seals| ==> SealOk(sign, seals, i)) <==>
      && (forall i :: 0 <= i < |seals| ==>
            sign(seals[i].payload) == seals[i].signature && 0 < seals[i].payload.generation)
      && (forall i, j :: 0 <= i < j < |seals| ==>
            && seals[i].payload.generation < seals[j].payload.generation
            && seals[i].payload.seqNo <= seals[j].payload.seqNo)
  {
    if forall i :: 0 <= i < |seals| ==> SealOk(sign, seals, i) {
      forall i | 0 <= i < |seals|
        ensures sign(seals[i].payload) == seals[i].signature && 0 < seals[i].payload.generation
      {
        assert SealOk(sign, seals, 0) && SealOk(sign, seals, i);
        SealsRiseFrom(sign, seals, 0, i);
      }
      forall i, j | 0 <= i < j < |seals|
        ensures i < j ==> seals[i].payload.generation < seals[j].payload.generation
        ensures seals[i].payload.seqNo <= seals[j].payload.seqNo
      {
        SealsRiseFrom(sign, seals, i, j);
      }
    }
  }

  lemma {:induction false} SealsRiseFrom(sign: SignFn, seals: seq<Seal>, i: nat, j: nat)
    requires i <= j < |seals| && forall k :: 0 <= k < |seals| ==> SealOk(sign, seals, k)
    ensures seals[i].payload.generation + (j - i) <= seals[j].payload.generation
    ensures seals[i].payload.seqNo <= seals[j].payload.seqNo
  {
    assert SealOk(sign, seals, j);
    if i < j {
      SealsRiseFrom(sign, seals, i, j - 1);
    }
  }

  class AuditSealVault {
    const sign: SignFn
    var file: Option<seq<Seal>>

    constructor (sign: SignFn)
      ensures this.sign == sign && file == None
    {
      this.sign, file := sign, None;
    }

    method SealLedger(rows: seq<Row>, generation: int, ts: real) returns (record: Seal)
      modifies this
      ensures record.payload == Checkpoint(rows, generation, ts) && record.signature == sign(record.payload)
      ensures record.payload.generation == generation && record.payload.ts == ts
      ensures rows == [] ==> record.payload.seqNo == 0 && record.payload.head == ZERO_HASH
      ensures rows != [] ==>
        record.payload.seqNo == rows[|rows| - 1].seqNo && record.payload.head == rows[|rows| - 1].hash
      ensures file == Some((if old(file).Some? then old(file).value else []) + [record])
    {
      var payload := Checkpoint(rows, generation, ts);
      record := Seal(payload, sign(payload));
      file := Some((if file.Some? then file.value else []) + [record]);
    }

    /** Accepts the file exactly when every seal is in order. */
    method VerifyAll() returns (r: Result<seq<Seal>, SealError>)
      ensures r == Err(FileMissing) <==> file == None
      ensures file.Some? ==> (r.Ok? <==> forall i :: 0 <= i < |file.value| ==> SealOk(sign, file.value, i))
      ensures r.Ok? ==> file == Some(r.value)
      ensures r.Err? ==> r.error.FileMissing? || r.error.BadSignature? || r.error.Rollback?
    {
      if file == None {
        return Err(FileMissing);
      }
      var records: seq<Seal> := [];
      var lastGeneration: int, lastSeq: int := 0, -1;
      var seals := file.value;
      for i := 0 to |seals|
        invariant records == seals[..i] && forall j :: 0 <= j < i ==> SealOk(sign, seals, j)
        invariant if i == 0 then lastGeneration == 0 && lastSeq == -1
                  else lastGeneration == seals[i - 1].payload.generation && lastSeq == seals[i - 1].payload.seqNo
      {
        var item := seals[i];
        if sign(item.payload) != item.signature {
          assert !SealOk(sign, seals, i);
          return Err(BadSignature);
        }
        if item.payload.generation <= lastGeneration || item.payload.seqNo < lastSeq {
          assert !SealOk(sign, seals, i);
          return Err(Rollback);
        }
        lastGeneration, lastSeq := item.payload.generation, item.payload.seqNo;
        records := records + [item];
      }
      assert seals[..|seals|] == seals;
      return Ok(records);
    }

    /** There is a seal, and every seal is in order. */
    ghost predicate Sealed()
      reads this
    {
      file.Some? && file.value != [] && forall i :: 0 <= i < |file.value| ==> SealOk(sign, file.value, i)
    }

    function Latest(): SealPayload
      requires file.Some? && file.value != []
      reads this
    {
      file.value[|file.value| - 1].payload
    }

    /** Compares the latest seal with a table of rows. */
    method VerifyAgainstLedger(rows: seq<Row>) returns (r: Result<bool, SealError>)
      ensures r.Ok? && r.value <==> Sealed() && Confirms(rows, Latest())
      ensures r == Ok(false) <==> Sealed() && Latest().seqNo == 0 && !Confirms(rows, Latest())
      ensures r == Err(Diverges) <==> Sealed() && Latest().seqNo != 0 && !Confirms(rows, Latest())
      ensures r == Err(FileMissing) <==> file == None
      ensures r == Err(FileEmpty) <==> file == Some([])
    {
      var records := VerifyAll();
      if records.Err? {
        return Err(records.error);
      }
      if records.value == [] {
        return Err(FileEmpty);
      }
      var latest := records.value[|records.value| - 1].payload;
      if latest.seqNo == 0 {
        return Ok(rows == [] && latest.head == ZERO_HASH);
      }
      for i := 0 to |rows|
        invariant forall j :: 0 <= j < i ==> rows[j].seqNo != latest.seqNo
      {
        if rows[i].seqNo == latest.seqNo {
          if rows[i].hash != latest.head {
            return Err(Diverges);
          }
          return Ok(true);
        }
      }
      return Err(Diverges);
    }
  }

  /** The sealed number's first row has the sealed head; a seal of nothing wants nothing. */
  ghost predicate Confirms(rows: seq<Row>, seal: SealPayload) {
    if seal.seqNo == 0 then rows == [] && seal.head == ZERO_HASH
    else exists i ::
      && 0 <= i < |rows| && rows[i].seqNo == seal.seqNo && rows[i].hash == seal.head
      && forall j :: 0 <= j < i ==> rows[j].seqNo != seal.seqNo
  }

  /** Where numbers do not repeat, as the table's key demands, a row with the sealed number and head is enough. */
  lemma ConfirmsIffMatches(rows: seq<Row>, seal: SealPayload, last: nat)
    requires Numbered(rows, last)
    ensures Confirms(rows, seal) <==> Matches(rows, seal)
  {
  }

  /** A table agrees with a seal: the sealed row is there with the sealed head; a seal of nothing wants nothing. */
  ghost predicate Matches(rows: seq<Row>, seal: SealPayload) {
    if seal.seqNo == 0 then rows == [] && seal.head == ZERO_HASH
    else exists i :: 0 <= i < |rows| && rows[i].seqNo == seal.seqNo && rows[i].hash == seal.head
  }

  /**
    A verified ledger that matches a seal starts with exactly the history that was sealed, unless one of its rows
    collides with that.
   */
  lemma SealPinsHistory(hash: HashFn, past: seq<Row>, generation: int, ts: real, rows: seq<Row>)
    requires Verified(hash, past) && Verified(hash, rows) && Matches(rows, Checkpoint(past, generation, ts))
    ensures Events(past) <= Events(rows) || Cheated(hash, past, rows)
  {
    var seal := Checkpoint(past, generation, ts);
    if seal.seqNo != 0 {
      var i :| 0 <= i < |rows| && rows[i].seqNo == seal.seqNo && rows[i].hash == seal.head;
      VerifiedFront(hash, rows, i + 1);
      SameHeadSameHistory(hash, past, rows[..i + 1]);
      CheatedFront(hash, past, |past|, rows, i + 1);
      assert past[..|past|] == past;
      assert Events(rows[..i + 1]) == Events(rows)[..i + 1];
    } else {
      SameHeadSameHistory(hash, past, rows);
    }
  }

  /**
    A ledger that only grew since a seal matches it, except that a seal of the empty ledger fails once anything is
    recorded.
   */
  lemma HonestLedgerMatches(past: seq<Row>, generation: int, ts: real, rows: seq<Row>, last: nat)
    requires past <= rows && Numbered(rows, last)
    ensures Matches(rows, Checkpoint(past, generation, ts)) <==> past != [] || rows == []
    ensures Confirms(rows, Checkpoint(past, generation, ts)) <==> past != [] || rows == []
  {
    ConfirmsIffMatches(rows, Checkpoint(past, generation, ts), last);
    if past != [] {
      var i := |past| - 1;
      assert rows[i] == past[i];
    }
  }
}
