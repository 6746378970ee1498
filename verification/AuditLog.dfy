/** The hash-chained, append-only audit log. The digest and the JSON codec are parameters: nothing about them is
    assumed except where a lemma asks for it. */
module AuditLog {
  import opened Common

  datatype EventType =
    | KillSwitchArmed
    | KillSwitchDisarmed
    | Reconciliation
    | FillRecorded
    | RiskRejection
    | OtherEvent(name: string)

  /** What an event hash is computed over; the payload enters in its canonical rendering. */
  datatype Content = Content(
    seqNo: int,
    eventType: EventType,
    canonicalPayload: string,
    actor: string,
    at: string,
    prevHash: string)

  datatype Row = Row(
    seqNo: int,
    eventType: EventType,
    payload: string,
    actor: string,
    at: string,
    prevHash: string,
    eventHash: string)

  /** A digest and a JSON codec over payload values of type `J`. */
  datatype Scheme<!J> = Scheme(
    hash: Content -> string,
    render: J -> string,
    parse: string -> Option<J>)

  function Zeros(n: nat): string {
    if n == 0 then "" else Zeros(n - 1) + "0"
  }

  /** What the first event links to: as many zeros as a digest has hexadecimal digits. */
  function Genesis(): string {
    Zeros(64)
  }

  lemma {:induction false} ZerosMeaning(n: nat)
    ensures |Zeros(n)| == n && forall i :: 0 <= i < n ==> Zeros(n)[i] == '0'
  {
    if n > 0 {
      ZerosMeaning(n - 1);
    }
  }

  /** The first event links to sixty-four zeros. */
  lemma GenesisMeaning()
    ensures |Genesis()| == 64 && forall i :: 0 <= i < 64 ==> Genesis()[i] == '0'
  {
    ZerosMeaning(64);
  }

  /** Reading back what was rendered and rendering it again gives the same text. */
  ghost predicate Canonical<J(!new)>(s: Scheme<J>) {
    forall p: J :: var back := s.parse(s.render(p)); back.Some? && s.render(back.value) == s.render(p)
  }

  ghost predicate Injective<J(!new)>(s: Scheme<J>) {
    forall a: Content, b: Content :: s.hash(a) == s.hash(b) ==> a == b
  }

  /** The content a stored row is checked against, unless its payload does not parse. */
  function Recomputed<J>(s: Scheme<J>, row: Row): Option<Content> {
    var payload := s.parse(row.payload);
    if payload.None? then None
    else Some(Content(row.seqNo, row.eventType, s.render(payload.value), row.actor, row.at, row.prevHash))
  }

  predicate Intact<J>(s: Scheme<J>, row: Row, index: nat, expectedPrev: string) {
    var content := Recomputed(s, row);
    && row.seqNo == index
    && row.prevHash == expectedPrev
    && content.Some? && s.hash(content.value) == row.eventHash
  }

  function HeadHash(rows: seq<Row>): string {
    if rows == [] then Genesis() else rows[|rows| - 1].eventHash
  }

  /** The first `k` rows are intact and each is linked to the one before it. */
  predicate ChainedUpTo<J>(s: Scheme<J>, rows: seq<Row>, k: nat)
    requires k <= |rows|
  {
    forall i :: 0 <= i < k ==> Intact(s, rows[i], i, HeadHash(rows[..i]))
  }

  predicate Chained<J>(s: Scheme<J>, rows: seq<Row>) {
    ChainedUpTo(s, rows, |rows|)
  }

  datatype ChainError = SequenceGap(at: nat) | BrokenLink(at: nat) | Modified(at: nat) | Unreadable(at: nat)

  /** The number after the last one stored, which is the number of rows only while none is missing. */
  function NextSeq(rows: seq<Row>): int {
    if rows == [] then 0 else rows[|rows| - 1].seqNo + 1
  }

  function NewRow<J>(s: Scheme<J>, rows: seq<Row>, eventType: EventType, payload: J, actor: string, at: string): Row {
    var seqNo := NextSeq(rows);
    var content := Content(seqNo, eventType, s.render(payload), actor, at, HeadHash(rows));
    Row(seqNo, eventType, s.render(payload), actor, at, HeadHash(rows), s.hash(content))
  }

  class AuditLog<J> {
    const scheme: Scheme<J>
    var rows: seq<Row>

    constructor (scheme: Scheme<J>)
      ensures this.scheme == scheme && rows == []
    {
      this.scheme := scheme;
      rows := [];
    }

    /** Continues from the last stored sequence number and links to the head in one transaction. */
    method Append(eventType: EventType, payload: J, actor: string, at: string) returns (row: Row)
      modifies this
      ensures row == NewRow(scheme, old(rows), eventType, payload, actor, at)
      ensures rows == old(rows) + [row]
    {
      var seqNo, prevHash := 0, Genesis();
      if rows != [] {
        seqNo, prevHash := rows[|rows| - 1].seqNo + 1, rows[|rows| - 1].eventHash;
      }
      var rendered := scheme.render(payload);
      var eventHash := scheme.hash(Content(seqNo, eventType, rendered, actor, at, prevHash));
      row := Row(seqNo, eventType, rendered, actor, at, prevHash, eventHash);
      rows := rows + [row];
    }

    /** Walks the chain and stops at the first inconsistency. */
    method VerifyChain() returns (r: Result<nat, ChainError>)
      ensures r.Success? <==> Chained(scheme, rows)
      ensures r.Success? ==> r.value == |rows|
      ensures r.Success? && rows != [] ==>
                |rows[0].prevHash| == 64 && forall i :: 0 <= i < 64 ==> rows[0].prevHash[i] == '0'
      ensures r.Failure? ==>
                && r.error.at < |rows|
                && !Intact(scheme, rows[r.error.at], r.error.at, HeadHash(rows[..r.error.at]))
                && ChainedUpTo(scheme, rows, r.error.at)
    {
      hide HeadHash, ChainedUpTo, Genesis;
      var expectedPrev := Genesis();
      EmptyChain(scheme, rows);
      GenesisMeaning();
      for index := 0 to |rows|
        invariant expectedPrev == HeadHash(rows[..index])
        invariant ChainedUpTo(scheme, rows, index)
        invariant index > 0 ==> rows[0].prevHash == Genesis()
      {
        var row := rows[index];
        if !Intact(scheme, row, index, expectedPrev) {
          ChainEnds(scheme, rows, index);
        }
        if row.seqNo != index {
          return Failure(SequenceGap(index));
        }
        if row.prevHash != expectedPrev {
          return Failure(BrokenLink(index));
        }
        var payload := scheme.parse(row.payload);
        if payload.None? {
          return Failure(Unreadable(index));
        }
        var content := Content(row.seqNo, row.eventType, scheme.render(payload.value), row.actor, row.at, row.prevHash);
        if scheme.hash(content) != row.eventHash {
          return Failure(Modified(index));
        }
        ChainExtends(scheme, rows, index);
        expectedPrev := row.eventHash;
      }
      return Success(|rows|);
    }
  }

  lemma EmptyChain<J>(s: Scheme<J>, rows: seq<Row>)
    ensures HeadHash(rows[..0]) == Genesis() && ChainedUpTo(s, rows, 0)
  {
  }

  lemma ChainExtends<J>(s: Scheme<J>, rows: seq<Row>, k: nat)
    requires k < |rows| && ChainedUpTo(s, rows, k) && Intact(s, rows[k], k, HeadHash(rows[..k]))
    ensures ChainedUpTo(s, rows, k + 1) && HeadHash(rows[..k + 1]) == rows[k].eventHash
  {
    hide Recomputed, Genesis;
  }

  /** The first row out of place ends the chain. */
  lemma ChainEnds<J>(s: Scheme<J>, rows: seq<Row>, k: nat)
    requires k < |rows| && !Intact(s, rows[k], k, HeadHash(rows[..k]))
    ensures !Chained(s, rows)
  {
  }

  /** The heads of a prefix are the heads of the whole. */
  lemma PrefixHeads(rows: seq<Row>, k: nat)
    requires k <= |rows|
    ensures forall i :: 0 <= i < k ==> HeadHash(rows[..k][..i]) == HeadHash(rows[..i])
    ensures k < |rows| ==> HeadHash(rows[..k + 1]) == rows[k].eventHash
  {
    forall i | 0 <= i < k
      ensures HeadHash(rows[..k][..i]) == HeadHash(rows[..i])
    {
      assert rows[..k][..i] == rows[..i];
    }
  }

  // ---------------------------------------------------------------- what the chain guarantees

  /** Every prefix of a verifying log verifies, so only deleting a tail goes unnoticed. */
  lemma PrefixVerifies<J>(s: Scheme<J>, rows: seq<Row>, k: nat)
    requires Chained(s, rows) && k <= |rows|
    ensures Chained(s, rows[..k])
  {
    PrefixHeads(rows, k);
    forall i | 0 <= i < k
      ensures Intact(s, rows[..k][i], i, HeadHash(rows[..k][..i]))
    {
      assert Intact(s, rows[i], i, HeadHash(rows[..i]));
    }
  }

  /** Appending keeps a verifying log verifying, and heals no damaged one. */
  lemma AppendVerifiesIff<J(!new)>(s: Scheme<J>, rows: seq<Row>, eventType: EventType, payload: J, actor: string,
                            at: string)
    requires Canonical(s)
    ensures Chained(s, rows + [NewRow(s, rows, eventType, payload, actor, at)]) <==> Chained(s, rows)
  {
    hide Chained, NewRow;
    var longer := rows + [NewRow(s, rows, eventType, payload, actor, at)];
    if Chained(s, longer) {
      PrefixVerifies(s, longer, |rows|);
      assert longer[..|rows|] == rows;
    }
    if Chained(s, rows) {
      AppendVerifies(s, rows, eventType, payload, actor, at);
    }
  }

  lemma AppendVerifies<J(!new)>(s: Scheme<J>, rows: seq<Row>, eventType: EventType, payload: J, actor: string,
                         at: string)
    requires Canonical(s) && Chained(s, rows)
    ensures Chained(s, rows + [NewRow(s, rows, eventType, payload, actor, at)])
  {
    var row := NewRow(s, rows, eventType, payload, actor, at);
    var longer := rows + [row];
    assert s.parse(s.render(payload)).Some?;
    assert longer[..|rows|] == rows;
    PrefixHeads(longer, |rows|);
    forall i | 0 <= i < |longer|
      ensures Intact(s, longer[i], i, HeadHash(longer[..i]))
    {
      if i < |rows| {
        assert Intact(s, rows[i], i, HeadHash(rows[..i]));
      }
    }
  }

  datatype Event<J> = Event(eventType: EventType, payload: J, actor: string, at: string)

  /** The log after appending `events` one by one. */
  function Appended<J>(s: Scheme<J>, events: seq<Event<J>>): seq<Row> {
    if events == [] then []
    else
      var rows := Appended(s, events[..|events| - 1]);
      var e := events[|events| - 1];
      rows + [NewRow(s, rows, e.eventType, e.payload, e.actor, e.at)]
  }

  /** Whatever is appended, the log verifies. */
  lemma {:induction false} EveryRunVerifies<J(!new)>(s: Scheme<J>, events: seq<Event<J>>)
    requires Canonical(s)
    ensures Chained(s, Appended(s, events)) && |Appended(s, events)| == |events|
  {
    if events != [] {
      EveryRunVerifies(s, events[..|events| - 1]);
      var e := events[|events| - 1];
      AppendVerifies(s, Appended(s, events[..|events| - 1]), e.eventType, e.payload, e.actor, e.at);
    }
  }

  /** Equal but for how the payload text is laid out: both texts render to the same canonical payload. */
  predicate SameEvent<J>(s: Scheme<J>, a: Row, b: Row) {
    && Recomputed(s, a).Some? && Recomputed(s, a) == Recomputed(s, b)
    && a.eventHash == b.eventHash
  }

  /** A payload stored the way `Append` stores it. */
  predicate StoredCanonically<J>(s: Scheme<J>, row: Row) {
    var payload := s.parse(row.payload);
    payload.Some? && s.render(payload.value) == row.payload
  }

  lemma EqualHashesEqualRows<J(!new)>(s: Scheme<J>, a: Row, i: nat, prevA: string, b: Row, j: nat, prevB: string)
    requires Injective(s) && Intact(s, a, i, prevA) && Intact(s, b, j, prevB) && a.eventHash == b.eventHash
    ensures i == j && prevA == prevB && SameEvent(s, a, b)
    ensures StoredCanonically(s, a) && StoredCanonically(s, b) ==> a == b
  {
    assert s.hash(Recomputed(s, a).value) == s.hash(Recomputed(s, b).value);
  }

  lemma LastIntact<J>(s: Scheme<J>, rows: seq<Row>)
    requires rows != [] && Chained(s, rows)
    ensures Intact(s, rows[|rows| - 1], |rows| - 1, HeadHash(rows[..|rows| - 1]))
  {
    hide Intact, HeadHash;
  }

  predicate AllSame<J>(s: Scheme<J>, a: seq<Row>, b: seq<Row>) {
    |a| == |b| && forall i :: 0 <= i < |a| ==> SameEvent(s, a[i], b[i])
  }

  predicate AllCanonical<J>(s: Scheme<J>, rows: seq<Row>) {
    forall i :: 0 <= i < |rows| ==> StoredCanonically(s, rows[i])
  }

  /** Under an injective digest, two non-empty verifying logs with the same head hash have the same length and
      record the same events: no edit, reorder, insertion or non-tail deletion keeps both the verification and
      the head. Logs stored canonically are identical outright. */
  lemma {:induction false} HeadDeterminesLog<J(!new)>(s: Scheme<J>, a: seq<Row>, b: seq<Row>)
    requires Injective(s) && Chained(s, a) && Chained(s, b)
    requires a != [] && b != [] && HeadHash(a) == HeadHash(b)
    ensures AllSame(s, a, b)
    ensures AllCanonical(s, a) && AllCanonical(s, b) ==> a == b
    decreases |a|
  {
    hide Injective, Intact, SameEvent, StoredCanonically, Genesis, ChainedUpTo;
    var m, n := |a| - 1, |b| - 1;
    LastIntact(s, a);
    LastIntact(s, b);
    EqualHashesEqualRows(s, a[m], m, HeadHash(a[..m]), b[n], n, HeadHash(b[..n]));
    if m > 0 {
      PrefixVerifies(s, a, m);
      PrefixVerifies(s, b, m);
      HeadDeterminesLog(s, a[..m], b[..m]);
    }
    assert a == a[..m] + [a[m]] && b == b[..m] + [b[m]];
  }

  lemma RelaidHead(rows: seq<Row>, i: nat, row: Row, j: nat)
    requires i < |rows| && j <= |rows| && row.eventHash == rows[i].eventHash
    ensures HeadHash(rows[i := row][..j]) == HeadHash(rows[..j])
  {
    hide Genesis;
  }

  lemma RelaidIntact<J>(s: Scheme<J>, row: Row, text: string, index: nat, prev: string)
    requires s.parse(text) == s.parse(row.payload)
    ensures Intact(s, row.(payload := text), index, prev) == Intact(s, row, index, prev)
  {
  }

  /** The layout of a payload is the one thing the chain does not pin down: text that parses to the same payload
      verifies in its place. */
  lemma RelaidPayloadStillVerifies<J(!new)>(s: Scheme<J>, rows: seq<Row>, i: nat, text: string)
    requires Chained(s, rows) && i < |rows|
    requires s.parse(text) == s.parse(rows[i].payload)
    ensures Chained(s, rows[i := rows[i].(payload := text)])
  {
    hide Intact, HeadHash;
    var relaid := rows[i := rows[i].(payload := text)];
    forall j | 0 <= j < |rows|
      ensures Intact(s, relaid[j], j, HeadHash(relaid[..j]))
    {
      assert Intact(s, rows[j], j, HeadHash(rows[..j]));
      RelaidHead(rows, i, rows[i].(payload := text), j);
      RelaidIntact(s, rows[i], text, i, HeadHash(rows[..i]));
    }
  }
}
