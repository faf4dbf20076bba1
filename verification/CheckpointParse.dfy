/**
 * The checkpoint parser as a function of the bytes, and the round trips: it accepts exactly what
 * the printer writes for a well-formed model, and gives that model back.
 */
module CheckpointParse {
  import opened Prelude
  import opened Ravel
  import opened Words
  import opened FieldCodec
  import opened Router
  import opened CheckpointFormat
  import Sha256

  // ----- records of a payload -----------------------------------------------------------------------------

  function ExpertRecord(v: seq<nat>, n: nat, j: nat): (r: seq<nat>)
    requires |v| == PayloadFields(n) && j < n
    ensures |r| == EXPERT_FIELDS
  {
    v[4 + 87 * j..4 + 87 * j + 87]
  }

  function GraphRecord(v: seq<nat>, n: nat, j: nat): (r: seq<nat>)
    requires |v| == PayloadFields(n) && j < n
    ensures |r| == EDGE_FIELDS
  {
    v[4 + 87 * n + 17 * j..4 + 87 * n + 17 * j + 17]
  }

  function CellRecord(v: seq<nat>, n: nat, b: nat): (r: seq<nat>)
    requires |v| == PayloadFields(n) && b < CELLS
    ensures |r| == CELL_FIELDS
  {
    v[4 + 104 * n + 10 * b..4 + 104 * n + 10 * b + 10]
  }

  predicate ExpertRecordOk(v: seq<nat>, j: nat, n: nat) {
    ExpertRanges(v) && v[0] == j && ExpertOk(ExpertOf(v), n)
  }

  predicate GraphRecordOk(v: seq<nat>, j: nat, n: nat) {
    GraphRanges(v) && v[0] == j && GraphRowOk(LinksOf(v[1..]), n)
  }

  predicate CellRecordOk(v: seq<nat>, b: nat, n: nat) {
    CellRanges(v) && v[0] == b && CellOk(CellFrom(v), n)
  }

  predicate LeadOk(v: seq<nat>) {
    |v| >= 4 && 1 <= v[0] <= MAXE && v[1] < TWO64 && v[2] == TOP_K && v[3] == SUPPORT_MIN
  }

  /** The checks of the parser on the fields of a payload for `n` experts. */
  predicate ValuesOk(v: seq<nat>, n: nat) {
    |v| == PayloadFields(n) && LeadOk(v) && v[0] == n &&
    (forall j :: 0 <= j < n ==> ExpertRecordOk(ExpertRecord(v, n, j), j, n)) &&
    (forall j :: 0 <= j < n ==> GraphRecordOk(GraphRecord(v, n, j), j, n)) &&
    (forall b :: 0 <= b < CELLS ==> CellRecordOk(CellRecord(v, n, b), b, n))
  }

  function ModelOf(v: seq<nat>, n: nat): Model
    requires ValuesOk(v, n)
  {
    Model(seq(n, j requires 0 <= j < n => ExpertOf(ExpertRecord(v, n, j))),
          v[1],
          seq(n, j requires 0 <= j < n => LinksOf(GraphRecord(v, n, j)[1..])),
          seq(CELLS, b requires 0 <= b < CELLS => CellFrom(CellRecord(v, n, b))))
  }

  lemma ModelOfWellFormed(v: seq<nat>, n: nat)
    requires ValuesOk(v, n)
    ensures WellFormed(ModelOf(v, n))
  {
    var m := ModelOf(v, n);
    forall j | 0 <= j < n
      ensures ExpertShaped(m.experts[j]) && Storable(m.experts[j]) && ExpertOk(m.experts[j], n)
    {
      assert ExpertRecordOk(ExpertRecord(v, n, j), j, n);
      ExpertForth(ExpertRecord(v, n, j));
    }
    forall j | 0 <= j < n ensures |m.graph[j]| == 8 && GraphRowOk(m.graph[j], n) {
      assert GraphRecordOk(GraphRecord(v, n, j), j, n);
    }
    forall b | 0 <= b < CELLS
      ensures CellShaped(m.routing[b]) && CellOk(m.routing[b], n) && BoundStored(m.routing[b].bound)
    {
      assert CellRecordOk(CellRecord(v, n, b), b, n);
      CellForth(CellRecord(v, n, b));
    }
  }

  function ExpertPart(v: seq<nat>, n: nat): seq<nat>
    requires |v| == PayloadFields(n)
  {
    v[4..4 + 87 * n]
  }

  function GraphPart(v: seq<nat>, n: nat): seq<nat>
    requires |v| == PayloadFields(n)
  {
    v[4 + 87 * n..4 + 87 * n + 17 * n]
  }

  function CellPart(v: seq<nat>, n: nat): seq<nat>
    requires |v| == PayloadFields(n)
  {
    v[4 + 104 * n..4 + 104 * n + 10 * CELLS]
  }

  lemma ExpertChunk(v: seq<nat>, n: nat, j: nat)
    requires |v| == PayloadFields(n) && j < n
    ensures 87 * (j + 1) <= |ExpertPart(v, n)| && Chunk(ExpertPart(v, n), 87, j) == ExpertRecord(v, n, j)
  {
    ChunkOfSlice(v, 4, 87, n, j);
  }

  lemma RowChunk(v: seq<nat>, n: nat, j: nat)
    requires |v| == PayloadFields(n) && j < n
    ensures 17 * (j + 1) <= |GraphPart(v, n)| && Chunk(GraphPart(v, n), 17, j) == GraphRecord(v, n, j)
  {
    ChunkOfSlice(v, 4 + 87 * n, 17, n, j);
  }

  lemma CellChunk(v: seq<nat>, n: nat, b: nat)
    requires |v| == PayloadFields(n) && b < CELLS
    ensures 10 * (b + 1) <= |CellPart(v, n)| && Chunk(CellPart(v, n), 10, b) == CellRecord(v, n, b)
  {
    ChunkOfSlice(v, 4 + 104 * n, 10, CELLS, b);
  }

  lemma OneExpertForth(v: seq<nat>, n: nat, j: nat)
    requires ValuesOk(v, n) && Shaped(ModelOf(v, n)) && j < n
    ensures 87 * (j + 1) <= |ExpertPart(v, n)|
    ensures ExpertRecords(ModelOf(v, n))[j] == Chunk(ExpertPart(v, n), 87, j)
  {
    var record, m := ExpertRecord(v, n, j), ModelOf(v, n);
    assert ExpertRecordOk(record, j, n);
    ExpertForth(record);
    assert m.experts[j] == ExpertOf(record);
    assert ExpertRecords(m)[j] == record;
    ExpertChunk(v, n, j);
  }

  lemma ExpertsForth(v: seq<nat>, n: nat)
    requires ValuesOk(v, n) && Shaped(ModelOf(v, n))
    ensures Flat(ExpertRecords(ModelOf(v, n))) == ExpertPart(v, n)
  {
    var e, r := ExpertPart(v, n), ExpertRecords(ModelOf(v, n));
    forall j | 0 <= j < n ensures 87 * (j + 1) <= |e| && r[j] == Chunk(e, 87, j) { OneExpertForth(v, n, j); }
    FlatOfChunks(e, 87, n, r);
  }

  lemma OneRowForth(v: seq<nat>, n: nat, j: nat)
    requires ValuesOk(v, n) && Shaped(ModelOf(v, n)) && j < n
    ensures 17 * (j + 1) <= |GraphPart(v, n)|
    ensures GraphRecords(ModelOf(v, n))[j] == Chunk(GraphPart(v, n), 17, j)
  {
    var record, m := GraphRecord(v, n, j), ModelOf(v, n);
    assert GraphRecordOk(record, j, n);
    GraphForth(record);
    assert m.graph[j] == LinksOf(record[1..]);
    assert GraphRecords(m)[j] == record;
    RowChunk(v, n, j);
  }

  lemma GraphsForth(v: seq<nat>, n: nat)
    requires ValuesOk(v, n) && Shaped(ModelOf(v, n))
    ensures Flat(GraphRecords(ModelOf(v, n))) == GraphPart(v, n)
  {
    var g, r := GraphPart(v, n), GraphRecords(ModelOf(v, n));
    forall j | 0 <= j < n ensures 17 * (j + 1) <= |g| && r[j] == Chunk(g, 17, j) { OneRowForth(v, n, j); }
    FlatOfChunks(g, 17, n, r);
  }

  lemma OneCellForth(v: seq<nat>, n: nat, b: nat)
    requires ValuesOk(v, n) && Shaped(ModelOf(v, n)) && b < CELLS
    ensures 10 * (b + 1) <= |CellPart(v, n)|
    ensures CellRecords(ModelOf(v, n))[b] == Chunk(CellPart(v, n), 10, b)
  {
    var record, m := CellRecord(v, n, b), ModelOf(v, n);
    assert CellRecordOk(record, b, n);
    CellForth(record);
    assert m.routing[b] == CellFrom(record);
    assert CellRecords(m)[b] == record;
    CellChunk(v, n, b);
  }

  lemma CellsForth(v: seq<nat>, n: nat)
    requires ValuesOk(v, n) && Shaped(ModelOf(v, n))
    ensures Flat(CellRecords(ModelOf(v, n))) == CellPart(v, n)
  {
    var c, r := CellPart(v, n), CellRecords(ModelOf(v, n));
    forall b | 0 <= b < CELLS ensures 10 * (b + 1) <= |c| && r[b] == Chunk(c, 10, b) { OneCellForth(v, n, b); }
    FlatOfChunks(c, 10, CELLS, r);
  }

  /** The fields of the model that the fields describe are those fields. */
  lemma ValuesOfModel(v: seq<nat>, n: nat)
    requires ValuesOk(v, n)
    ensures WellFormed(ModelOf(v, n)) && PayloadValues(ModelOf(v, n)) == v
  {
    ModelOfWellFormed(v, n);
    ExpertsForth(v, n);
    GraphsForth(v, n);
    CellsForth(v, n);
    FourParts(v, n);
  }

  lemma FourParts(v: seq<nat>, n: nat)
    requires |v| == PayloadFields(n)
    ensures v == [v[0], v[1], v[2], v[3]] + ExpertPart(v, n) + GraphPart(v, n) + CellPart(v, n)
  {
  }

  lemma PartsOfModel(m: Model)
    requires Shaped(m)
    ensures var v, n := PayloadValues(m), |m.experts|;
            |v| == PayloadFields(n) && v[..4] == [n, m.epoch, TOP_K, SUPPORT_MIN] &&
            ExpertPart(v, n) == Flat(ExpertRecords(m)) && GraphPart(v, n) == Flat(GraphRecords(m)) &&
            CellPart(v, n) == Flat(CellRecords(m))
  {
    FlatLength(ExpertRecords(m), 87);
    FlatLength(GraphRecords(m), 17);
    FlatLength(CellRecords(m), 10);
  }

  lemma ExpertOfModel(m: Model, j: nat)
    requires Shaped(m) && j < |m.experts| && |PayloadValues(m)| == PayloadFields(|m.experts|)
    ensures ExpertRecord(PayloadValues(m), |m.experts|, j) == ExpertValues(m.experts[j], j)
  {
    var v, n := PayloadValues(m), |m.experts|;
    PartsOfModel(m);
    ChunkOfFlat(ExpertRecords(m), 87, j);
    ExpertChunk(v, n, j);
  }

  lemma GraphOfModel(m: Model, j: nat)
    requires Shaped(m) && j < |m.graph| && |PayloadValues(m)| == PayloadFields(|m.experts|)
    ensures GraphRecord(PayloadValues(m), |m.experts|, j) == GraphValues(m.graph[j], j)
  {
    var v, n := PayloadValues(m), |m.experts|;
    PartsOfModel(m);
    ChunkOfFlat(GraphRecords(m), 17, j);
    RowChunk(v, n, j);
  }

  lemma CellOfModel(m: Model, b: nat)
    requires Shaped(m) && b < CELLS && |PayloadValues(m)| == PayloadFields(|m.experts|)
    ensures CellRecord(PayloadValues(m), |m.experts|, b) == CellValues(m.routing[b], b)
  {
    var v, n := PayloadValues(m), |m.experts|;
    PartsOfModel(m);
    ChunkOfFlat(CellRecords(m), 10, b);
    CellChunk(v, n, b);
  }

  lemma ExpertPasses(m: Model, j: nat)
    requires WellFormed(m) && j < |m.experts| && |PayloadValues(m)| == PayloadFields(|m.experts|)
    ensures var record := ExpertRecord(PayloadValues(m), |m.experts|, j);
            ExpertRecordOk(record, j, |m.experts|) && ExpertOf(record) == m.experts[j]
  {
    ExpertOfModel(m, j);
    ExpertBack(m.experts[j], j);
  }

  lemma RowPasses(m: Model, j: nat)
    requires WellFormed(m) && j < |m.experts| && |PayloadValues(m)| == PayloadFields(|m.experts|)
    ensures var record := GraphRecord(PayloadValues(m), |m.experts|, j);
            GraphRecordOk(record, j, |m.experts|) && LinksOf(record[1..]) == m.graph[j]
  {
    GraphOfModel(m, j);
    GraphBack(m.graph[j], j);
  }

  lemma CellPasses(m: Model, b: nat)
    requires WellFormed(m) && b < CELLS && |PayloadValues(m)| == PayloadFields(|m.experts|)
    ensures var record := CellRecord(PayloadValues(m), |m.experts|, b);
            CellRecordOk(record, b, |m.experts|) && CellFrom(record) == m.routing[b]
  {
    CellOfModel(m, b);
    CellBack(m.routing[b], b);
  }

  lemma LeadPasses(m: Model)
    requires WellFormed(m)
    ensures var v := PayloadValues(m);
            |v| == PayloadFields(|m.experts|) && LeadOk(v) && v[0] == |m.experts| && v[1] == m.epoch
  {
    var v, n := PayloadValues(m), |m.experts|;
    PartsOfModel(m);
    assert v[..4][0] == n && v[..4][1] == m.epoch && v[..4][2] == TOP_K && v[..4][3] == SUPPORT_MIN;
  }

  /** The fields of a well-formed model pass the checks. */
  lemma ValuesPass(m: Model)
    requires WellFormed(m)
    ensures ValuesOk(PayloadValues(m), |m.experts|)
  {
    var v, n := PayloadValues(m), |m.experts|;
    LeadPasses(m);
    forall j | 0 <= j < n ensures ExpertRecordOk(ExpertRecord(v, n, j), j, n) { ExpertPasses(m, j); }
    forall j | 0 <= j < n ensures GraphRecordOk(GraphRecord(v, n, j), j, n) { RowPasses(m, j); }
    forall b | 0 <= b < CELLS ensures CellRecordOk(CellRecord(v, n, b), b, n) { CellPasses(m, b); }
  }

  /** And describe that model. */
  lemma ModelOfValues(m: Model)
    requires WellFormed(m) && ValuesOk(PayloadValues(m), |m.experts|)
    ensures ModelOf(PayloadValues(m), |m.experts|) == m
  {
    var v, n := PayloadValues(m), |m.experts|;
    var back := ModelOf(v, n);
    LeadPasses(m);
    forall j | 0 <= j < n ensures back.experts[j] == m.experts[j] { ExpertPasses(m, j); }
    forall j | 0 <= j < n ensures back.graph[j] == m.graph[j] { RowPasses(m, j); }
    forall b | 0 <= b < CELLS ensures back.routing[b] == m.routing[b] { CellPasses(m, b); }
    assert back.experts == m.experts && back.graph == m.graph && back.routing == m.routing;
  }

  lemma CellInRange(c: Cell, b: nat)
    requires CellShaped(c) && b < 0x1_0000
    ensures CellRanges(CellValues(c, b))
  {
  }

  lemma ValuesFit(m: Model)
    requires Shaped(m) && |m.experts| <= MAXE && forall j :: 0 <= j < |m.experts| ==> Storable(m.experts[j])
    ensures Fits(PayloadWidths(|m.experts|), PayloadValues(m))
  {
    var n := |m.experts|;
    var er, gr, cr := ExpertRecords(m), GraphRecords(m), CellRecords(m);
    var ew, gw, cw := Rows(ExpertWidths(), n), Rows(GraphWidths(), n), Rows(CellWidths(), CELLS);
    forall j | 0 <= j < n ensures Fits(ew[j], er[j]) {
      ExpertBack(m.experts[j], j);
      FitsExpert(er[j]);
    }
    forall j | 0 <= j < n ensures Fits(gw[j], gr[j]) {
      GraphBack(m.graph[j], j);
      FitsGraph(gr[j]);
    }
    forall b | 0 <= b < CELLS ensures Fits(cw[b], cr[b]) {
      CellInRange(m.routing[b], b);
      FitsCell(cr[b]);
    }
    FitsFlat(ew, er);
    FitsFlat(gw, gr);
    FitsFlat(cw, cr);
    var lead: seq<nat> := [n, m.epoch, TOP_K, SUPPORT_MIN];
    Powers();
    assert Fits(LEAD, lead);
    FitsConcat(LEAD, lead, Flat(ew), Flat(er));
    FitsConcat(LEAD + Flat(ew), lead + Flat(er), Flat(gw), Flat(gr));
    FitsConcat(LEAD + Flat(ew) + Flat(gw), lead + Flat(er) + Flat(gr), Flat(cw), Flat(cr));
  }

  // ----- payloads as bytes ----------------------------------------------------------------------------------

  function Payload(m: Model): (b: seq<Byte>)
    requires Shaped(m)
    ensures |b| == PayloadSize(|m.experts|)
  {
    PartsOfModel(m);
    PayloadShape(|m.experts|);
    Encode(PayloadWidths(|m.experts|), PayloadValues(m))
  }

  function ParsePayload(b: seq<Byte>): Option<Model> {
    LeadSize();
    if |b| < LEAD_BYTES then None
    else
      var n := Decode(LEAD, b[..LEAD_BYTES])[0];
      PayloadShape(n);
      if |b| != PayloadSize(n) then None
      else
        var v := Decode(PayloadWidths(n), b);
        if ValuesOk(v, n) then Some(ModelOf(v, n)) else None
  }

  lemma ParseOfPayload(m: Model)
    requires WellFormed(m)
    ensures ParsePayload(Payload(m)) == Some(m)
  {
    var n, v, b := |m.experts|, PayloadValues(m), Payload(m);
    PartsOfModel(m);
    PayloadShape(n);
    LeadSize();
    ValuesFit(m);
    DecodeOfEncode(PayloadWidths(n), v);
    LeadOfPayload(n, b);
    assert Decode(LEAD, b[..LEAD_BYTES])[0] == v[..4][0] == n;
    ValuesPass(m);
    ModelOfValues(m);
  }

  /** The lead is read from the first bytes, before the rest of the layout is known. */
  lemma LeadOfPayload(n: nat, b: seq<Byte>)
    requires |b| == PayloadSize(n) && |b| == Sum(PayloadWidths(n)) && Sum(LEAD) == LEAD_BYTES
    ensures Decode(PayloadWidths(n), b)[..4] == Decode(LEAD, b[..LEAD_BYTES])
  {
    var rest := Flat(Rows(ExpertWidths(), n)) + Flat(Rows(GraphWidths(), n)) + Flat(Rows(CellWidths(), CELLS));
    assert PayloadWidths(n) == LEAD + rest;
    DecodePrefix(LEAD, rest, b);
  }

  lemma PayloadOfParse(b: seq<Byte>)
    requires ParsePayload(b).Some?
    ensures WellFormed(ParsePayload(b).value) && Payload(ParsePayload(b).value) == b
  {
    LeadSize();
    var n := Decode(LEAD, b[..LEAD_BYTES])[0];
    PayloadShape(n);
    ValuesOfModel(Decode(PayloadWidths(n), b), n);
    EncodeOfDecode(PayloadWidths(n), b);
  }

  // ----- checkpoint files -------------------------------------------------------------------------------------

  const MAGIC: seq<Byte> := [82, 65, 86, 69, 76, 48, 53, 0]

  const BYTE_ORDER := 0x0102_0304

  function HeaderWidths(): seq<nat> { Same(2, 8) + Same(4, 2) }

  function HeaderValues(size: nat): (v: seq<nat>)
    ensures |v| == |HeaderWidths()|
  {
    [SCHEMA, D, CLASSES, ACTIONS, STATES, MAXE, ROUTE_K, CELLS, BYTE_ORDER, size]
  }

  lemma HeaderSize()
    ensures Sum(HeaderWidths()) == 24
  {
    SumAnd(Same(2, 8), 4, 2);
    SumSame(2, 8);
  }

  /** Magic, version and limits, payload length, SHA-256 of the payload, payload. */
  ghost function File(payload: seq<Byte>): (b: seq<Byte>)
    ensures |b| == HEADER + |payload|
  {
    HeaderSize();
    Sha256.DigestLength(payload);
    MAGIC + Encode(HeaderWidths(), HeaderValues(|payload|)) + Sha256.Digest(payload) + payload
  }

  ghost function Print(m: Model): seq<Byte>
    requires Shaped(m)
  {
    File(Payload(m))
  }

  /** The checks of the parser on the header. */
  ghost predicate FileOk(b: seq<Byte>) {
    HEADER <= |b| <= CHECKPOINT_MAX &&
    b[..8] == MAGIC &&
    (HeaderSize(); Decode(HeaderWidths(), b[8..32]) == HeaderValues(|b| - HEADER)) &&
    b[32..64] == Sha256.Digest(b[64..])
  }

  /** The model of a checkpoint and its identity, the digest of the payload. */
  ghost function Parse(b: seq<Byte>): Option<(Model, seq<Byte>)> {
    if !FileOk(b) then None
    else
      Identified(ParsePayload(b[HEADER..]), b[32..64])
  }

  function Identified(m: Option<Model>, id: seq<Byte>): (r: Option<(Model, seq<Byte>)>)
    ensures r == if m.Some? then Some((m.value, id)) else None
  {
    match m
    case None => None
    case Some(value) => Some((value, id))
  }

  /** The four pieces of a checkpoint. */
  lemma FilePieces(payload: seq<Byte>)
    ensures File(payload)[..8] == MAGIC && File(payload)[HEADER..] == payload
    ensures File(payload)[8..32] == Encode(HeaderWidths(), HeaderValues(|payload|))
    ensures File(payload)[32..64] == Sha256.Digest(payload)
  {
    HeaderSize();
    Sha256.DigestLength(payload);
    var h, d := Encode(HeaderWidths(), HeaderValues(|payload|)), Sha256.Digest(payload);
    FourPieces(MAGIC, h, d, payload);
  }

  lemma FourPieces(a: seq<Byte>, b: seq<Byte>, c: seq<Byte>, d: seq<Byte>)
    requires |a| == 8 && |b| == 24 && |c| == 32
    ensures var f := a + b + c + d; f[..8] == a && f[8..32] == b && f[32..64] == c && f[64..] == d
  {
  }

  lemma HeaderFits(size: nat)
    requires size < WORD
    ensures Fits(HeaderWidths(), HeaderValues(size))
  {
    Powers();
  }

  lemma HeaderOkIff(h: seq<Byte>, size: nat)
    requires |h| == 24 && size < WORD
    ensures Sum(HeaderWidths()) == 24
    ensures Decode(HeaderWidths(), h) == HeaderValues(size) <==> h == Encode(HeaderWidths(), HeaderValues(size))
  {
    HeaderSize();
    HeaderFits(size);
    DecodeOfEncode(HeaderWidths(), HeaderValues(size));
    EncodeOfDecode(HeaderWidths(), h);
  }

  lemma FileOkIff(b: seq<Byte>)
    ensures FileOk(b) <==> HEADER <= |b| <= CHECKPOINT_MAX && b == File(b[HEADER..])
  {
    if HEADER <= |b| <= CHECKPOINT_MAX { FileOkWithin(b, b[HEADER..]); }
  }

  lemma FileOkWithin(b: seq<Byte>, payload: seq<Byte>)
    requires HEADER <= |b| <= CHECKPOINT_MAX && payload == b[HEADER..]
    ensures FileOk(b) <==> b == File(payload)
  {
    HeaderCases(b, payload);
    hide *;
    HeaderOkIff(b[8..32], |payload|);
    FileIff(b, payload);
  }

  lemma HeaderCases(b: seq<Byte>, payload: seq<Byte>)
    requires HEADER <= |b| <= CHECKPOINT_MAX && payload == b[HEADER..]
    ensures 64 <= |b| && payload == b[64..] && |payload| < WORD && Sum(HeaderWidths()) == 24
    ensures FileOk(b) <==> b[..8] == MAGIC && Decode(HeaderWidths(), b[8..32]) == HeaderValues(|payload|) &&
                           b[32..64] == Sha256.Digest(payload)
  {
    HeaderSize();
  }

  lemma SamePieces(b: seq<Byte>, f: seq<Byte>)
    requires |b| >= 64 && |f| >= 64
    ensures b == f <==> b[..8] == f[..8] && b[8..32] == f[8..32] && b[32..64] == f[32..64] && b[64..] == f[64..]
  {
    assert b == b[..8] + b[8..32] + b[32..64] + b[64..];
    assert f == f[..8] + f[8..32] + f[32..64] + f[64..];
  }

  lemma FileIff(b: seq<Byte>, payload: seq<Byte>)
    requires |b| >= 64
    ensures b == File(payload) <==>
            b[..8] == MAGIC && b[8..32] == Encode(HeaderWidths(), HeaderValues(|payload|)) &&
            b[32..64] == Sha256.Digest(payload) && b[64..] == payload
  {
    FilePieces(payload);
    SamePieces(b, File(payload));
  }

  /** Every well-formed model fits a checkpoint, and its size depends on the number of experts alone. */
  lemma PrintSize(m: Model)
    requires WellFormed(m)
    ensures |Print(m)| == 6734 + 570 * |m.experts| <= CHECKPOINT_MAX
  {
  }

  /** Parsing what was printed gives the model back. */
  lemma ParseOfPrint(m: Model)
    requires WellFormed(m)
    ensures Parse(Print(m)) == Some((m, Sha256.Digest(Payload(m))))
  {
    PrintSize(m);
    var b, payload := Print(m), Payload(m);
    HeaderSize();
    Sha256.DigestLength(payload);
    assert b[HEADER..] == payload && b[32..64] == Sha256.Digest(payload);
    FileOkIff(b);
    ParseOfPayload(m);
  }

  /** Whatever is accepted is well formed and prints as the very bytes that were read. */
  lemma PrintOfParse(b: seq<Byte>)
    requires Parse(b).Some?
    ensures WellFormed(Parse(b).value.0) && Print(Parse(b).value.0) == b
  {
    FileOkIff(b);
    PayloadOfParse(b[HEADER..]);
  }

  /** The parser accepts exactly the printed form of the well-formed models. */
  lemma AcceptedIff(b: seq<Byte>)
    ensures Parse(b).Some? <==> exists m :: WellFormed(m) && Print(m) == b
  {
    if Parse(b).Some? { PrintOfParse(b); }
    forall m | WellFormed(m) && Print(m) == b ensures Parse(b).Some? { ParseOfPrint(m); }
  }
}
