/**
 * RAVEL's `deserialize_checkpoint` as a whole, proved to compute the parser function: it returns the
 * model of an acceptable checkpoint, and when it gives up early no continuation could have passed.
 */
module CheckpointLoader {
  import opened Prelude
  import opened Ravel
  import opened Words
  import opened FieldCodec
  import opened Router
  import opened CheckpointFormat
  import opened CheckpointParse
  import opened CheckpointWriter
  import opened CheckpointReader
  import Sha256

  // ----- what has been read agrees with the layout -------------------------------------------------------------

  /** The fields `ws` lead the layout for `n` experts and hold `vs`, as far as the data reaches. */
  ghost predicate Agrees(data: seq<Byte>, n: nat, ws: seq<nat>, vs: seq<nat>) {
    |ws| == |vs| && ws <= PayloadWidths(n) && (Sum(ws) <= |data| ==> vs == Decode(ws, data[..Sum(ws)]))
  }

  lemma FieldsRead(data: seq<Byte>, n: nat, ws: seq<nat>, vs: seq<nat>)
    requires Agrees(data, n, ws, vs) && |data| == PayloadSize(n)
    ensures Sum(PayloadWidths(n)) == |data| && |PayloadWidths(n)| == PayloadFields(n)
    ensures Decode(PayloadWidths(n), data)[..|ws|] == vs
  {
    PayloadShape(n);
    var rest := PayloadWidths(n)[|ws|..];
    assert PayloadWidths(n) == ws + rest;
    DecodePrefix(ws, rest, data);
  }

  lemma {:induction false} RowsLead(ws: seq<nat>, j: nat, n: nat, k: nat)
    requires j < n && k <= |ws|
    ensures Flat(Rows(ws, j)) + ws[..k] <= Flat(Rows(ws, n))
  {
    RowsSnoc(ws, n - 1);
    if j < n - 1 { RowsLead(ws, j, n - 1, k); }
  }

  lemma ExpertWidthsLead(n: nat, j: nat, k: nat)
    requires j < n && k <= EXPERT_FIELDS
    ensures LEAD + Flat(Rows(ExpertWidths(), j)) + ExpertWidths()[..k] <= PayloadWidths(n)
  {
    RowsLead(ExpertWidths(), j, n, k);
  }

  lemma GraphWidthsLead(n: nat, j: nat, k: nat)
    requires j < n && k <= EDGE_FIELDS
    ensures LEAD + Flat(Rows(ExpertWidths(), n)) + Flat(Rows(GraphWidths(), j)) + GraphWidths()[..k] <=
            PayloadWidths(n)
  {
    RowsLead(GraphWidths(), j, n, k);
  }

  lemma CellWidthsLead(n: nat, b: nat, k: nat)
    requires b < CELLS && k <= CELL_FIELDS
    ensures LEAD + Flat(Rows(ExpertWidths(), n)) + Flat(Rows(GraphWidths(), n)) + Flat(Rows(CellWidths(), b)) +
            CellWidths()[..k] <= PayloadWidths(n)
  {
    RowsLead(CellWidths(), b, CELLS, k);
  }

  // ----- giving up early is right ----------------------------------------------------------------------------------

  /** The number of experts as the parser reads it. */
  ghost predicate LeadRead(data: seq<Byte>, n: nat) {
    |data| < LEAD_BYTES || (LeadSize(); Decode(LEAD, data[..LEAD_BYTES])[0] == n)
  }

  lemma ShortData(data: seq<Byte>, n: nat, ws: seq<nat>)
    requires LeadRead(data, n) && ws <= PayloadWidths(n) && Sum(ws) > |data|
    ensures ParsePayload(data) == None
  {
    PayloadShape(n);
    SumConcat(ws, PayloadWidths(n)[|ws|..]);
    assert PayloadWidths(n) == ws + PayloadWidths(n)[|ws|..];
  }

  lemma PartOfRecord(v: seq<nat>, before: seq<nat>, part: seq<nat>, r: nat)
    requires |part| <= r && |before| + r <= |v| && v[..|before| + |part|] == before + part
    ensures part <= v[|before|..|before| + r]
  {
    assert v[..|before| + |part|][|before|..] == part;
  }

  lemma ExpertGivesUp(data: seq<Byte>, n: nat, j: nat, ws: seq<nat>, vs: seq<nat>, before: seq<nat>, part: seq<nat>)
    requires LeadRead(data, n) && Agrees(data, n, ws, vs) && j < n
    requires |before| == 4 + EXPERT_FIELDS * j && |part| <= EXPERT_FIELDS && vs == before + part
    requires ExpertRefuted(part, j, n)
    ensures ParsePayload(data) == None
  {
    if |data| == PayloadSize(n) {
      FieldsRead(data, n, ws, vs);
      var v := Decode(PayloadWidths(n), data);
      PartOfRecord(v, before, part, EXPERT_FIELDS);
      assert !ExpertRecordOk(ExpertRecord(v, n, j), j, n);
    }
  }

  lemma GraphGivesUp(data: seq<Byte>, n: nat, j: nat, ws: seq<nat>, vs: seq<nat>, before: seq<nat>, part: seq<nat>)
    requires LeadRead(data, n) && Agrees(data, n, ws, vs) && j < n
    requires |before| == 4 + EXPERT_FIELDS * n + EDGE_FIELDS * j && |part| <= EDGE_FIELDS && vs == before + part
    requires GraphRefuted(part, j, n)
    ensures ParsePayload(data) == None
  {
    if |data| == PayloadSize(n) {
      FieldsRead(data, n, ws, vs);
      var v := Decode(PayloadWidths(n), data);
      PartOfRecord(v, before, part, EDGE_FIELDS);
      assert !GraphRecordOk(GraphRecord(v, n, j), j, n);
    }
  }

  lemma RefutedCell(v: seq<nat>, n: nat, b: nat, record: seq<nat>)
    requires |v| == PayloadFields(n) && b < CELLS && !CellRecordOk(record, b, n)
    requires var at := 4 + EXPERT_FIELDS * n + EDGE_FIELDS * n + CELL_FIELDS * b;
             at + CELL_FIELDS <= |v| && record == v[at..at + CELL_FIELDS]
    ensures !ValuesOk(v, n)
  {
    assert CellRecord(v, n, b) == record;
  }

  lemma CellGivesUp(data: seq<Byte>, n: nat, b: nat, ws: seq<nat>, vs: seq<nat>, before: seq<nat>, part: seq<nat>)
    requires LeadRead(data, n) && Agrees(data, n, ws, vs) && b < CELLS
    requires |before| == 4 + EXPERT_FIELDS * n + EDGE_FIELDS * n + CELL_FIELDS * b
    requires |part| <= CELL_FIELDS && vs == before + part
    requires CellRefuted(part, b, n)
    ensures ParsePayload(data) == None
  {
    if |data| == PayloadSize(n) {
      FieldsRead(data, n, ws, vs);
      var v := Decode(PayloadWidths(n), data);
      PartOfRecord(v, before, part, CELL_FIELDS);
      RefutedCell(v, n, b, v[|before|..|before| + CELL_FIELDS]);
    }
  }

  lemma LeadGivesUp(data: seq<Byte>, n: nat, lead: seq<nat>)
    requires LeadRead(data, n) && |lead| == 4 && Agrees(data, n, LEAD, lead) && !LeadOk(lead)
    ensures ParsePayload(data) == None
  {
    if |data| == PayloadSize(n) {
      FieldsRead(data, n, LEAD, lead);
      var v := Decode(PayloadWidths(n), data);
      assert v[..4][0] == v[0] && v[..4][1] == v[1] && v[..4][2] == v[2] && v[..4][3] == v[3];
    }
  }

  // ----- the loops ---------------------------------------------------------------------------------------------------

  method NextExpert(r: ByteReader, j: U16, n: U16, ghost before: seq<nat>) returns (good: bool, e: Expert)
    requires r.Valid() && LeadRead(r.data, n) && j < n
    requires r.widths == LEAD + Flat(Rows(ExpertWidths(), j))
    requires r.values == before && |before| == 4 + EXPERT_FIELDS * j
    modifies r
    ensures r.Valid()
    ensures !good ==> ParsePayload(r.data) == None
    ensures good ==> ExpertShaped(e) && Storable(e) && ExpertOk(e, n)
    ensures good ==> r.widths == old(r.widths) + ExpertWidths() && r.values == before + ExpertValues(e, j)
  {
    ghost var part: seq<nat>;
    good, e, part := ReadExpert(r, j, n);
    ExpertWidthsLead(n, j, |part|);
    if !good {
      if r.ok {
        ExpertGivesUp(r.data, n, j, r.widths, r.values, before, part);
      } else {
        ShortData(r.data, n, r.widths);
      }
    }
  }

  method LoadExperts(r: ByteReader, n: U16, ghost lead: seq<nat>) returns (good: bool, es: seq<Expert>)
    requires r.Valid() && r.widths == LEAD && r.values == lead && |lead| == 4 && LeadRead(r.data, n)
    modifies r
    ensures r.Valid()
    ensures !good ==> ParsePayload(r.data) == None
    ensures good ==> |es| == n && ExpertsOk(es, n)
    ensures good ==> r.widths == LEAD + Flat(Rows(ExpertWidths(), n)) && r.values == lead + Flat(Numbered(es))
  {
    es := [];
    for j := 0 to n
      invariant r.Valid() && |es| == j && ExpertsOk(es, n)
      invariant r.widths == LEAD + Flat(Rows(ExpertWidths(), j)) && r.values == lead + Flat(Numbered(es))
    {
      var e: Expert;
      NumberedLength(es);
      good, e := NextExpert(r, j, n, r.values);
      if !good { return; }
      Joined(LEAD, Flat(Rows(ExpertWidths(), j)), ExpertWidths());
      Joined(lead, Flat(Numbered(es)), ExpertValues(e, j));
      ExpertsOkSnoc(es, e, n);
      NumberedSnoc(es, e);
      RowsSnoc(ExpertWidths(), j);
      es := es + [e];
    }
    good := true;
  }

  predicate ExpertsShaped(es: seq<Expert>) { forall i :: 0 <= i < |es| ==> ExpertShaped(es[i]) }

  /** Every expert passed its checks. */
  predicate ExpertsOk(es: seq<Expert>, n: nat) {
    ExpertsShaped(es) && forall i :: 0 <= i < |es| ==> Storable(es[i]) && ExpertOk(es[i], n)
  }

  ghost function Numbered(es: seq<Expert>): (r: seq<seq<nat>>)
    requires ExpertsShaped(es)
    ensures |r| == |es|
  {
    seq(|es|, i requires 0 <= i < |es| => ExpertValues(es[i], i))
  }

  lemma NumberedLength(es: seq<Expert>)
    requires ExpertsShaped(es)
    ensures |Flat(Numbered(es))| == EXPERT_FIELDS * |es|
  {
    FlatLength(Numbered(es), EXPERT_FIELDS);
  }

  lemma ExpertsOkSnoc(es: seq<Expert>, e: Expert, n: nat)
    requires ExpertsOk(es, n) && ExpertShaped(e) && Storable(e) && ExpertOk(e, n)
    ensures ExpertsOk(es + [e], n)
  {
  }

  lemma NumberedSnoc(es: seq<Expert>, e: Expert)
    requires ExpertsShaped(es) && ExpertShaped(e)
    ensures ExpertsShaped(es + [e])
    ensures Flat(Numbered(es + [e])) == Flat(Numbered(es)) + ExpertValues(e, |es|)
  {
    assert Numbered(es + [e])[..|es|] == Numbered(es);
  }

  method NextRow(r: ByteReader, j: U16, n: U16, ghost before: seq<nat>) returns (good: bool, row: seq<Link>)
    requires r.Valid() && LeadRead(r.data, n) && j < n
    requires r.widths == LEAD + Flat(Rows(ExpertWidths(), n)) + Flat(Rows(GraphWidths(), j))
    requires r.values == before && |before| == 4 + EXPERT_FIELDS * n + EDGE_FIELDS * j
    modifies r
    ensures r.Valid()
    ensures !good ==> ParsePayload(r.data) == None
    ensures good ==> |row| == 8 && GraphRowOk(row, n)
    ensures good ==> r.widths == old(r.widths) + GraphWidths() && r.values == before + GraphValues(row, j)
  {
    ghost var part: seq<nat>;
    good, row, part := ReadGraphRow(r, j, n);
    GraphWidthsLead(n, j, |part|);
    if !good { GraphGivesUp(r.data, n, j, r.widths, r.values, before, part); }
  }

  method LoadGraph(r: ByteReader, n: U16, ghost base: seq<nat>) returns (good: bool, graph: seq<seq<Link>>)
    requires r.Valid() && LeadRead(r.data, n) && |base| == 4 + EXPERT_FIELDS * n
    requires r.widths == LEAD + Flat(Rows(ExpertWidths(), n)) && r.values == base
    modifies r
    ensures r.Valid()
    ensures !good ==> ParsePayload(r.data) == None
    ensures good ==> |graph| == n && RowsShaped(graph) && RowsOk(graph, n)
    ensures good ==>
              r.widths == LEAD + Flat(Rows(ExpertWidths(), n)) + Flat(Rows(GraphWidths(), n)) &&
              r.values == base + Flat(NumberedRows(graph))
  {
    graph := [];
    ghost var ws := r.widths;
    for j := 0 to n
      invariant r.Valid() && |graph| == j && RowsShaped(graph) && RowsOk(graph, n)
      invariant r.widths == ws + Flat(Rows(GraphWidths(), j))
      invariant r.values == base + Flat(NumberedRows(graph))
    {
      NumberedRowsLength(graph);
      var row: seq<Link>;
      good, row := NextRow(r, j, n, r.values);
      if !good { return; }
      Joined(ws, Flat(Rows(GraphWidths(), j)), GraphWidths());
      Joined(base, Flat(NumberedRows(graph)), GraphValues(row, j));
      RowsOkSnoc(graph, row, n);
      NumberedRowsSnoc(graph, row);
      RowsSnoc(GraphWidths(), j);
      graph := graph + [row];
    }
    good := true;
  }

  predicate RowsShaped(graph: seq<seq<Link>>) { forall j :: 0 <= j < |graph| ==> |graph[j]| == 8 }

  predicate RowsOk(graph: seq<seq<Link>>, n: nat) { forall j :: 0 <= j < |graph| ==> GraphRowOk(graph[j], n) }

  lemma RowsOkSnoc(graph: seq<seq<Link>>, row: seq<Link>, n: nat)
    requires RowsOk(graph, n) && GraphRowOk(row, n)
    ensures RowsOk(graph + [row], n)
  {
  }

  lemma NumberedRowsLength(graph: seq<seq<Link>>)
    requires RowsShaped(graph)
    ensures |Flat(NumberedRows(graph))| == EDGE_FIELDS * |graph|
  {
    FlatLength(NumberedRows(graph), EDGE_FIELDS);
  }

  lemma NumberedRowsSnoc(graph: seq<seq<Link>>, row: seq<Link>)
    requires RowsShaped(graph) && |row| == 8
    ensures RowsShaped(graph + [row])
    ensures Flat(NumberedRows(graph + [row])) == Flat(NumberedRows(graph)) + GraphValues(row, |graph|)
  {
    assert NumberedRows(graph + [row])[..|graph|] == NumberedRows(graph);
  }

  ghost function NumberedRows(graph: seq<seq<Link>>): (r: seq<seq<nat>>)
    requires RowsShaped(graph)
    ensures |r| == |graph|
  {
    seq(|graph|, j requires 0 <= j < |graph| => GraphValues(graph[j], j))
  }

  method NextCell(r: ByteReader, b: U16, n: U16, ghost before: seq<nat>) returns (good: bool, cell: Cell)
    requires r.Valid() && LeadRead(r.data, n) && b < CELLS
    requires r.widths == LEAD + Flat(Rows(ExpertWidths(), n)) + Flat(Rows(GraphWidths(), n)) +
                         Flat(Rows(CellWidths(), b))
    requires r.values == before && |before| == 4 + EXPERT_FIELDS * n + EDGE_FIELDS * n + CELL_FIELDS * b
    modifies r
    ensures r.Valid()
    ensures !good ==> ParsePayload(r.data) == None
    ensures good ==> CellShaped(cell) && CellLoaded(cell, n)
    ensures good ==> r.widths == old(r.widths) + CellWidths() && r.values == before + CellValues(cell, b)
  {
    ghost var part: seq<nat>;
    good, cell, part := ReadCell(r, b, n);
    CellWidthsLead(n, b, |part|);
    if !good { CellGivesUp(r.data, n, b, r.widths, r.values, before, part); }
  }

  predicate CellLoaded(c: Cell, n: nat) { CellOk(c, n) && BoundStored(c.bound) }

  predicate CellsOk(routing: seq<Cell>, n: nat) { forall b :: 0 <= b < |routing| ==> CellLoaded(routing[b], n) }

  lemma CellsOkSnoc(routing: seq<Cell>, c: Cell, n: nat)
    requires CellsOk(routing, n) && CellLoaded(c, n)
    ensures CellsOk(routing + [c], n)
  {
  }

  predicate CellsShaped(routing: seq<Cell>) { forall b :: 0 <= b < |routing| ==> CellShaped(routing[b]) }

  method LoadCells(r: ByteReader, n: U16, ghost base: seq<nat>) returns (good: bool, routing: seq<Cell>)
    requires r.Valid() && LeadRead(r.data, n) && |base| == 4 + EXPERT_FIELDS * n + EDGE_FIELDS * n
    requires r.widths == LEAD + Flat(Rows(ExpertWidths(), n)) + Flat(Rows(GraphWidths(), n)) && r.values == base
    modifies r
    ensures r.Valid()
    ensures !good ==> ParsePayload(r.data) == None
    ensures good ==>
              |routing| == CELLS && CellsShaped(routing) && CellsOk(routing, n)
    ensures good ==> r.widths == PayloadWidths(n) && r.values == base + Flat(NumberedCells(routing))
  {
    routing := [];
    ghost var ws := r.widths;
    assert PayloadWidths(n) == ws + Flat(Rows(CellWidths(), CELLS));
    for b := 0 to CELLS
      invariant r.Valid() && |routing| == b && CellsShaped(routing) && CellsOk(routing, n)
      invariant r.widths == ws + Flat(Rows(CellWidths(), b))
      invariant r.values == base + Flat(NumberedCells(routing))
    {
      NumberedCellsLength(routing);
      var cell: Cell;
      good, cell := NextCell(r, b, n, r.values);
      if !good { return; }
      Joined(ws, Flat(Rows(CellWidths(), b)), CellWidths());
      Joined(base, Flat(NumberedCells(routing)), CellValues(cell, b));
      CellsOkSnoc(routing, cell, n);
      NumberedCellsSnoc(routing, cell);
      RowsSnoc(CellWidths(), b);
      routing := routing + [cell];
    }
    good := true;
  }

  lemma NumberedCellsLength(routing: seq<Cell>)
    requires CellsShaped(routing)
    ensures |Flat(NumberedCells(routing))| == CELL_FIELDS * |routing|
  {
    FlatLength(NumberedCells(routing), CELL_FIELDS);
  }

  lemma NumberedCellsSnoc(routing: seq<Cell>, c: Cell)
    requires CellsShaped(routing) && CellShaped(c)
    ensures CellsShaped(routing + [c])
    ensures Flat(NumberedCells(routing + [c])) == Flat(NumberedCells(routing)) + CellValues(c, |routing|)
  {
    assert NumberedCells(routing + [c])[..|routing|] == NumberedCells(routing);
  }

  ghost function NumberedCells(routing: seq<Cell>): (r: seq<seq<nat>>)
    requires CellsShaped(routing)
    ensures |r| == |routing|
  {
    seq(|routing|, b requires 0 <= b < |routing| => CellValues(routing[b], b))
  }

  method ReadLead(r: ByteReader) returns (n: U16, epoch: U64, topK: U16, supportMin: U16)
    requires r.Valid() && r.widths == [] && r.values == []
    modifies r
    ensures r.Valid() && r.widths == LEAD && r.values == [n, epoch, topK, supportMin]
  {
    n := r.U16();
    epoch := r.U64();
    topK := r.U16();
    supportMin := r.U16();
  }

  /** The fields in front, which fix the number of experts. */
  method LoadLead(r: ByteReader) returns (good: bool, n: U16, epoch: U64, ghost lead: seq<nat>)
    requires r.Valid() && r.widths == [] && r.values == []
    modifies r
    ensures r.Valid() && r.widths == LEAD && r.values == lead && LeadRead(r.data, n)
    ensures good ==> lead == [n, epoch, TOP_K, SUPPORT_MIN] && 1 <= n <= MAXE
    ensures !good ==> ParsePayload(r.data) == None
  {
    var topK, supportMin;
    n, epoch, topK, supportMin := ReadLead(r);
    lead := [n, epoch, topK, supportMin];
    LeadSize();
    assert r.ok ==> Decode(LEAD, r.data[..LEAD_BYTES]) == lead;
    assert Agrees(r.data, n, LEAD, lead);
    good := r.ok && n != 0 && n <= MAXE && topK == TOP_K && supportMin == SUPPORT_MIN;
    if r.ok && !good { LeadGivesUp(r.data, n, lead); }
  }

  method LoadPayload(data: seq<Byte>) returns (m: Option<Model>)
    ensures m == ParsePayload(data)
  {
    var r := new ByteReader(data);
    var good, n, epoch, lead := LoadLead(r);
    if !good { return None; }
    var experts: seq<Expert>;
    good, experts := LoadExperts(r, n, lead);
    if !good { return None; }
    NumberedLength(experts);
    var graph: seq<seq<Link>>;
    good, graph := LoadGraph(r, n, r.values);
    if !good { return None; }
    NumberedRowsLength(graph);
    var routing: seq<Cell>;
    good, routing := LoadCells(r, n, r.values);
    if !good { return None; }
    PayloadShape(n);
    if !r.ok || r.pos != |data| { return None; }
    assert data[..|data|] == data;
    var model := Model(experts, epoch, graph, routing);
    CheckedIsWellFormed(model, n);
    Loaded(model, data, r.values);
    return Some(model);
  }

  lemma CheckedIsWellFormed(m: Model, n: nat)
    requires n == |m.experts| && 1 <= n <= MAXE && |m.graph| == n && |m.routing| == CELLS
    requires ExpertsOk(m.experts, n) && RowsShaped(m.graph) && RowsOk(m.graph, n)
    requires CellsShaped(m.routing) && CellsOk(m.routing, n)
    ensures WellFormed(m)
  {
    forall b | 0 <= b < CELLS ensures CellOk(m.routing[b], n) && BoundStored(m.routing[b].bound) {
      assert CellLoaded(m.routing[b], n);
    }
  }

  lemma NumberedIsRecords(m: Model)
    requires Shaped(m) && ExpertsShaped(m.experts) && RowsShaped(m.graph) && CellsShaped(m.routing)
    ensures Numbered(m.experts) == ExpertRecords(m) && NumberedRows(m.graph) == GraphRecords(m)
    ensures NumberedCells(m.routing) == CellRecords(m)
  {
  }

  lemma PayloadOf(m: Model, vs: seq<nat>)
    requires Shaped(m) && vs == PayloadValues(m)
    ensures |PayloadWidths(|m.experts|)| == |vs| && Encode(PayloadWidths(|m.experts|), vs) == Payload(m)
  {
    PartsOfModel(m);
    PayloadShape(|m.experts|);
  }

  /** A well-formed model whose fields were read. */
  lemma Loaded(m: Model, data: seq<Byte>, vs: seq<nat>)
    requires WellFormed(m) && ExpertsShaped(m.experts) && RowsShaped(m.graph) && CellsShaped(m.routing)
    requires vs == [|m.experts|, m.epoch, TOP_K, SUPPORT_MIN] + Flat(Numbered(m.experts)) +
                   Flat(NumberedRows(m.graph)) + Flat(NumberedCells(m.routing))
    requires |data| == Sum(PayloadWidths(|m.experts|)) && vs == Decode(PayloadWidths(|m.experts|), data)
    ensures ParsePayload(data) == Some(m)
  {
    NumberedIsRecords(m);
    EncodeOfDecode(PayloadWidths(|m.experts|), data);
    PayloadOf(m, vs);
    ParseOfPayload(m);
  }

  // ----- the header --------------------------------------------------------------------------------------------------

  method ReadHeader(r: ByteReader) returns (v: seq<nat>)
    requires r.Valid() && r.widths == [] && r.values == []
    modifies r
    ensures r.Valid() && r.widths == HeaderWidths() && r.values == v
  {
    v := [];
    for i := 0 to 8
      invariant r.Valid() && r.widths == Same(2, i) && r.values == v
    {
      var x := r.U16();
      assert Same(2, i + 1) == Same(2, i) + [2];
      v := v + [x];
    }
    var byteOrder := r.U32();
    var size := r.U32();
    assert HeaderWidths() == Same(2, 8) + [4] + [4];
    v := v + [byteOrder] + [size];
  }

  /** The parser function, one check after the other. */
  lemma ParseCases(bytes: seq<Byte>, v: seq<nat>)
    requires HEADER <= |bytes| <= CHECKPOINT_MAX && Sum(HeaderWidths()) == 24
    requires v == Decode(HeaderWidths(), bytes[8..32])
    ensures var payload := bytes[HEADER..];
            Parse(bytes) ==
            if bytes[..8] != MAGIC || v != HeaderValues(|payload|) || bytes[32..64] != Sha256.Digest(payload) then None
            else Identified(ParsePayload(payload), bytes[32..64])
  {
    HeaderCases(bytes, bytes[HEADER..]);
    ParseWhole(bytes, ParsePayload(bytes[HEADER..]));
  }

  lemma ParseWhole(bytes: seq<Byte>, m: Option<Model>)
    requires |bytes| >= HEADER && m == ParsePayload(bytes[HEADER..])
    ensures Parse(bytes) == if FileOk(bytes) then Identified(m, bytes[32..64]) else None
  {
  }

  /** The model and its identity, or nothing. */
  method Deserialize(bytes: seq<Byte>) returns (m: Option<(Model, seq<Byte>)>)
    ensures m == Parse(bytes)
  {
    if |bytes| < HEADER || |bytes| > CHECKPOINT_MAX { return None; }
    var magic, expected, payload := bytes[..8], bytes[32..64], bytes[HEADER..];
    var r := new ByteReader(bytes[8..32]);
    var v := ReadHeader(r);
    HeaderSize();
    assert r.data[..24] == r.data;
    ParseCases(bytes, v);
    hide *;
    if magic != MAGIC || v != HeaderValues(|payload|) { return None; }
    var actual := Sha256.HashBytes(payload);
    if expected != actual { return None; }
    var model := LoadPayload(payload);
    match model {
      case None => m := None;
      case Some(value) => m := Some((value, expected));
    }
  }
}
