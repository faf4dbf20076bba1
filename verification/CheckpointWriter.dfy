/**
 * The checkpoint printer of RAVEL: a bounded byte buffer that remembers its first failure, and the
 * loops that fill it.
 */
module CheckpointWriter {
  import opened Prelude
  import opened Ravel
  import opened Words
  import opened FieldCodec
  import opened Router
  import opened CheckpointFormat
  import opened CheckpointParse
  import Sha256

  class ByteBuffer {
    const data: array<Byte>
    var len: nat
    var ok: bool
    /** Leading bytes, the fields behind them, and whether one of those was a number out of range. */
    ghost var base: seq<Byte>
    ghost var widths: seq<nat>
    ghost var values: seq<nat>
    ghost var refused: bool

    ghost predicate Valid()
      reads this, data
    {
      data.Length == CHECKPOINT_MAX && len <= data.Length && |widths| == |values| &&
      (ok ==> !refused && data[..len] == base + Encode(widths, values)) &&
      (!ok ==> refused || |base| + Sum(widths) > CHECKPOINT_MAX)
    }

    constructor ()
      ensures Valid() && ok && base == [] && widths == values == [] && !refused && fresh(data)
    {
      data := new Byte[CHECKPOINT_MAX](_ => 0);
      len, ok, base, widths, values, refused := 0, true, [], [], [], false;
    }

    /** Appends the bytes unless they do not fit or something failed before. */
    method Bytes(b: seq<Byte>)
      requires data.Length == CHECKPOINT_MAX && len <= data.Length
      modifies this`len, this`ok, data
      ensures len <= data.Length
      ensures ok == (old(ok) && |b| <= CHECKPOINT_MAX - old(len))
      ensures ok ==> data[..len] == old(data[..len]) + b
    {
      if !ok || |b| > CHECKPOINT_MAX - len {
        ok := false;
        return;
      }
      for i := 0 to |b|
        invariant len == old(len) && ok && data[..len] == old(data[..len])
        invariant data[len..len + i] == b[..i]
      {
        data[len + i] := b[i];
      }
      len := len + |b|;
    }

    /** Leading bytes, before the first field. */
    method Lead(b: seq<Byte>)
      requires Valid() && widths == []
      modifies this, data
      ensures Valid() && base == old(base) + b && widths == values == [] && refused == old(refused)
    {
      Bytes(b);
      base := base + b;
    }

    /** A field given by its bytes. */
    method Field(b: seq<Byte>, ghost w: nat, ghost v: nat)
      requires Valid() && b == Big(v, w)
      modifies this, data
      ensures Valid() && base == old(base) && widths == old(widths) + [w] && values == old(values) + [v]
      ensures refused == old(refused)
    {
      EncodeSnoc(widths, values, w, v);
      SumConcat(widths, [w]);
      SumSingle(w);
      Bytes(b);
      widths, values := widths + [w], values + [v];
    }

    method U8(v: Byte)
      requires Valid()
      modifies this, data
      ensures Valid() && base == old(base) && widths == old(widths) + [1] && values == old(values) + [v]
      ensures refused == old(refused)
    {
      OneByte(v);
      Field([v], 1, v);
    }

    method U16(v: U16)
      requires Valid()
      modifies this, data
      ensures Valid() && base == old(base) && widths == old(widths) + [2] && values == old(values) + [v]
      ensures refused == old(refused)
    {
      TwoBytes(v);
      Field([v / 256, v % 256], 2, v);
    }

    method U32(v: U32)
      requires Valid()
      modifies this, data
      ensures Valid() && base == old(base) && widths == old(widths) + [4] && values == old(values) + [v]
      ensures refused == old(refused)
    {
      FourBytes(v);
      Field([v / 0x100_0000, v / 0x1_0000 % 256, v / 256 % 256, v % 256], 4, v);
    }

    method U64(v: U64)
      requires Valid()
      modifies this, data
      ensures Valid() && base == old(base) && widths == old(widths) + [8] && values == old(values) + [v]
      ensures refused == old(refused)
    {
      var b: seq<Byte> := [];
      var rest: nat := v;
      for i := 0 to 8
        invariant |b| == i && Big(v, 8) == Big(rest, 8 - i) + b
      {
        b := [rest % 256] + b;
        rest := rest / 256;
      }
      Field(b, 8, v);
    }

    /** A signed number in units of 2^-20; numbers out of range are refused. */
    method Q20(v: int)
      requires Valid()
      modifies this, data
      ensures Valid() && base == old(base) && widths == old(widths) + [8] && values == old(values) + [ToU64(v)]
      ensures refused == (old(refused) || !Int64(v))
    {
      if !Int64(v) {
        ok, refused := false, true;
        widths, values := widths + [8], values + [ToU64(v)];
        return;
      }
      U64(ToU64(v));
    }

    method Q20s(xs: seq<int>)
      requires Valid()
      modifies this, data
      ensures Valid() && base == old(base)
      ensures widths == old(widths) + Same(8, |xs|) && values == old(values) + Unsigned(xs)
      ensures refused == (old(refused) || !AllInt64(xs))
    {
      for d := 0 to |xs|
        invariant Valid() && base == old(base)
        invariant widths == old(widths) + Same(8, d) && values == old(values) + Unsigned(xs[..d])
        invariant refused == (old(refused) || !AllInt64(xs[..d]))
      {
        Q20(xs[d]);
        assert Same(8, d + 1) == Same(8, d) + [8];
        assert Unsigned(xs[..d + 1]) == Unsigned(xs[..d]) + [ToU64(xs[d])];
        AllInt64Snoc(xs, d);
      }
      assert xs[..|xs|] == xs;
    }

    method U32s(xs: seq<U32>)
      requires Valid()
      modifies this, data
      ensures Valid() && base == old(base) && widths == old(widths) + Same(4, |xs|) && values == old(values) + xs
      ensures refused == old(refused)
    {
      for y := 0 to |xs|
        invariant Valid() && base == old(base) && widths == old(widths) + Same(4, y) && values == old(values) + xs[..y]
        invariant refused == old(refused)
      {
        U32(xs[y]);
        assert Same(4, y + 1) == Same(4, y) + [4];
      }
      assert xs[..|xs|] == xs;
    }

    method Links(ls: seq<Link>)
      requires Valid()
      modifies this, data
      ensures Valid() && base == old(base)
      ensures widths == old(widths) + LinkWidths(|ls|) && values == old(values) + LinkValues(ls)
      ensures refused == old(refused)
    {
      for i := 0 to |ls|
        invariant Valid() && base == old(base) && widths == old(widths) + LinkWidths(i)
        invariant values == old(values) + LinkValues(ls[..i])
        invariant refused == old(refused)
      {
        U16(ls[i].target);
        U32(ls[i].support);
        LinkSnoc(ls, i);
      }
      assert ls[..|ls|] == ls;
    }

    method ExpertHead(e: Expert, j: U16)
      requires Valid()
      modifies this, data
      ensures Valid() && base == old(base) && widths == old(widths) + HeadWidths()
      ensures values == old(values) + HeadValues(e, j) && refused == old(refused)
    {
      Append7(widths, 2, 1, 1, 1, 2, 1, 8);
      Append7(values, j, e.active, e.lifecycle, e.anchored, e.generation, e.classLabel, e.lineage);
      U16(j);
      U8(e.active);
      U8(e.lifecycle);
      U8(e.anchored);
      U16(e.generation);
      U8(e.classLabel);
      U64(e.lineage);
    }

    method ExpertNumbers(e: Expert)
      requires Valid()
      modifies this, data
      ensures Valid() && base == old(base)
      ensures widths == old(widths) + (Same(8, |e.key|) + Same(8, |e.decode|) + Same(8, |e.next|))
      ensures values == old(values) + (Unsigned(e.key) + Unsigned(e.decode) + Unsigned(e.next))
      ensures refused == (old(refused) || !(AllInt64(e.key) && AllInt64(e.decode) && AllInt64(e.next)))
    {
      Joined3(widths, Same(8, |e.key|), Same(8, |e.decode|), Same(8, |e.next|));
      Joined3(values, Unsigned(e.key), Unsigned(e.decode), Unsigned(e.next));
      Q20s(e.key);
      Q20s(e.decode);
      Q20s(e.next);
    }

    method ExpertCounts(e: Expert)
      requires Valid()
      modifies this, data
      ensures Valid() && base == old(base) && refused == old(refused)
      ensures widths == old(widths) + (Same(4, |e.labels|) + Same(4, |e.actionCount|) + LinkWidths(|e.transitions|))
      ensures values == old(values) + (e.labels + e.actionCount + LinkValues(e.transitions))
    {
      Joined3(widths, Same(4, |e.labels|), Same(4, |e.actionCount|), LinkWidths(|e.transitions|));
      Joined3(values, e.labels, e.actionCount, LinkValues(e.transitions));
      U32s(e.labels);
      U32s(e.actionCount);
      Links(e.transitions);
    }

    method ExpertTail(e: Expert)
      requires Valid()
      modifies this, data
      ensures Valid() && base == old(base)
      ensures widths == old(widths) + [4, 4, 8, 8]
      ensures values ==
              old(values) + [e.count, e.errors, ToU64(e.reconstructionSse), ToU64(e.predictionSse)]
      ensures refused == (old(refused) || !(Int64(e.reconstructionSse) && Int64(e.predictionSse)))
    {
      Append4(widths, 4, 4, 8, 8);
      Append4(values, e.count, e.errors, ToU64(e.reconstructionSse), ToU64(e.predictionSse));
      U32(e.count);
      U32(e.errors);
      Q20(e.reconstructionSse);
      Q20(e.predictionSse);
    }

    method ExpertRecord(e: Expert, j: U16)
      requires Valid() && ExpertShaped(e)
      modifies this, data
      ensures Valid() && base == old(base) && widths == old(widths) + ExpertWidths()
      ensures values == old(values) + ExpertValues(e, j)
      ensures refused == (old(refused) || !Storable(e))
    {
      Joined4(widths, HeadWidths(), Same(8, 8) + Same(8, 8) + Same(8, 32), Same(4, 8) + Same(4, 4) + LinkWidths(8),
              [4, 4, 8, 8]);
      Joined4(values, HeadValues(e, j), Unsigned(e.key) + Unsigned(e.decode) + Unsigned(e.next),
              e.labels + e.actionCount + LinkValues(e.transitions),
              [e.count, e.errors, ToU64(e.reconstructionSse), ToU64(e.predictionSse)]);
      ExpertLayout(e, j);
      ExpertHead(e, j);
      ExpertNumbers(e);
      ExpertCounts(e);
      ExpertTail(e);
    }

    method GraphRecord(row: seq<Link>, j: U16)
      requires Valid() && |row| == 8
      modifies this, data
      ensures Valid() && base == old(base) && widths == old(widths) + GraphWidths()
      ensures values == old(values) + GraphValues(row, j) && refused == old(refused)
    {
      U16(j);
      Links(row);
      assert GraphWidths() == [2] + LinkWidths(8) && GraphValues(row, j) == [j] + LinkValues(row);
    }

    method CellRecord(c: Cell, b: U16)
      requires Valid() && CellShaped(c)
      modifies this, data
      ensures Valid() && base == old(base) && widths == old(widths) + CellWidths()
      ensures values == old(values) + CellValues(c, b) && refused == old(refused)
    {
      U16(b);
      for i := 0 to ROUTE_K
        invariant Valid() && base == old(base) && widths == old(widths) + CellWidths()[..i + 1]
        invariant values == old(values) + CellValues(c, b)[..i + 1] && refused == old(refused)
      {
        U16(c.ids[i]);
      }
      U64(ToU64(StoredBound(c.bound)));
    }
  }

  function HeadWidths(): (ws: seq<nat>)
    ensures |ws| == 7
  {
    [2, 1, 1, 1, 2, 1, 8]
  }

  function HeadValues(e: Expert, j: nat): (v: seq<nat>)
    ensures |v| == 7
  {
    [j, e.active, e.lifecycle, e.anchored, e.generation, e.classLabel, e.lineage]
  }

  /** The runs of fields that make up the record of an expert. */
  lemma ExpertLayout(e: Expert, j: nat)
    requires ExpertShaped(e)
    ensures ExpertWidths() == HeadWidths() + (Same(8, 8) + Same(8, 8) + Same(8, 32)) +
                              (Same(4, 8) + Same(4, 4) + LinkWidths(8)) + [4, 4, 8, 8]
    ensures ExpertValues(e, j) ==
            HeadValues(e, j) + (Unsigned(e.key) + Unsigned(e.decode) + Unsigned(e.next)) +
            (e.labels + e.actionCount + LinkValues(e.transitions)) +
            [e.count, e.errors, ToU64(e.reconstructionSse), ToU64(e.predictionSse)]
  {
  }

  lemma SumSingle(w: nat)
    ensures Sum([w]) == w
  {
    assert [w][..0] == [];
  }

  lemma OneByte(v: nat)
    requires v < 256
    ensures Big(v, 1) == [v]
  {
  }

  lemma TwoBytes(v: nat)
    requires v < 0x1_0000
    ensures Big(v, 2) == [v / 256, v % 256]
  {
    OneByte(v / 256);
  }

  lemma FourBytes(v: nat)
    requires v < WORD
    ensures Big(v, 4) == [v / 0x100_0000, v / 0x1_0000 % 256, v / 256 % 256, v % 256]
  {
    var high := v / 0x1_0000;
    TwoBytes(high);
    assert high / 256 == v / 0x100_0000 && v / 256 / 256 == high;
    BigTail(v, 3);
    BigTail(v / 256, 2);
  }

  lemma BigTail(v: nat, w: nat)
    ensures Big(v, w + 1) == Big(v / 256, w) + [v % 256]
  {
  }

  function Unsigned(xs: seq<int>): (us: seq<nat>)
    ensures |us| == |xs|
  {
    seq(|xs|, i requires 0 <= i < |xs| => ToU64(xs[i]))
  }

  lemma AllInt64Snoc(xs: seq<int>, d: nat)
    requires d < |xs|
    ensures AllInt64(xs[..d + 1]) <==> AllInt64(xs[..d]) && Int64(xs[d])
  {
    assert xs[..d + 1] == xs[..d] + [xs[d]];
    if AllInt64(xs[..d + 1]) {
      assert Int64(xs[..d + 1][d]);
      forall i | 0 <= i < d ensures Int64(xs[..d][i]) { assert Int64(xs[..d + 1][i]); }
    }
  }

  function LinkValues(ls: seq<Link>): (v: seq<nat>)
    ensures |v| == 2 * |ls|
  {
    seq(2 * |ls|, i requires 0 <= i < 2 * |ls| => LinkField(ls, i))
  }

  lemma LinkSnoc(ls: seq<Link>, i: nat)
    requires i < |ls|
    ensures LinkWidths(i + 1) == LinkWidths(i) + [2] + [4]
    ensures LinkValues(ls[..i + 1]) == LinkValues(ls[..i]) + [ls[i].target] + [ls[i].support]
  {
    var v, u := LinkValues(ls[..i + 1]), LinkValues(ls[..i]) + [ls[i].target] + [ls[i].support];
    forall k | 0 <= k < 2 * i + 2 ensures v[k] == u[k] {}
  }

  // ----- the printer ------------------------------------------------------------------------------------------

  predicate AllStorable(es: seq<Expert>) { forall j :: 0 <= j < |es| ==> Storable(es[j]) }

  lemma AllStorableSnoc(es: seq<Expert>, j: nat)
    requires j < |es|
    ensures AllStorable(es[..j + 1]) <==> AllStorable(es[..j]) && Storable(es[j])
  {
    var longer := es[..j + 1];
    if AllStorable(longer) {
      assert Storable(longer[j]);
      forall i | 0 <= i < j ensures Storable(es[..j][i]) { assert Storable(longer[i]); }
    }
  }

  lemma FlatSnoc(records: seq<seq<nat>>, k: nat)
    requires k < |records|
    ensures Flat(records[..k + 1]) == Flat(records[..k]) + records[k]
  {
    assert records[..k + 1][..k] == records[..k];
  }

  lemma RowsSnoc(ws: seq<nat>, k: nat)
    ensures Flat(Rows(ws, k + 1)) == Flat(Rows(ws, k)) + ws
  {
    assert Rows(ws, k + 1)[..k] == Rows(ws, k);
  }

  method WriteExperts(m: Model, b: ByteBuffer)
    requires Shaped(m) && |m.experts| <= MAXE && b.Valid()
    modifies b, b.data
    ensures b.Valid() && b.base == old(b.base)
    ensures b.widths == old(b.widths) + Flat(Rows(ExpertWidths(), |m.experts|))
    ensures b.values == old(b.values) + Flat(ExpertRecords(m))
    ensures b.refused == (old(b.refused) || !AllStorable(m.experts))
  {
    var n := |m.experts|;
    ghost var ws, vs, er := b.widths, b.values, ExpertRecords(m);
    for j := 0 to n
      invariant b.Valid() && b.base == old(b.base)
      invariant b.widths == ws + Flat(Rows(ExpertWidths(), j)) && b.values == vs + Flat(er[..j])
      invariant b.refused == (old(b.refused) || !AllStorable(m.experts[..j]))
    {
      Joined(ws, Flat(Rows(ExpertWidths(), j)), ExpertWidths());
      Joined(vs, Flat(er[..j]), er[j]);
      b.ExpertRecord(m.experts[j], j);
      FlatSnoc(er, j);
      RowsSnoc(ExpertWidths(), j);
      AllStorableSnoc(m.experts, j);
    }
    assert er[..n] == er && m.experts[..n] == m.experts;
  }

  method WriteGraph(m: Model, b: ByteBuffer)
    requires Shaped(m) && |m.experts| <= MAXE && b.Valid()
    modifies b, b.data
    ensures b.Valid() && b.base == old(b.base) && b.refused == old(b.refused)
    ensures b.widths == old(b.widths) + Flat(Rows(GraphWidths(), |m.experts|))
    ensures b.values == old(b.values) + Flat(GraphRecords(m))
  {
    var n := |m.experts|;
    ghost var ws, vs, gr := b.widths, b.values, GraphRecords(m);
    for j := 0 to n
      invariant b.Valid() && b.base == old(b.base) && b.refused == old(b.refused)
      invariant b.widths == ws + Flat(Rows(GraphWidths(), j)) && b.values == vs + Flat(gr[..j])
    {
      Joined(ws, Flat(Rows(GraphWidths(), j)), GraphWidths());
      Joined(vs, Flat(gr[..j]), gr[j]);
      b.GraphRecord(m.graph[j], j);
      FlatSnoc(gr, j);
      RowsSnoc(GraphWidths(), j);
    }
    assert gr[..n] == gr;
  }

  method WriteCells(m: Model, b: ByteBuffer)
    requires Shaped(m) && b.Valid()
    modifies b, b.data
    ensures b.Valid() && b.base == old(b.base) && b.refused == old(b.refused)
    ensures b.widths == old(b.widths) + Flat(Rows(CellWidths(), CELLS))
    ensures b.values == old(b.values) + Flat(CellRecords(m))
  {
    ghost var ws, vs, cr := b.widths, b.values, CellRecords(m);
    for cell := 0 to CELLS
      invariant b.Valid() && b.base == old(b.base) && b.refused == old(b.refused)
      invariant b.widths == ws + Flat(Rows(CellWidths(), cell)) && b.values == vs + Flat(cr[..cell])
    {
      Joined(ws, Flat(Rows(CellWidths(), cell)), CellWidths());
      Joined(vs, Flat(cr[..cell]), cr[cell]);
      b.CellRecord(m.routing[cell], cell);
      FlatSnoc(cr, cell);
      RowsSnoc(CellWidths(), cell);
    }
    assert cr[..CELLS] == cr;
  }

  method WriteLead(m: Model, b: ByteBuffer)
    requires |m.experts| <= MAXE && b.Valid() && b.base == [] && b.widths == [] && b.values == [] && !b.refused
    modifies b, b.data
    ensures b.Valid() && b.base == [] && !b.refused && b.widths == LEAD
    ensures b.values == [|m.experts|, m.epoch, TOP_K, SUPPORT_MIN]
  {
    Append4([], 2, 8, 2, 2);
    Append4([], |m.experts|, m.epoch, TOP_K, SUPPORT_MIN);
    b.U16(|m.experts|);
    b.U64(m.epoch);
    b.U16(TOP_K);
    b.U16(SUPPORT_MIN);
  }

  method WritePayload(m: Model, b: ByteBuffer)
    requires Shaped(m) && |m.experts| <= MAXE
    requires b.Valid() && b.base == [] && b.widths == [] && b.values == [] && !b.refused
    modifies b, b.data
    ensures b.Valid() && b.base == [] && b.widths == PayloadWidths(|m.experts|) && b.values == PayloadValues(m)
    ensures b.refused == !AllStorable(m.experts)
  {
    WriteLead(m, b);
    WriteExperts(m, b);
    WriteGraph(m, b);
    WriteCells(m, b);
  }

  method WriteVersion(b: ByteBuffer)
    requires b.Valid() && b.base == [] && b.widths == [] && b.values == [] && !b.refused
    modifies b, b.data
    ensures b.Valid() && b.base == MAGIC && !b.refused
    ensures b.widths == [2, 2, 2, 2] && b.values == [SCHEMA, D, CLASSES, ACTIONS]
  {
    Append4([], 2, 2, 2, 2);
    Append4([], SCHEMA, D, CLASSES, ACTIONS);
    b.Lead(MAGIC);
    b.U16(SCHEMA);
    b.U16(D);
    b.U16(CLASSES);
    b.U16(ACTIONS);
  }

  method WriteHeader(size: U32, b: ByteBuffer)
    requires b.Valid() && b.base == [] && b.widths == [] && b.values == [] && !b.refused
    modifies b, b.data
    ensures b.Valid() && b.base == MAGIC && !b.refused
    ensures b.widths == HeaderWidths() && b.values == HeaderValues(size)
  {
    Append6([2, 2, 2, 2], 2, 2, 2, 2, 4, 4);
    Append6([SCHEMA, D, CLASSES, ACTIONS], STATES, MAXE, ROUTE_K, CELLS, BYTE_ORDER, size);
    HeaderParts(size);
    WriteVersion(b);
    b.U16(STATES);
    b.U16(MAXE);
    b.U16(ROUTE_K);
    b.U16(CELLS);
    b.U32(BYTE_ORDER);
    b.U32(size);
  }

  lemma HeaderParts(size: nat)
    ensures HeaderWidths() == [2, 2, 2, 2] + [2, 2, 2, 2, 4, 4]
    ensures HeaderValues(size) ==
            [SCHEMA, D, CLASSES, ACTIONS] + [STATES, MAXE, ROUTE_K, CELLS, BYTE_ORDER, size]
  {
  }

  /** Puts the header before a payload. */
  method Seal(body: seq<Byte>) returns (checkpoint: Option<seq<Byte>>)
    requires |body| < WORD
    ensures checkpoint == if HEADER + |body| <= CHECKPOINT_MAX then Some(File(body)) else None
  {
    var digest := Sha256.HashBytes(body);
    var b := new ByteBuffer();
    WriteHeader(|body|, b);
    HeaderSize();
    Sha256.DigestLength(body);
    b.Bytes(digest);
    b.Bytes(body);
    if !b.ok { return None; }
    assert b.data[..b.len] == MAGIC + Encode(HeaderWidths(), HeaderValues(|body|)) + digest + body;
    return Some(b.data[..b.len]);
  }

  /** Fails for an empty or oversized model and for numbers out of range, and for nothing else. */
  method Serialize(m: Model) returns (checkpoint: Option<seq<Byte>>)
    requires Shaped(m)
    ensures checkpoint == if 1 <= |m.experts| <= MAXE && AllStorable(m.experts) then Some(Print(m)) else None
  {
    var n := |m.experts|;
    if n == 0 || n > MAXE { return None; }
    var payload := new ByteBuffer();
    WritePayload(m, payload);
    PayloadShape(n);
    if !payload.ok { return None; }
    var body := payload.data[..payload.len];
    assert body == Payload(m);
    checkpoint := Seal(body);
  }
}
