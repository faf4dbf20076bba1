/** The checkpoint file byte by byte: where every number lies and how wide it is, high byte first. */
module CheckpointBytes {
  import opened Ravel
  import opened Words
  import opened FieldCodec
  import opened Router
  import opened CheckpointFormat
  import opened CheckpointParse
  import Sha256

  // ----- numbers in a file --------------------------------------------------------------------------------------

  /** The number in `w` bytes from `at` on, high byte first. */
  function NumberAt(f: seq<Byte>, at: nat, w: nat): nat
    requires at + w <= |f|
  {
    if w == 0 then 0 else 256 * NumberAt(f, at, w - 1) + f[at + w - 1] as int
  }

  predicate Stores(f: seq<Byte>, at: nat, w: nat, v: nat) { at + w <= |f| && NumberAt(f, at, w) == v }

  lemma {:induction false} NumberIsValue(f: seq<Byte>, at: nat, w: nat)
    requires at + w <= |f|
    ensures NumberAt(f, at, w) == Value(f[at..at + w])
  {
    if w > 0 {
      NumberIsValue(f, at, w - 1);
      assert f[at..at + w][..w - 1] == f[at..at + w - 1];
    }
  }

  lemma {:induction false} EncodeConcat(ws: seq<nat>, vs: seq<nat>, us: seq<nat>, xs: seq<nat>)
    requires |ws| == |vs| && |us| == |xs|
    ensures Encode(ws + us, vs + xs) == Encode(ws, vs) + Encode(us, xs)
  {
    if us == [] {
      assert ws + us == ws && vs + xs == vs;
      assert Encode(ws, vs) + Encode(us, xs) == Encode(ws, vs);
    } else {
      var k := |us| - 1;
      EncodeConcat(ws, vs, us[..k], xs[..k]);
      assert us == us[..k] + [us[k]] && xs == xs[..k] + [xs[k]];
      assert ws + us == ws + us[..k] + [us[k]] && vs + xs == vs + xs[..k] + [xs[k]];
      EncodeSnoc(ws + us[..k], vs + xs[..k], us[k], xs[k]);
      EncodeSnoc(us[..k], xs[..k], us[k], xs[k]);
      Joined(Encode(ws, vs), Encode(us[..k], xs[..k]), Big(xs[k], us[k]));
    }
  }

  /** A field lies behind the widths of the fields before it. */
  lemma FieldAt(ws: seq<nat>, vs: seq<nat>, i: nat)
    requires |ws| == |vs| && i < |ws| && vs[i] < Pow256(ws[i])
    ensures Stores(Encode(ws, vs), Sum(ws[..i]), ws[i], vs[i])
  {
    hide *;
    var before, behind := Encode(ws[..i], vs[..i]), Encode(ws[i + 1..], vs[i + 1..]);
    Cut(ws, i);
    Cut(vs, i);
    EncodeConcat(ws[..i] + [ws[i]], vs[..i] + [vs[i]], ws[i + 1..], vs[i + 1..]);
    EncodeSnoc(ws[..i], vs[..i], ws[i], vs[i]);
    Middle(before, Big(vs[i], ws[i]), behind);
    ValueOfBig(vs[i], ws[i]);
    StoresIff(Encode(ws, vs), |before|, ws[i], vs[i]);
  }

  lemma StoresIff(f: seq<Byte>, at: nat, w: nat, v: nat)
    ensures Stores(f, at, w, v) <==> at + w <= |f| && Value(f[at..at + w]) == v
  {
    if at + w <= |f| { NumberIsValue(f, at, w); }
  }

  lemma Cut<T>(s: seq<T>, i: nat)
    requires i < |s|
    ensures s == s[..i] + [s[i]] + s[i + 1..]
  {
  }

  lemma Middle<T>(a: seq<T>, b: seq<T>, c: seq<T>)
    ensures |a| + |b| <= |a + b + c| && (a + b + c)[|a|..|a| + |b|] == b
  {
  }

  /** A number in the middle of a file. */
  lemma StoredWithin(a: seq<Byte>, b: seq<Byte>, c: seq<Byte>, at: nat, w: nat, v: nat)
    requires Stores(b, at, w, v)
    ensures Stores(a + b + c, |a| + at, w, v)
  {
    var f := a + b + c;
    NumberIsValue(f, |a| + at, w);
    NumberIsValue(b, at, w);
    assert f[|a| + at..|a| + at + w] == b[at..at + w];
  }

  lemma {:induction false} RowsSnoc(ws: seq<nat>, n: nat)
    requires n > 0
    ensures Flat(Rows(ws, n)) == Flat(Rows(ws, n - 1)) + ws
  {
    assert Rows(ws, n)[..n - 1] == Rows(ws, n - 1);
  }

  lemma {:induction false} RowsLength(ws: seq<nat>, n: nat)
    ensures |Flat(Rows(ws, n))| == |ws| * n && Sum(Flat(Rows(ws, n))) == Sum(ws) * n
  {
    FlatLength(Rows(ws, n), |ws|);
    SumFlat(Rows(ws, n), Sum(ws));
  }

  function Records(ws: seq<nat>, records: seq<seq<nat>>): (b: seq<Byte>)
    requires Uniform(records, |ws|)
    ensures |b| == Sum(ws) * |records|
  {
    RowsLength(ws, |records|);
    FlatLength(records, |ws|);
    Encode(Flat(Rows(ws, |records|)), Flat(records))
  }

  lemma RecordsSnoc(ws: seq<nat>, records: seq<seq<nat>>)
    requires Uniform(records, |ws|) && records != []
    ensures var k := |records| - 1;
            Uniform(records[..k], |ws|) && |records[k]| == |ws| &&
            Records(ws, records) == Records(ws, records[..k]) + Encode(ws, records[k])
  {
    var k := |records| - 1;
    RowsLength(ws, k);
    FlatLength(records[..k], |ws|);
    RowsSnoc(ws, k + 1);
    EncodeConcat(Flat(Rows(ws, k)), Flat(records[..k]), ws, records[k]);
  }

  /** Record `j` of records of `s` bytes each. */
  lemma {:induction false} RecordAt(ws: seq<nat>, s: nat, records: seq<seq<nat>>, j: nat)
    requires Sum(ws) == s && Uniform(records, |ws|) && j < |records|
    ensures s * j + s <= |Records(ws, records)|
    ensures Records(ws, records)[s * j..s * j + s] == Encode(ws, records[j])
  {
    hide Records, Encode;
    var k := |records| - 1;
    RecordsSnoc(ws, records);
    OneMore(s, k);
    var f, last := Records(ws, records[..k]), Encode(ws, records[k]);
    if j < k {
      RecordAt(ws, s, records[..k], j);
      InFront(f, last, s * j, s * j + s);
    } else {
      Behind(f, last, s * k);
    }
  }

  lemma InFront<T>(a: seq<T>, b: seq<T>, i: nat, j: nat)
    requires i <= j <= |a|
    ensures (a + b)[i..j] == a[i..j]
  {
  }

  lemma Behind<T>(a: seq<T>, b: seq<T>, n: nat)
    requires |a| == n
    ensures (a + b)[n..n + |b|] == b
  {
  }

  lemma OneMore(s: nat, j: nat)
    ensures s * (j + 1) == s * j + s
  {
  }

  // ----- the parts of a payload ---------------------------------------------------------------------------------

  /** Number of experts, epoch, transitions per action, least support; experts; graph rows; cells. */
  lemma PayloadParts(m: Model)
    requires Shaped(m)
    ensures Uniform(ExpertRecords(m), 87) && Uniform(GraphRecords(m), 17) && Uniform(CellRecords(m), 10)
    ensures Payload(m) ==
            Encode([2, 8, 2, 2], [|m.experts|, m.epoch, 2, 2]) + Records(ExpertWidths(), ExpertRecords(m)) +
            Records(GraphWidths(), GraphRecords(m)) + Records(CellWidths(), CellRecords(m))
  {
    var n := |m.experts|;
    var e, g, c := ExpertRecords(m), GraphRecords(m), CellRecords(m);
    var we, wg, wc := Flat(Rows(ExpertWidths(), n)), Flat(Rows(GraphWidths(), n)), Flat(Rows(CellWidths(), CELLS));
    var lead := [|m.experts|, m.epoch, TOP_K, SUPPORT_MIN];
    RowsLength(ExpertWidths(), n);
    RowsLength(GraphWidths(), n);
    RowsLength(CellWidths(), CELLS);
    FlatLength(e, 87);
    FlatLength(g, 17);
    FlatLength(c, 10);
    hide Encode, Flat, Rows;
    EncodeConcat(LEAD, lead, we, Flat(e));
    EncodeConcat(LEAD + we, lead + Flat(e), wg, Flat(g));
    EncodeConcat(LEAD + we + wg, lead + Flat(e) + Flat(g), wc, Flat(c));
  }

  // ----- an expert ----------------------------------------------------------------------------------------------

  /** Where field `i` of an expert lies in its record. */
  function ExpertOffset(i: nat): nat {
    if i == 0 then 0 else if i <= 4 then i + 1 else if i == 5 then 7 else if i == 6 then 8
    else if i < 55 then 16 + 8 * (i - 7) else if i < 67 then 400 + 4 * (i - 55)
    else if i < 83 then 448 + 6 * ((i - 67) / 2) + (if i % 2 == 1 then 0 else 2)
    else if i < 85 then 496 + 4 * (i - 83) else 504 + 8 * (i - 85)
  }

  lemma OffsetStep(i: nat)
    requires i < 87
    ensures ExpertOffset(i + 1) == ExpertOffset(i) + ExpertWidth(i) && ExpertOffset(0) == 0
  {
  }

  lemma {:induction false} ExpertOffsetIs(i: nat)
    requires i <= 87
    ensures Sum(ExpertWidths()[..i]) == ExpertOffset(i)
  {
    if i > 0 {
      ExpertOffsetIs(i - 1);
      OffsetStep(i - 1);
      assert ExpertWidths()[..i][..i - 1] == ExpertWidths()[..i - 1];
    }
  }

  lemma ExpertFieldStored(e: Expert, j: nat, i: nat)
    requires ExpertShaped(e) && Storable(e) && j < 0x1_0000 && i < 87
    ensures Stores(Encode(ExpertWidths(), ExpertValues(e, j)), ExpertOffset(i), ExpertWidth(i), ExpertField(e, j, i))
  {
    hide Encode, ExpertRanges, ExpertOffset, Stores, Sum, Pow256, ExpertWidth;
    ExpertBack(e, j);
    FitsExpert(ExpertValues(e, j));
    ExpertOffsetIs(i);
    FieldAt(ExpertWidths(), ExpertValues(e, j), i);
  }

  /** The record of an expert from `at` on. */
  ghost predicate ExpertStored(f: seq<Byte>, at: nat, e: Expert, j: nat)
    requires ExpertShaped(e)
  {
    Stores(f, at, 2, j) && Stores(f, at + 2, 1, e.active) && Stores(f, at + 3, 1, e.lifecycle) &&
    Stores(f, at + 4, 1, e.anchored) && Stores(f, at + 5, 2, e.generation) && Stores(f, at + 7, 1, e.classLabel) &&
    Stores(f, at + 8, 8, e.lineage) && SignedsAt(f, at + 16, e.key) && SignedsAt(f, at + 80, e.decode) &&
    SignedsAt(f, at + 144, e.next) && WordsAt(f, at + 400, e.labels) && WordsAt(f, at + 432, e.actionCount) &&
    LinksAt(f, at + 448, e.transitions) && Stores(f, at + 496, 4, e.count) && Stores(f, at + 500, 4, e.errors) &&
    SignedsAt(f, at + 504, [e.reconstructionSse, e.predictionSse])
  }

  /** Signed numbers are stored modulo 2^64. */
  ghost predicate SignedsAt(f: seq<Byte>, at: nat, vs: seq<int>) {
    forall d :: 0 <= d < |vs| ==> SignedAt(f, at, d, vs)
  }

  predicate SignedAt(f: seq<Byte>, at: nat, d: nat, vs: seq<int>)
    requires d < |vs|
  {
    Stores(f, at + 8 * d, 8, vs[d] % 18446744073709551616)
  }

  ghost predicate WordsAt(f: seq<Byte>, at: nat, vs: seq<U32>) { forall y :: 0 <= y < |vs| ==> WordAt(f, at, y, vs) }

  predicate WordAt(f: seq<Byte>, at: nat, y: nat, vs: seq<U32>)
    requires y < |vs|
  {
    Stores(f, at + 4 * y, 4, vs[y])
  }

  /** Transitions, each a target and its support. */
  ghost predicate LinksAt(f: seq<Byte>, at: nat, links: seq<Link>) {
    forall i :: 0 <= i < |links| ==> LinkAt(f, at, i, links)
  }

  predicate LinkAt(f: seq<Byte>, at: nat, i: nat, links: seq<Link>)
    requires i < |links|
  {
    Stores(f, at + 6 * i, 2, links[i].target) && Stores(f, at + 6 * i + 2, 4, links[i].support)
  }

  predicate FieldStored(f: seq<Byte>, e: Expert, j: nat, i: nat)
    requires ExpertShaped(e) && i < 87
  {
    Stores(f, ExpertOffset(i), ExpertWidth(i), ExpertField(e, j, i))
  }

  lemma ExpertRecordStored(e: Expert, j: nat)
    requires ExpertShaped(e) && Storable(e) && j < 0x1_0000
    ensures ExpertStored(Encode(ExpertWidths(), ExpertValues(e, j)), 0, e, j)
  {
    hide *;
    var f := Encode(ExpertWidths(), ExpertValues(e, j));
    forall i | 0 <= i < 87 ensures FieldStored(f, e, j, i) {
      ExpertFieldStored(e, j, i);
      FieldIs(f, e, j, i);
    }
    SingleFields(f, e, j);
    SignedFields(f, e, j);
    CountFields(f, e, j);
    LinkFields(f, e, j);
    ExpertStoredIs(f, e, j);
  }

  lemma FieldIs(f: seq<Byte>, e: Expert, j: nat, i: nat)
    requires ExpertShaped(e) && i < 87
    ensures FieldStored(f, e, j, i) <==> Stores(f, ExpertOffset(i), ExpertWidth(i), ExpertField(e, j, i))
  {
  }

  lemma SingleFields(f: seq<Byte>, e: Expert, j: nat)
    requires ExpertShaped(e) && forall i :: 0 <= i < 87 ==> FieldStored(f, e, j, i)
    ensures Stores(f, 0, 2, j) && Stores(f, 2, 1, e.active) && Stores(f, 3, 1, e.lifecycle)
    ensures Stores(f, 4, 1, e.anchored) && Stores(f, 5, 2, e.generation) && Stores(f, 7, 1, e.classLabel)
    ensures Stores(f, 8, 8, e.lineage) && Stores(f, 496, 4, e.count) && Stores(f, 500, 4, e.errors)
  {
    hide Stores;
    assert FieldStored(f, e, j, 0) && FieldStored(f, e, j, 1) && FieldStored(f, e, j, 2);
    assert FieldStored(f, e, j, 3) && FieldStored(f, e, j, 4) && FieldStored(f, e, j, 5);
    assert FieldStored(f, e, j, 6) && FieldStored(f, e, j, 83) && FieldStored(f, e, j, 84);
  }

  lemma SignedFields(f: seq<Byte>, e: Expert, j: nat)
    requires ExpertShaped(e) && forall i :: 0 <= i < 87 ==> FieldStored(f, e, j, i)
    ensures SignedsAt(f, 16, e.key) && SignedsAt(f, 80, e.decode) && SignedsAt(f, 144, e.next)
    ensures SignedsAt(f, 504, [e.reconstructionSse, e.predictionSse])
  {
    hide Stores;
    forall d | 0 <= d < 8 ensures SignedAt(f, 16, d, e.key) { assert FieldStored(f, e, j, 7 + d); }
    forall d | 0 <= d < 8 ensures SignedAt(f, 80, d, e.decode) { assert FieldStored(f, e, j, 15 + d); }
    forall d | 0 <= d < 32 ensures SignedAt(f, 144, d, e.next) { assert FieldStored(f, e, j, 23 + d); }
    assert FieldStored(f, e, j, 85) && FieldStored(f, e, j, 86);
  }

  lemma CountFields(f: seq<Byte>, e: Expert, j: nat)
    requires ExpertShaped(e) && forall i :: 0 <= i < 87 ==> FieldStored(f, e, j, i)
    ensures WordsAt(f, 400, e.labels) && WordsAt(f, 432, e.actionCount)
  {
    hide Stores;
    forall y | 0 <= y < 8 ensures WordAt(f, 400, y, e.labels) { assert FieldStored(f, e, j, 55 + y); }
    forall a | 0 <= a < 4 ensures WordAt(f, 432, a, e.actionCount) { assert FieldStored(f, e, j, 63 + a); }
  }

  lemma LinkFields(f: seq<Byte>, e: Expert, j: nat)
    requires ExpertShaped(e) && forall i :: 0 <= i < 87 ==> FieldStored(f, e, j, i)
    ensures LinksAt(f, 448, e.transitions)
  {
    hide Stores;
    forall i | 0 <= i < 8 ensures LinkAt(f, 448, i, e.transitions) {
      assert FieldStored(f, e, j, 67 + 2 * i) && FieldStored(f, e, j, 68 + 2 * i);
    }
  }

  lemma ExpertStoredIs(f: seq<Byte>, e: Expert, j: nat)
    requires ExpertShaped(e)
    ensures ExpertStored(f, 0, e, j) <==>
            Stores(f, 0, 2, j) && Stores(f, 2, 1, e.active) && Stores(f, 3, 1, e.lifecycle) &&
            Stores(f, 4, 1, e.anchored) && Stores(f, 5, 2, e.generation) && Stores(f, 7, 1, e.classLabel) &&
            Stores(f, 8, 8, e.lineage) && Stores(f, 496, 4, e.count) && Stores(f, 500, 4, e.errors) &&
            SignedsAt(f, 16, e.key) && SignedsAt(f, 80, e.decode) && SignedsAt(f, 144, e.next) &&
            SignedsAt(f, 504, [e.reconstructionSse, e.predictionSse]) && WordsAt(f, 400, e.labels) &&
            WordsAt(f, 432, e.actionCount) && LinksAt(f, 448, e.transitions)
  {
    hide Stores, SignedsAt, WordsAt, LinksAt;
  }

  // ----- graph rows and cells -----------------------------------------------------------------------------------

  ghost predicate RowStored(f: seq<Byte>, at: nat, row: seq<Link>, j: nat) {
    Stores(f, at, 2, j) && LinksAt(f, at + 2, row)
  }

  /** An absent bound is stored as the largest signed number. */
  ghost predicate CellStored(f: seq<Byte>, at: nat, c: Cell, b: nat)
    requires |c.ids| == 8
  {
    Stores(f, at, 2, b) && (forall i :: 0 <= i < 8 ==> 0 <= c.ids[i] && IdAt(f, at, i, c.ids)) &&
    SignedsAt(f, at + 18, [if c.bound.Unbounded? then 9223372036854775807 else c.bound.value])
  }

  predicate IdAt(f: seq<Byte>, at: nat, i: nat, ids: seq<int>)
    requires i < |ids| && 0 <= ids[i]
  {
    Stores(f, at + 2 + 2 * i, 2, ids[i])
  }

  lemma {:induction false} GraphOffset(i: nat)
    requires i <= 17
    ensures Sum(GraphWidths()[..i]) ==
            if i == 0 then 0 else 2 + 6 * ((i - 1) / 2) + if i % 2 == 1 then 0 else 2
  {
    if i > 0 {
      GraphOffset(i - 1);
      assert GraphWidths()[..i][..i - 1] == GraphWidths()[..i - 1];
    }
  }

  lemma GraphFieldStored(row: seq<Link>, j: nat, i: nat)
    requires |row| == 8 && j < 0x1_0000 && i < 17
    ensures Stores(Encode(GraphWidths(), GraphValues(row, j)), Sum(GraphWidths()[..i]), GraphWidths()[i],
                   GraphValues(row, j)[i])
  {
    hide Encode, Stores, Sum, Pow256;
    GraphBack(row, j);
    FitsGraph(GraphValues(row, j));
    FieldAt(GraphWidths(), GraphValues(row, j), i);
  }

  lemma RowRecordStored(row: seq<Link>, j: nat)
    requires |row| == 8 && j < 0x1_0000
    ensures RowStored(Encode(GraphWidths(), GraphValues(row, j)), 0, row, j)
  {
    hide Stores, Encode, Sum;
    var f := Encode(GraphWidths(), GraphValues(row, j));
    GraphFieldStored(row, j, 0);
    GraphOffset(0);
    forall i | 0 <= i < 8 ensures LinkAt(f, 2, i, row) {
      GraphFieldStored(row, j, 1 + 2 * i);
      GraphFieldStored(row, j, 2 + 2 * i);
      GraphOffset(1 + 2 * i);
      GraphOffset(2 + 2 * i);
    }
  }

  lemma {:induction false} CellOffset(i: nat)
    requires i <= 9
    ensures Sum(CellWidths()[..i]) == 2 * i
  {
    if i > 0 {
      CellOffset(i - 1);
      assert CellWidths()[..i][..i - 1] == CellWidths()[..i - 1];
    }
  }

  lemma CellFieldStored(c: Cell, b: nat, i: nat)
    requires CellShaped(c) && BoundStored(c.bound) && b < 0x1_0000 && i < 10
    ensures Stores(Encode(CellWidths(), CellValues(c, b)), 2 * i, if i < 9 then 2 else 8, CellValues(c, b)[i])
  {
    hide Encode, Stores, Sum, Pow256;
    CellBack(c, b);
    FitsCell(CellValues(c, b));
    CellOffset(i);
    FieldAt(CellWidths(), CellValues(c, b), i);
  }

  lemma CellRecordStored(c: Cell, b: nat)
    requires CellShaped(c) && BoundStored(c.bound) && b < 0x1_0000
    ensures CellStored(Encode(CellWidths(), CellValues(c, b)), 0, c, b)
  {
    hide Stores, Encode;
    var f := Encode(CellWidths(), CellValues(c, b));
    CellFieldStored(c, b, 0);
    CellFieldStored(c, b, 9);
    forall i | 0 <= i < 8 ensures 0 <= c.ids[i] && IdAt(f, 0, i, c.ids) { CellFieldStored(c, b, i + 1); }
  }

  // ----- the file -----------------------------------------------------------------------------------------------

  lemma Within(a: seq<Byte>, b: seq<Byte>, c: seq<Byte>)
    ensures forall at, w, v :: Stores(b, at, w, v) ==> Stores(a + b + c, |a| + at, w, v)
  {
    forall at, w, v | Stores(b, at, w, v) ensures Stores(a + b + c, |a| + at, w, v) {
      StoredWithin(a, b, c, at, w, v);
    }
  }

  /** What lies in a piece of a file lies in the file. */
  lemma Piece(f: seq<Byte>, at: nat, b: seq<Byte>)
    requires at + |b| <= |f| && f[at..at + |b|] == b
    ensures forall i, w, v :: Stores(b, i, w, v) ==> Stores(f, at + i, w, v)
  {
    var front, behind := f[..at], f[at + |b|..];
    assert f == front + b + behind;
    Within(front, b, behind);
  }

  lemma SignedsMoved(f: seq<Byte>, at: nat, b: seq<Byte>, i: nat, vs: seq<int>)
    requires (forall i, w, v :: Stores(b, i, w, v) ==> Stores(f, at + i, w, v)) && SignedsAt(b, i, vs)
    ensures SignedsAt(f, at + i, vs)
  {
    hide Stores;
    var there := at + i;
    forall d | 0 <= d < |vs| ensures SignedAt(f, there, d, vs) { assert SignedAt(b, i, d, vs); }
  }

  lemma WordsMoved(f: seq<Byte>, at: nat, b: seq<Byte>, i: nat, vs: seq<U32>)
    requires (forall i, w, v :: Stores(b, i, w, v) ==> Stores(f, at + i, w, v)) && WordsAt(b, i, vs)
    ensures WordsAt(f, at + i, vs)
  {
    hide Stores;
    var there := at + i;
    forall y | 0 <= y < |vs| ensures WordAt(f, there, y, vs) { assert WordAt(b, i, y, vs); }
  }

  lemma LinksMoved(f: seq<Byte>, at: nat, b: seq<Byte>, i: nat, links: seq<Link>)
    requires (forall i, w, v :: Stores(b, i, w, v) ==> Stores(f, at + i, w, v)) && LinksAt(b, i, links)
    ensures LinksAt(f, at + i, links)
  {
    hide Stores;
    var there := at + i;
    forall k | 0 <= k < |links| ensures LinkAt(f, there, k, links) { assert LinkAt(b, i, k, links); }
  }

  lemma ExpertMoved(f: seq<Byte>, at: nat, b: seq<Byte>, e: Expert, j: nat)
    requires ExpertShaped(e) && (forall i, w, v :: Stores(b, i, w, v) ==> Stores(f, at + i, w, v))
    requires ExpertStored(b, 0, e, j)
    ensures ExpertStored(f, at, e, j)
  {
    hide Stores, SignedsAt, WordsAt, LinksAt;
    SignedsMoved(f, at, b, 16, e.key);
    SignedsMoved(f, at, b, 80, e.decode);
    SignedsMoved(f, at, b, 144, e.next);
    SignedsMoved(f, at, b, 504, [e.reconstructionSse, e.predictionSse]);
    WordsMoved(f, at, b, 400, e.labels);
    WordsMoved(f, at, b, 432, e.actionCount);
    LinksMoved(f, at, b, 448, e.transitions);
  }

  lemma RowMoved(f: seq<Byte>, at: nat, b: seq<Byte>, row: seq<Link>, j: nat)
    requires (forall i, w, v :: Stores(b, i, w, v) ==> Stores(f, at + i, w, v)) && RowStored(b, 0, row, j)
    ensures RowStored(f, at, row, j)
  {
    hide Stores, LinksAt;
    LinksMoved(f, at, b, 2, row);
  }

  lemma CellMoved(f: seq<Byte>, at: nat, b: seq<Byte>, c: Cell, k: nat)
    requires |c.ids| == 8 && (forall i, w, v :: Stores(b, i, w, v) ==> Stores(f, at + i, w, v))
    requires CellStored(b, 0, c, k)
    ensures CellStored(f, at, c, k)
  {
    hide Stores, SignedsAt;
    SignedsMoved(f, at, b, 18, [if c.bound.Unbounded? then 9223372036854775807 else c.bound.value]);
    forall i | 0 <= i < 8 ensures 0 <= c.ids[i] && IdAt(f, at, i, c.ids) { assert IdAt(b, 0, i, c.ids); }
  }

  /** The file in pieces: header, lead, experts, rows, cells. */
  lemma FileParts(m: Model) returns (head: seq<Byte>, lead: seq<Byte>, e: seq<Byte>, g: seq<Byte>, c: seq<Byte>)
    requires Shaped(m)
    ensures |head| == 64 && |lead| == 14 && |e| == 520 * |m.experts| && |g| == 50 * |m.experts| && |c| == 26 * 256
    ensures Print(m) == head + (lead + e + g + c) && Payload(m) == lead + e + g + c
    ensures lead == Encode([2, 8, 2, 2], [|m.experts|, m.epoch, 2, 2])
    ensures Uniform(ExpertRecords(m), 87) && Uniform(GraphRecords(m), 17) && Uniform(CellRecords(m), 10)
    ensures e == Records(ExpertWidths(), ExpertRecords(m)) && g == Records(GraphWidths(), GraphRecords(m))
    ensures c == Records(CellWidths(), CellRecords(m))
  {
    hide Records, Encode, ExpertRecords, GraphRecords, CellRecords;
    PayloadParts(m);
    LeadSize();
    ExpertSize();
    EdgeSize();
    CellSize();
    FilePieces(Payload(m));
    head := Print(m)[..64];
    lead := Encode([2, 8, 2, 2], [|m.experts|, m.epoch, 2, 2]);
    e, g := Records(ExpertWidths(), ExpertRecords(m)), Records(GraphWidths(), GraphRecords(m));
    c := Records(CellWidths(), CellRecords(m));
  }

  lemma SliceOfPiece(a: seq<Byte>, b: seq<Byte>, c: seq<Byte>, i: nat, j: nat)
    requires i <= j <= |b|
    ensures (a + b + c)[|a| + i..|a| + j] == b[i..j]
  {
  }

  /** Expert `j` lies 78 bytes and `j` records into the file. */
  lemma ExpertLayout(m: Model, j: nat)
    requires WellFormed(m) && j < |m.experts|
    ensures ExpertStored(Print(m), 78 + 520 * j, m.experts[j], j)
  {
    hide *;
    ModelParts(m, j);
    var head, lead, e, g, c := FileParts(m);
    var b := Encode(ExpertWidths(), ExpertValues(m.experts[j], j));
    ExpertSize();
    RecordAt(ExpertWidths(), 520, ExpertRecords(m), j);
    ExpertRecordStored(m.experts[j], j);
    SliceOfPiece(head + lead, e, g + c, 520 * j, 520 * j + 520);
    Five(head, lead, e, g, c);
    Piece(Print(m), 78 + 520 * j, b);
    ExpertMoved(Print(m), 78 + 520 * j, b, m.experts[j], j);
  }

  lemma Five<T>(head: seq<T>, lead: seq<T>, e: seq<T>, g: seq<T>, c: seq<T>)
    ensures head + (lead + e + g + c) == head + lead + e + (g + c)
    ensures head + (lead + e + g + c) == head + lead + e + g + c
    ensures head + (lead + e + g + c) == head + lead + e + g + c + []
  {
  }

  lemma ModelParts(m: Model, j: nat)
    requires WellFormed(m) && j < |m.experts|
    ensures Shaped(m) && |m.graph| == |m.experts| <= 80 && j < 0x1_0000
    ensures ExpertShaped(m.experts[j]) && Storable(m.experts[j]) && |m.graph[j]| == 8
    ensures |ExpertRecords(m)| == |m.experts| && ExpertRecords(m)[j] == ExpertValues(m.experts[j], j)
    ensures |GraphRecords(m)| == |m.experts| && GraphRecords(m)[j] == GraphValues(m.graph[j], j)
    ensures |ExpertWidths()| == 87 && |GraphWidths()| == 17
  {
  }

  lemma CellParts(m: Model, b: nat)
    requires WellFormed(m) && b < 256
    ensures Shaped(m) && |m.routing| == 256 && CellShaped(m.routing[b]) && BoundStored(m.routing[b].bound)
    ensures |CellRecords(m)| == 256 && CellRecords(m)[b] == CellValues(m.routing[b], b) && |CellWidths()| == 10
  {
  }

  /** The graph rows follow the experts. */
  lemma RowLayout(m: Model, j: nat)
    requires WellFormed(m) && j < |m.experts|
    ensures RowStored(Print(m), 78 + 520 * |m.experts| + 50 * j, m.graph[j], j)
  {
    hide *;
    ModelParts(m, j);
    var head, lead, e, g, c := FileParts(m);
    var b := Encode(GraphWidths(), GraphValues(m.graph[j], j));
    EdgeSize();
    RecordAt(GraphWidths(), 50, GraphRecords(m), j);
    RowRecordStored(m.graph[j], j);
    SliceOfPiece(head + lead + e, g, c, 50 * j, 50 * j + 50);
    Five(head, lead, e, g, c);
    Piece(Print(m), 78 + 520 * |m.experts| + 50 * j, b);
    RowMoved(Print(m), 78 + 520 * |m.experts| + 50 * j, b, m.graph[j], j);
  }

  /** And the cells follow the rows, up to the end of the file. */
  lemma CellLayout(m: Model, b: nat)
    requires WellFormed(m) && b < 256
    ensures |Print(m)| == 78 + 570 * |m.experts| + 26 * 256
    ensures CellShaped(m.routing[b]) && CellStored(Print(m), 78 + 570 * |m.experts| + 26 * b, m.routing[b], b)
  {
    hide *;
    CellParts(m, b);
    var head, lead, e, g, c := FileParts(m);
    var r := Encode(CellWidths(), CellValues(m.routing[b], b));
    CellSize();
    RecordAt(CellWidths(), 26, CellRecords(m), b);
    CellRecordStored(m.routing[b], b);
    SliceOfPiece(head + lead + e + g, c, [], 26 * b, 26 * b + 26);
    Five(head, lead, e, g, c);
    EightIds(m.routing[b]);
    Piece(Print(m), 78 + 570 * |m.experts| + 26 * b, r);
    CellMoved(Print(m), 78 + 570 * |m.experts| + 26 * b, r, m.routing[b], b);
  }

  lemma EightIds(c: Cell)
    requires CellShaped(c)
    ensures |c.ids| == 8
  {
  }

  /** The header: magic, limits, byte order, length and digest of the payload. */
  lemma HeaderLayout(m: Model)
    requires WellFormed(m)
    ensures var f, n := Print(m), |m.experts|;
            |f| == 78 + 570 * n + 26 * 256 && f[..8] == [82, 65, 86, 69, 76, 48, 53, 0] &&
            Stores(f, 8, 2, 5) && Stores(f, 10, 2, 8) && Stores(f, 12, 2, 8) && Stores(f, 14, 2, 4) &&
            Stores(f, 16, 2, 64) && Stores(f, 18, 2, 80) && Stores(f, 20, 2, 8) && Stores(f, 22, 2, 256) &&
            Stores(f, 24, 4, 0x0102_0304) && Stores(f, 28, 4, 14 + 570 * n + 26 * 256) &&
            f[32..64] == Sha256.Digest(f[64..])
  {
    hide *;
    CellParts(m, 0);
    var head, lead, e, g, c := FileParts(m);
    FewExperts(m);
    var size := 14 + 570 * |m.experts| + 26 * 256;
    var b := Encode(HeaderWidths(), HeaderValues(size));
    FilePieces(Payload(m));
    PrintIs(m);
    HeaderSize();
    assert |b| == 24;
    HeaderStored(size);
    Piece(Print(m), 8, b);
  }

  lemma FewExperts(m: Model)
    requires WellFormed(m)
    ensures |m.experts| <= 80
  {
  }

  /** The front of the payload. */
  lemma LeadLayout(m: Model)
    requires WellFormed(m)
    ensures var f := Print(m);
            Stores(f, 64, 2, |m.experts|) && Stores(f, 66, 8, m.epoch) && Stores(f, 74, 2, 2) && Stores(f, 76, 2, 2)
  {
    hide *;
    CellParts(m, 0);
    var head, lead, e, g, c := FileParts(m);
    LeadStored(m);
    Middle(head, lead, e + g + c);
    Four(head, lead, e, g, c);
    Piece(Print(m), 64, lead);
  }

  lemma Four<T>(head: seq<T>, lead: seq<T>, e: seq<T>, g: seq<T>, c: seq<T>)
    ensures head + (lead + e + g + c) == head + lead + (e + g + c)
  {
  }

  lemma PrintIs(m: Model)
    requires Shaped(m)
    ensures Print(m) == File(Payload(m)) && HEADER == 64 && MAGIC == [82, 65, 86, 69, 76, 48, 53, 0]
  {
  }

  lemma HeaderStored(size: nat)
    requires size < 65536
    ensures |HeaderWidths()| == |HeaderValues(size)|
    ensures var b := Encode(HeaderWidths(), HeaderValues(size));
            Stores(b, 0, 2, 5) && Stores(b, 2, 2, 8) && Stores(b, 4, 2, 8) && Stores(b, 6, 2, 4) &&
            Stores(b, 8, 2, 64) && Stores(b, 10, 2, 80) && Stores(b, 12, 2, 8) && Stores(b, 14, 2, 256) &&
            Stores(b, 16, 4, 0x0102_0304) && Stores(b, 20, 4, size)
  {
    hide Stores, Encode, HeaderWidths;
    HeaderField(size, 0);
    HeaderField(size, 1);
    HeaderField(size, 2);
    HeaderField(size, 3);
    HeaderField(size, 4);
    HeaderField(size, 5);
    HeaderField(size, 6);
    HeaderField(size, 7);
    HeaderField(size, 8);
    HeaderField(size, 9);
  }

  lemma HeaderField(size: nat, i: nat)
    requires size < 65536 && i < 10
    ensures |HeaderWidths()| == |HeaderValues(size)| == 10
    ensures Stores(Encode(HeaderWidths(), HeaderValues(size)), if i == 9 then 20 else 2 * i, if i < 8 then 2 else 4,
                   HeaderValues(size)[i])
  {
    hide Stores, Encode, Pow256;
    HeaderFits(size);
    FieldAt(HeaderWidths(), HeaderValues(size), i);
    if i == 9 {
      HeaderOffset(8);
      assert HeaderWidths()[..9][..8] == HeaderWidths()[..8];
    } else {
      HeaderOffset(i);
    }
  }

  lemma {:induction false} HeaderOffset(i: nat)
    requires i < 9
    ensures Sum(HeaderWidths()[..i]) == 2 * i
  {
    if i > 0 {
      HeaderOffset(i - 1);
      assert HeaderWidths()[..i][..i - 1] == HeaderWidths()[..i - 1];
    }
  }

  lemma LeadStored(m: Model)
    requires WellFormed(m)
    ensures var b := Encode([2, 8, 2, 2], [|m.experts|, m.epoch, 2, 2]);
            Stores(b, 0, 2, |m.experts|) && Stores(b, 2, 8, m.epoch) && Stores(b, 10, 2, 2) && Stores(b, 12, 2, 2)
  {
    hide Stores, Encode;
    var ws, vs := [2, 8, 2, 2], [|m.experts|, m.epoch, 2, 2];
    CheckpointFormat.Powers();
    FieldAt(ws, vs, 0);
    FieldAt(ws, vs, 1);
    FieldAt(ws, vs, 2);
    FieldAt(ws, vs, 3);
    assert ws[..1] == [2] && ws[..2] == [2, 8] && ws[..3] == [2, 8, 2];
    assert Sum([2]) == 2 && Sum([2, 8]) == 10 && Sum([2, 8, 2]) == 12;
  }

  // ----- the checks ---------------------------------------------------------------------------------------------

  /** A target among the experts or none; with too little support there must be none. */
  predicate Points(target: int, support: int, n: nat) { (target < n && support > 0) || target == 65535 }

  /** What an expert must satisfy to be stored and loaded: flags, and transitions to the `n` experts. */
  lemma ExpertChecks(e: Expert, n: nat)
    requires n <= 80
    ensures ExpertOk(e, n) <==>
            e.active == 1 && (e.lifecycle == 0 || e.lifecycle == 1) && e.anchored + e.lifecycle == 1 &&
            e.classLabel <= 7 && e.lineage > 0 && e.errors <= e.count &&
            forall i :: 0 <= i < |e.transitions| ==> Points(e.transitions[i].target, e.transitions[i].support, n)
  {
    forall i | 0 <= i < |e.transitions|
      ensures TransitionOk(e.transitions[i], n) <==> Points(e.transitions[i].target, e.transitions[i].support, n)
    {
    }
  }

  /** Compiled edges: two events at least, or no edge at all. */
  lemma EdgeChecks(row: seq<Link>, n: nat)
    requires n <= 80
    ensures GraphRowOk(row, n) <==>
            forall i :: 0 <= i < |row| ==>
              (row[i].target < n && row[i].support >= 2) || (row[i].target == 65535 && row[i].support == 0)
  {
  }

  /** Cells: the experts listed are different and come first; the bound is absent up to eight experts. */
  lemma CellChecks(c: Cell, n: nat)
    ensures CellOk(c, n) <==>
            |c.ids| == 8 && (c.bound == Unbounded <==> n <= 8) &&
            (forall i :: 0 <= i < 8 && i < n ==> 0 <= c.ids[i] < n && c.ids[i] !in c.ids[..i]) &&
            forall i :: n <= i < 8 ==> c.ids[i] == 65535
  {
    if |c.ids| == 8 {
      forall i | 0 <= i < 8 ensures c.ids[i] !in c.ids[..i] <==> forall k :: 0 <= k < i ==> c.ids[k] != c.ids[i] {}
    }
  }
}
