/**
 * The checkpoint parser of RAVEL: a cursor that remembers its first failure, and the loops that
 * rebuild the model and check it as they go.
 */
module CheckpointReader {
  import opened Ravel
  import opened Words
  import opened FieldCodec
  import opened Router
  import opened CheckpointFormat
  import opened CheckpointParse
  import opened CheckpointWriter
  import Sha256

  class ByteReader {
    const data: seq<Byte>
    var pos: nat
    var ok: bool
    /** The fields asked for so far and what was returned for them. */
    ghost var widths: seq<nat>
    ghost var values: seq<nat>

    ghost predicate Valid()
      reads this
    {
      pos <= |data| && |widths| == |values| &&
      (ok ==> pos == Sum(widths) && values == Decode(widths, data[..pos])) &&
      (!ok ==> Sum(widths) > |data|)
    }

    constructor (bytes: seq<Byte>)
      ensures Valid() && data == bytes && pos == 0 && ok && widths == values == []
    {
      data, pos, ok, widths, values := bytes, 0, true, [], [];
    }

    /** The next `n` bytes, or zeros once the input was too short. */
    method Bytes(n: nat) returns (b: seq<Byte>)
      requires Valid()
      modifies this`pos, this`ok
      ensures pos <= |data| && |b| == n
      ensures ok == (old(ok) && n <= |data| - old(pos))
      ensures ok ==> pos == old(pos) + n && b == data[old(pos)..pos]
      ensures !ok ==> b == Sha256.ZeroBytes(n)
    {
      if !ok || n > |data| - pos {
        ok := false;
        return Sha256.ZeroBytes(n);
      }
      b := data[pos..pos + n];
      pos := pos + n;
    }

    method Field(w: nat) returns (b: seq<Byte>)
      requires Valid()
      modifies this
      ensures Valid() && |b| == w && widths == old(widths) + [w] && values == old(values) + [Value(b)]
    {
      SumConcat(widths, [w]);
      SumSingle(w);
      ghost var before := data[..pos];
      b := Bytes(w);
      if ok {
        DecodeSnoc(widths, w, before, b);
        assert data[..pos] == before + b;
      }
      widths, values := widths + [w], values + [Value(b)];
    }

    method U8() returns (v: Byte)
      requires Valid()
      modifies this
      ensures Valid() && widths == old(widths) + [1] && values == old(values) + [v]
    {
      var b := Field(1);
      v := b[0];
      BytesValue(b);
    }

    method U16() returns (v: U16)
      requires Valid()
      modifies this
      ensures Valid() && widths == old(widths) + [2] && values == old(values) + [v]
    {
      var b := Field(2);
      BytesValue(b);
      v := b[0] as int * 256 + b[1] as int;
    }

    method U32() returns (v: U32)
      requires Valid()
      modifies this
      ensures Valid() && widths == old(widths) + [4] && values == old(values) + [v]
    {
      var b := Field(4);
      BytesValue(b);
      v := b[0] as int * 0x100_0000 + b[1] as int * 0x1_0000 + b[2] as int * 256 + b[3] as int;
    }

    method U64() returns (v: U64)
      requires Valid()
      modifies this
      ensures Valid() && widths == old(widths) + [8] && values == old(values) + [v]
    {
      var b := Field(8);
      var out: nat := 0;
      for i := 0 to 8
        invariant out == Value(b[..i])
      {
        assert b[..i + 1][..i] == b[..i];
        out := out * 256 + b[i] as int;
      }
      assert b[..8] == b;
      BigOfValue(b);
      Powers();
      v := out;
    }

    method I64() returns (v: int)
      requires Valid()
      modifies this
      ensures Valid() && Int64(v) && widths == old(widths) + [8] && values == old(values) + [ToU64(v)]
    {
      var u := U64();
      v := FromU64(u);
    }

    method I64s(n: nat) returns (xs: seq<int>)
      requires Valid()
      modifies this
      ensures Valid() && |xs| == n && AllInt64(xs)
      ensures widths == old(widths) + Same(8, n) && values == old(values) + Unsigned(xs)
    {
      xs := [];
      for d := 0 to n
        invariant Valid() && |xs| == d && AllInt64(xs)
        invariant widths == old(widths) + Same(8, d) && values == old(values) + Unsigned(xs)
      {
        var v := I64();
        assert Same(8, d + 1) == Same(8, d) + [8];
        assert Unsigned(xs + [v]) == Unsigned(xs) + [ToU64(v)];
        xs := xs + [v];
      }
    }

    method U32s(n: nat) returns (xs: seq<U32>)
      requires Valid()
      modifies this
      ensures Valid() && |xs| == n
      ensures widths == old(widths) + Same(4, n) && values == old(values) + xs
    {
      xs := [];
      for y := 0 to n
        invariant Valid() && |xs| == y
        invariant widths == old(widths) + Same(4, y) && values == old(values) + xs
      {
        var v := U32();
        assert Same(4, y + 1) == Same(4, y) + [4];
        xs := xs + [v];
      }
    }
  }

  lemma BytesValue(b: seq<Byte>)
    ensures |b| == 1 ==> Value(b) == b[0] as int
    ensures |b| == 2 ==> Value(b) == b[0] as int * 256 + b[1] as int
    ensures |b| == 4 ==>
            Value(b) == b[0] as int * 0x100_0000 + b[1] as int * 0x1_0000 + b[2] as int * 256 + b[3] as int
  {
    if |b| == 1 {
      assert b[..0] == [];
    } else if |b| > 1 && |b| <= 4 {
      var front := b[..|b| - 1];
      BytesValue(front);
      if |b| == 4 {
        assert front[..2] == b[..2];
        assert Value(front) == 256 * Value(b[..2]) + b[2] as int;
        BytesValue(b[..2]);
      }
    }
  }

  // ----- records ------------------------------------------------------------------------------------------

  /** No expert record that starts with these fields passes the checks. */
  ghost predicate ExpertRefuted(part: seq<nat>, j: nat, n: nat) {
    forall v: seq<nat> :: part <= v ==> !ExpertRecordOk(v, j, n)
  }

  ghost predicate GraphRefuted(part: seq<nat>, j: nat, n: nat) {
    forall v: seq<nat> :: part <= v ==> !GraphRecordOk(v, j, n)
  }

  ghost predicate CellRefuted(part: seq<nat>, b: nat, n: nat) {
    forall v: seq<nat> :: part <= v ==> !CellRecordOk(v, b, n)
  }

  predicate LinkOk(l: Link, n: nat, edges: bool) { if edges then EdgeOk(l, n) else TransitionOk(l, n) }

  predicate LinksOk(ls: seq<Link>, n: nat, edges: bool) { forall i :: 0 <= i < |ls| ==> LinkOk(ls[i], n, edges) }

  lemma MoreLinksOk(before: seq<Link>, ls: seq<Link>, n: nat, edges: bool)
    requires |ls| == |before| + 1 && ls[..|before|] == before
    requires LinksOk(before, n, edges) && LinkOk(ls[|before|], n, edges)
    ensures LinksOk(ls, n, edges)
  {
    forall i | 0 <= i < |ls| ensures LinkOk(ls[i], n, edges) {
      if i < |before| { assert ls[i] == before[i]; }
    }
  }

  /** Everything since `ws` and `vs` are these links. */
  ghost predicate LinksRead(r: ByteReader, ls: seq<Link>, ws: seq<nat>, vs: seq<nat>)
    reads r
  {
    r.widths == ws + LinkWidths(|ls|) && r.values == vs + LinkValues(ls)
  }

  method ReadLink(r: ByteReader, ls: seq<Link>, ghost ws: seq<nat>, ghost vs: seq<nat>) returns (longer: seq<Link>)
    requires r.Valid() && LinksRead(r, ls, ws, vs)
    modifies r
    ensures r.Valid() && |longer| == |ls| + 1 && longer[..|ls|] == ls && LinksRead(r, longer, ws, vs)
  {
    var target := r.U16();
    var support := r.U32();
    longer := ls + [Link(target, support)];
    LinkSnoc(longer, |ls|);
    assert longer[..|ls| + 1] == longer;
    Joined3(ws, LinkWidths(|ls|), [2], [4]);
    Joined3(vs, LinkValues(ls), [target], [support]);
  }

  /** Reads links until one of them fails its check; `edges` selects the check. */
  method ReadLinks(r: ByteReader, n: nat, edges: bool) returns (good: bool, ls: seq<Link>)
    requires r.Valid()
    modifies r
    ensures r.Valid() && |ls| <= 8
    ensures r.widths == old(r.widths) + LinkWidths(|ls|) && r.values == old(r.values) + LinkValues(ls)
    ensures good ==> |ls| == 8 && LinksOk(ls, n, edges)
    ensures !good ==> |ls| > 0 && !LinkOk(ls[|ls| - 1], n, edges)
  {
    ls, good := [], true;
    ghost var ws, vs := r.widths, r.values;
    while good && |ls| < 8
      invariant r.Valid() && |ls| <= 8 && LinksRead(r, ls, ws, vs)
      invariant good ==> LinksOk(ls, n, edges)
      invariant !good ==> |ls| > 0 && !LinkOk(ls[|ls| - 1], n, edges)
      decreases 8 - |ls|
    {
      ghost var before := ls;
      ls := ReadLink(r, ls, ws, vs);
      good := LinkOk(ls[|ls| - 1], n, edges);
      if good { MoreLinksOk(before, ls, n, edges); }
    }
  }

  /** The fields of a record behind its index. */
  method ReadHead(r: ByteReader) returns (e: Expert)
    requires r.Valid()
    modifies r
    ensures r.Valid() && r.widths == old(r.widths) + [1, 1, 1, 2, 1, 8]
    ensures r.values ==
            old(r.values) + [e.active, e.lifecycle, e.anchored, e.generation, e.classLabel, e.lineage]
  {
    ghost var ws, vs := r.widths, r.values;
    var active := r.U8();
    var lifecycle := r.U8();
    var anchored := r.U8();
    var generation := r.U16();
    var classLabel := r.U8();
    var lineage := r.U64();
    e := BLANK.(active := active, lifecycle := lifecycle, anchored := anchored, generation := generation,
                classLabel := classLabel, lineage := lineage);
    Append6(ws, 1, 1, 1, 2, 1, 8);
    Append6(vs, active, lifecycle, anchored, generation, classLabel, lineage);
  }

  const BLANK := Expert(0, 0, 0, 0, 0, 0, [], [], [], [], [], [], 0, 0, 0, 0)

  method ReadBody(r: ByteReader, head: Expert) returns (e: Expert)
    requires r.Valid()
    modifies r
    ensures r.Valid()
    ensures e == head.(key := e.key, decode := e.decode, next := e.next, labels := e.labels,
                       actionCount := e.actionCount)
    ensures |e.key| == 8 && |e.decode| == 8 && |e.next| == 32 && |e.labels| == 8 && |e.actionCount| == 4
    ensures AllInt64(e.key) && AllInt64(e.decode) && AllInt64(e.next)
    ensures r.widths ==
            old(r.widths) + (Same(8, 8) + Same(8, 8) + Same(8, 32) + (Same(4, 8) + Same(4, 4)))
    ensures r.values ==
            old(r.values) +
            (Unsigned(e.key) + Unsigned(e.decode) + Unsigned(e.next) + (e.labels + e.actionCount))
  {
    ghost var ws, vs := r.widths, r.values;
    var key := r.I64s(D);
    var decode := r.I64s(D);
    var next := r.I64s(ACTIONS * D);
    var labels := r.U32s(CLASSES);
    var actionCount := r.U32s(ACTIONS);
    e := head.(key := key, decode := decode, next := next, labels := labels, actionCount := actionCount);
    Joined(ws + Same(8, 8) + Same(8, 8) + Same(8, 32), Same(4, 8), Same(4, 4));
    Joined4(ws, Same(8, 8), Same(8, 8), Same(8, 32), Same(4, 8) + Same(4, 4));
    Joined(vs + Unsigned(key) + Unsigned(decode) + Unsigned(next), labels, actionCount);
    Joined4(vs, Unsigned(key), Unsigned(decode), Unsigned(next), labels + actionCount);
  }

  method ReadTail(r: ByteReader, body: Expert) returns (e: Expert)
    requires r.Valid()
    modifies r
    ensures r.Valid()
    ensures e == body.(count := e.count, errors := e.errors, reconstructionSse := e.reconstructionSse,
                       predictionSse := e.predictionSse)
    ensures Int64(e.reconstructionSse) && Int64(e.predictionSse)
    ensures r.widths == old(r.widths) + [4, 4, 8, 8]
    ensures r.values ==
            old(r.values) + [e.count, e.errors, ToU64(e.reconstructionSse), ToU64(e.predictionSse)]
  {
    ghost var ws, vs := r.widths, r.values;
    var count := r.U32();
    var errors := r.U32();
    var reconstructionSse := r.I64();
    var predictionSse := r.I64();
    e := body.(count := count, errors := errors, reconstructionSse := reconstructionSse,
               predictionSse := predictionSse);
    Append4(ws, 4, 4, 8, 8);
    Append4(vs, count, errors, ToU64(reconstructionSse), ToU64(predictionSse));
  }

  /** What has been read of an expert before its transitions. */
  function BeforeLinks(e: Expert, j: nat): seq<nat> {
    HeadValues(e, j) +
    (Unsigned(e.key) + Unsigned(e.decode) + Unsigned(e.next) + (e.labels + e.actionCount))
  }

  lemma LayoutBeforeLinks(e: Expert, j: nat)
    requires |e.key| == 8 && |e.decode| == 8 && |e.next| == 32 && |e.labels| == 8 && |e.actionCount| == 4
    ensures |BeforeLinks(e, j)| == 67
    ensures [j] + [e.active, e.lifecycle, e.anchored, e.generation, e.classLabel, e.lineage] +
            (Unsigned(e.key) + Unsigned(e.decode) + Unsigned(e.next) + (e.labels + e.actionCount)) == BeforeLinks(e, j)
    ensures [2] + [1, 1, 1, 2, 1, 8] + (Same(8, 8) + Same(8, 8) + Same(8, 32) + (Same(4, 8) + Same(4, 4))) ==
            ExpertWidths()[..67]
  {
  }

  lemma LayoutLinks(k: nat)
    requires k <= 8
    ensures ExpertWidths()[..67] + LinkWidths(k) == ExpertWidths()[..67 + 2 * k]
    ensures ExpertWidths()[..83] + [4, 4, 8, 8] == ExpertWidths()
  {
  }

  lemma LayoutAfterLinks(e: Expert, j: nat)
    requires ExpertShaped(e)
    ensures BeforeLinks(e, j) + LinkValues(e.transitions) +
            [e.count, e.errors, ToU64(e.reconstructionSse), ToU64(e.predictionSse)] == ExpertValues(e, j)
  {
    ExpertLayout(e, j);
  }

  lemma BadLink(front: seq<nat>, ls: seq<Link>, j: nat, n: nat)
    requires |front| == 67 && 0 < |ls| <= 8 && !TransitionOk(ls[|ls| - 1], n)
    ensures ExpertRefuted(front + LinkValues(ls), j, n)
  {
    var part, k := front + LinkValues(ls), |ls| - 1;
    forall v: seq<nat> | part <= v ensures !ExpertRecordOk(v, j, n) {
      if ExpertRanges(v) {
        assert v[67 + 2 * k] == part[67 + 2 * k] == LinkField(ls, 2 * k);
        assert v[68 + 2 * k] == part[68 + 2 * k] == LinkField(ls, 2 * k + 1);
        assert v[67..83][2 * k] == v[67 + 2 * k] && v[67..83][2 * k + 1] == v[68 + 2 * k];
        assert ExpertOf(v).transitions[k] == ls[k];
      }
    }
  }

  lemma BadExpert(e: Expert, j: nat, n: nat)
    requires ExpertShaped(e) && Storable(e) && j < 0x1_0000 && !ExpertOk(e, n)
    ensures ExpertRefuted(ExpertValues(e, j), j, n)
  {
    ExpertBack(e, j);
    forall v: seq<nat> | ExpertValues(e, j) <= v ensures !ExpertRecordOk(v, j, n) {
      if ExpertRanges(v) { assert v == ExpertValues(e, j); }
    }
  }

  lemma BadIndex(index: nat, j: nat, n: nat)
    requires index != j
    ensures ExpertRefuted([index], j, n) && GraphRefuted([index], j, n) && CellRefuted([index], j, n)
  {
    forall v: seq<nat> | [index] <= v
      ensures !ExpertRecordOk(v, j, n) && !GraphRecordOk(v, j, n) && !CellRecordOk(v, j, n)
    {
      assert v[0] == index;
    }
  }

  /** The index, which must be the expected one, and the fields before the transitions. */
  method ReadFront(r: ByteReader, j: U16, ghost n: nat) returns (good: bool, e: Expert, ghost part: seq<nat>)
    requires r.Valid()
    modifies r
    ensures r.Valid() && |part| <= 67
    ensures r.widths == old(r.widths) + ExpertWidths()[..|part|] && r.values == old(r.values) + part
    ensures good ==> |part| == 67 && part == BeforeLinks(e, j) &&
                     |e.key| == 8 && |e.decode| == 8 && |e.next| == 32 && |e.labels| == 8 &&
                     |e.actionCount| == 4 && AllInt64(e.key) && AllInt64(e.decode) && AllInt64(e.next)
    ensures !good ==> ExpertRefuted(part, j, n)
  {
    var index := r.U16();
    e, part := BLANK, [index];
    if index != j {
      BadIndex(index, j, n);
      assert ExpertWidths()[..1] == [2];
      return false, e, part;
    }
    ghost var ws, vs := old(r.widths), old(r.values);
    e := ReadHead(r);
    e := ReadBody(r, e);
    ghost var head := [e.active, e.lifecycle, e.anchored, e.generation, e.classLabel, e.lineage];
    part := BeforeLinks(e, j);
    Joined3(ws, [2], [1, 1, 1, 2, 1, 8], Same(8, 8) + Same(8, 8) + Same(8, 32) + (Same(4, 8) + Same(4, 4)));
    Joined3(vs, [index], head, Unsigned(e.key) + Unsigned(e.decode) + Unsigned(e.next) + (e.labels + e.actionCount));
    LayoutBeforeLinks(e, j);
    good := true;
  }

  /** As far as the transitions, each of which is checked as it is read. */
  method ReadToLinks(r: ByteReader, j: U16, n: nat) returns (good: bool, e: Expert, ghost part: seq<nat>)
    requires r.Valid()
    modifies r
    ensures r.Valid() && |part| <= 83
    ensures r.widths == old(r.widths) + ExpertWidths()[..|part|] && r.values == old(r.values) + part
    ensures good ==> ExpertShaped(e) && LinksOk(e.transitions, n, false) &&
                     AllInt64(e.key) && AllInt64(e.decode) && AllInt64(e.next)
    ensures good ==> |part| == 83 && part == BeforeLinks(e, j) + LinkValues(e.transitions)
    ensures !good ==> ExpertRefuted(part, j, n)
  {
    good, e, part := ReadFront(r, j, n);
    if good {
      ghost var ws, vs := old(r.widths), old(r.values);
      var links: seq<Link>;
      good, links := ReadLinks(r, n, false);
      Joined(ws, ExpertWidths()[..67], LinkWidths(|links|));
      Joined(vs, part, LinkValues(links));
      LayoutLinks(|links|);
      if !good { BadLink(part, links, j, n); }
      part := part + LinkValues(links);
      e := e.(transitions := links);
    }
  }

  /** The last fields and the checks on the whole expert. */
  method FinishExpert(r: ByteReader, body: Expert, j: U16, n: nat, ghost ws: seq<nat>, ghost vs: seq<nat>)
    returns (good: bool, e: Expert, ghost part: seq<nat>)
    requires r.Valid() && ExpertShaped(body) && LinksOk(body.transitions, n, false)
    requires AllInt64(body.key) && AllInt64(body.decode) && AllInt64(body.next)
    requires r.widths == ws + ExpertWidths()[..83]
    requires r.values == vs + (BeforeLinks(body, j) + LinkValues(body.transitions))
    modifies r
    ensures r.Valid() && |part| == EXPERT_FIELDS && r.widths == ws + ExpertWidths() && r.values == vs + part
    ensures good ==> r.ok && ExpertShaped(e) && Storable(e) && ExpertOk(e, n) && part == ExpertValues(e, j)
    ensures !good && r.ok ==> ExpertRefuted(part, j, n)
  {
    e := ReadTail(r, body);
    LayoutLinks(8);
    Joined(ws, ExpertWidths()[..83], [4, 4, 8, 8]);
    Joined(vs, BeforeLinks(body, j) + LinkValues(body.transitions),
           [e.count, e.errors, ToU64(e.reconstructionSse), ToU64(e.predictionSse)]);
    LayoutAfterLinks(e, j);
    part := ExpertValues(e, j);
    good := r.ok && FlagsOk(e);
    assert forall i :: 0 <= i < 8 ==> LinkOk(e.transitions[i], n, false);
    if !FlagsOk(e) { BadExpert(e, j, n); }
  }

  /** One expert; `part` is what was read of it when the parser gave up or finished. */
  method ReadExpert(r: ByteReader, j: U16, n: nat) returns (good: bool, e: Expert, ghost part: seq<nat>)
    requires r.Valid()
    modifies r
    ensures r.Valid() && |part| <= EXPERT_FIELDS
    ensures r.widths == old(r.widths) + ExpertWidths()[..|part|] && r.values == old(r.values) + part
    ensures good ==> r.ok && ExpertShaped(e) && Storable(e) && ExpertOk(e, n) && part == ExpertValues(e, j)
    ensures !good && r.ok ==> ExpertRefuted(part, j, n)
  {
    good, e, part := ReadToLinks(r, j, n);
    if good {
      good, e, part := FinishExpert(r, e, j, n, old(r.widths), old(r.values));
    }
  }

  lemma BadEdge(index: nat, ls: seq<Link>, j: nat, n: nat)
    requires 0 < |ls| <= 8 && !EdgeOk(ls[|ls| - 1], n)
    ensures GraphRefuted([index] + LinkValues(ls), j, n)
  {
    var part, k := [index] + LinkValues(ls), |ls| - 1;
    forall v: seq<nat> | part <= v ensures !GraphRecordOk(v, j, n) {
      if GraphRanges(v) {
        assert v[1..][2 * k] == part[1 + 2 * k] == LinkField(ls, 2 * k);
        assert v[1..][2 * k + 1] == part[2 + 2 * k] == LinkField(ls, 2 * k + 1);
        assert LinksOf(v[1..])[k] == ls[k];
      }
    }
  }

  method ReadGraphRow(r: ByteReader, j: U16, n: nat)
    returns (good: bool, row: seq<Link>, ghost part: seq<nat>)
    requires r.Valid()
    modifies r
    ensures r.Valid() && |part| <= EDGE_FIELDS
    ensures r.widths == old(r.widths) + GraphWidths()[..|part|] && r.values == old(r.values) + part
    ensures good ==> |row| == 8 && GraphRowOk(row, n) && part == GraphValues(row, j)
    ensures !good ==> GraphRefuted(part, j, n)
  {
    var index := r.U16();
    row, part := [], [index];
    good := index == j;
    if good {
      good, row := ReadLinks(r, n, true);
      Joined(old(r.widths), [2], LinkWidths(|row|));
      Joined(old(r.values), [index], LinkValues(row));
      part := [index] + LinkValues(row);
      EdgeFieldsOf(row, index);
      if good {
        assert forall i :: 0 <= i < 8 ==> LinkOk(row[i], n, true);
      } else {
        BadEdge(index, row, j, n);
      }
    } else {
      assert GraphWidths()[..1] == [2];
      BadIndex(index, j, n);
    }
  }

  lemma EdgeFieldsOf(row: seq<Link>, j: nat)
    requires |row| <= 8
    ensures GraphWidths()[..1 + 2 * |row|] == [2] + LinkWidths(|row|)
    ensures |row| == 8 ==> GraphValues(row, j) == [j] + LinkValues(row)
  {
  }

  // ----- cells --------------------------------------------------------------------------------------------

  /** The checks on the ids read so far. */
  predicate IdsSoFar(ids: seq<int>, n: nat) {
    var take := Take(n, ROUTE_K);
    (forall i :: 0 <= i < |ids| ==> if i < take then 0 <= ids[i] < n else ids[i] == INVALID) &&
    (forall k, i :: 0 <= k < i < |ids| && i < take ==> ids[k] != ids[i])
  }

  /** The checks on one more id. */
  method CheckId(ids: seq<int>, id: U16, n: nat) returns (good: bool)
    requires IdsSoFar(ids, n)
    ensures good <==> IdsSoFar(ids + [id], n)
  {
    var i, take := |ids|, Take(n, ROUTE_K);
    var longer := ids + [id];
    assert longer[i] == id;
    if (i < take && id >= n) || (i >= take && id != INVALID) { return false; }
    if i < take {
      for k := 0 to i
        invariant forall h :: 0 <= h < k ==> ids[h] != id
      {
        if ids[k] == id {
          assert longer[k] == longer[i];
          return false;
        }
      }
    }
    good := true;
  }

  lemma BadIds(b: nat, ids: seq<U16>, j: nat, n: nat)
    requires |ids| <= 8 && !IdsSoFar(ids, n)
    ensures CellRefuted([b] + ids, j, n)
  {
    forall v: seq<nat> | [b] + ids <= v ensures !CellRecordOk(v, j, n) {
      if CellRanges(v) && CellOk(CellFrom(v), n) {
        var c := CellFrom(v);
        forall i | 0 <= i < |ids| ensures c.ids[i] == ids[i] {
          assert v[i + 1] == ([b] + ids)[i + 1];
        }
        assert IdsSoFar(ids, n);
        assert false;
      }
    }
  }

  method ReadIds(r: ByteReader, n: nat) returns (good: bool, ids: seq<U16>)
    requires r.Valid()
    modifies r
    ensures r.Valid() && |ids| <= 8
    ensures r.widths == old(r.widths) + Same(2, |ids|) && r.values == old(r.values) + ids
    ensures good ==> |ids| == 8
    ensures good <==> IdsSoFar(ids, n)
  {
    ids, good := [], true;
    while good && |ids| < 8
      invariant r.Valid() && |ids| <= 8
      invariant r.widths == old(r.widths) + Same(2, |ids|) && r.values == old(r.values) + ids
      invariant good <==> IdsSoFar(ids, n)
      decreases 8 - |ids|
    {
      var id := r.U16();
      good := CheckId(ids, id, n);
      assert Same(2, |ids| + 1) == Same(2, |ids|) + [2];
      ids := ids + [id];
    }
  }

  /** The index of a cell and its ids. */
  method ReadCellIds(r: ByteReader, b: U16, n: nat) returns (good: bool, ids: seq<U16>, ghost part: seq<nat>)
    requires r.Valid()
    modifies r
    ensures r.Valid() && |part| <= 9
    ensures r.widths == old(r.widths) + CellWidths()[..|part|] && r.values == old(r.values) + part
    ensures good ==> |ids| == 8 && IdsSoFar(ids, n) && part == [b] + ids
    ensures !good ==> CellRefuted(part, b, n)
  {
    var index := r.U16();
    ids, part := [], [index];
    good := index == b;
    if good {
      good, ids := ReadIds(r, n);
      Joined(old(r.widths), [2], Same(2, |ids|));
      Joined(old(r.values), [index], ids);
      part := [index] + ids;
      assert CellWidths()[..1 + |ids|] == [2] + Same(2, |ids|);
      if !good { BadIds(index, ids, b, n); }
    } else {
      assert CellWidths()[..1] == [2];
      BadIndex(index, b, n);
    }
  }

  lemma CellFieldsOf(ids: seq<U16>, b: nat, lower: int, n: nat)
    requires Int64(lower) && |ids| == 8 && IdsSoFar(ids, n)
    ensures var c := Cell(ids, LoadedBound(lower));
            CellShaped(c) && BoundStored(c.bound) && CellValues(c, b) == [b] + ids + [ToU64(lower)] &&
            (CellOk(c, n) <==> (n > ROUTE_K && lower != INT64_MAX) || (n <= ROUTE_K && lower == INT64_MAX))
  {
  }

  /** The bound behind the ids, and its check. */
  method FinishCell(r: ByteReader, ids: seq<U16>, b: U16, n: nat) returns (good: bool, c: Cell, ghost lower: int)
    requires r.Valid() && |ids| == 8 && IdsSoFar(ids, n)
    modifies r
    ensures r.Valid() && Int64(lower)
    ensures r.widths == old(r.widths) + [8] && r.values == old(r.values) + [ToU64(lower)]
    ensures CellShaped(c) && BoundStored(c.bound) && CellValues(c, b) == [b] + ids + [ToU64(lower)]
    ensures good <==> CellOk(c, n)
  {
    var bound := r.I64();
    c, lower := Cell(ids, LoadedBound(bound)), bound;
    good := (n > ROUTE_K && bound != INT64_MAX) || (n <= ROUTE_K && bound == INT64_MAX);
    CellFieldsOf(ids, b, bound, n);
  }

  method ReadCell(r: ByteReader, b: U16, n: nat) returns (good: bool, c: Cell, ghost part: seq<nat>)
    requires r.Valid()
    modifies r
    ensures r.Valid() && |part| <= CELL_FIELDS
    ensures r.widths == old(r.widths) + CellWidths()[..|part|] && r.values == old(r.values) + part
    ensures good ==> CellShaped(c) && CellOk(c, n) && BoundStored(c.bound) && part == CellValues(c, b)
    ensures !good ==> CellRefuted(part, b, n)
  {
    var ids: seq<U16>;
    good, ids, part := ReadCellIds(r, b, n);
    c := Cell(ids, Unbounded);
    if good {
      ghost var lower: int;
      good, c, lower := FinishCell(r, ids, b, n);
      Joined(old(r.widths), CellWidths()[..9], [8]);
      Joined(old(r.values), part, [ToU64(lower)]);
      LastCellWidth();
      part := CellValues(c, b);
      if !good { BadBound(c, b, n); }
    }
  }

  lemma LastCellWidth()
    ensures CellWidths()[..9] + [8] == CellWidths() == CellWidths()[..CELL_FIELDS]
  {
  }

  lemma BadBound(c: Cell, b: nat, n: nat)
    requires CellShaped(c) && BoundStored(c.bound) && b < 0x1_0000 && !CellOk(c, n)
    ensures CellRefuted(CellValues(c, b), b, n)
  {
    CellBack(c, b);
    forall v: seq<nat> | CellValues(c, b) <= v ensures !CellRecordOk(v, b, n) {
      if CellRanges(v) { assert v == CellValues(c, b); }
    }
  }
}
