/**
 * Big-endian fields of fixed width, one after another: the layer below RAVEL's checkpoint format.
 */
module FieldCodec {
  import opened Words

  function Pow256(w: nat): (p: nat)
    ensures p > 0
  {
    if w == 0 then 1 else 256 * Pow256(w - 1)
  }

  /** The low `w` bytes of `v`, most significant first. */
  function Big(v: nat, w: nat): (b: seq<Byte>)
    ensures |b| == w
  {
    if w == 0 then [] else Big(v / 256, w - 1) + [v % 256]
  }

  function Value(b: seq<Byte>): nat {
    if b == [] then 0 else 256 * Value(b[..|b| - 1]) + b[|b| - 1] as int
  }

  lemma {:induction false} ValueOfBig(v: nat, w: nat)
    requires v < Pow256(w)
    ensures Value(Big(v, w)) == v
  {
    if w > 0 {
      ValueOfBig(v / 256, w - 1);
      assert Big(v, w)[..w - 1] == Big(v / 256, w - 1);
    }
  }

  lemma {:induction false} BigOfValue(b: seq<Byte>)
    ensures Value(b) < Pow256(|b|) && Big(Value(b), |b|) == b
  {
    if b != [] {
      BigOfValue(b[..|b| - 1]);
      assert b == b[..|b| - 1] + [b[|b| - 1]];
    }
  }

  // ----- lists of fields ------------------------------------------------------------------------------

  function Sum(ws: seq<nat>): nat {
    if ws == [] then 0 else Sum(ws[..|ws| - 1]) + ws[|ws| - 1]
  }

  function Encode(ws: seq<nat>, vs: seq<nat>): (b: seq<Byte>)
    requires |ws| == |vs|
    ensures |b| == Sum(ws)
  {
    if ws == [] then [] else
      var k := |ws| - 1;
      Encode(ws[..k], vs[..k]) + Big(vs[k], ws[k])
  }

  function Decode(ws: seq<nat>, b: seq<Byte>): (vs: seq<nat>)
    requires |b| == Sum(ws)
    ensures |vs| == |ws|
  {
    if ws == [] then [] else
      var k := |ws| - 1;
      var at := |b| - ws[k];
      Decode(ws[..k], b[..at]) + [Value(b[at..])]
  }

  /** Every value fits its field. */
  ghost predicate Fits(ws: seq<nat>, vs: seq<nat>) {
    |ws| == |vs| && forall i :: 0 <= i < |ws| ==> vs[i] < Pow256(ws[i])
  }

  lemma EncodeSnoc(ws: seq<nat>, vs: seq<nat>, w: nat, v: nat)
    requires |ws| == |vs|
    ensures Encode(ws + [w], vs + [v]) == Encode(ws, vs) + Big(v, w)
  {
    assert (ws + [w])[..|ws|] == ws && (vs + [v])[..|vs|] == vs;
  }

  lemma DecodeSnoc(ws: seq<nat>, w: nat, b: seq<Byte>, c: seq<Byte>)
    requires |b| == Sum(ws) && |c| == w
    ensures Sum(ws + [w]) == |b + c|
    ensures Decode(ws + [w], b + c) == Decode(ws, b) + [Value(c)]
  {
    assert (ws + [w])[..|ws|] == ws;
    assert (b + c)[..|b|] == b && (b + c)[|b|..] == c;
  }

  lemma {:induction false} DecodeOfEncode(ws: seq<nat>, vs: seq<nat>)
    requires Fits(ws, vs)
    ensures Decode(ws, Encode(ws, vs)) == vs
  {
    if ws != [] {
      var k := |ws| - 1;
      var us, w, xs, v := ws[..k], ws[k], vs[..k], vs[k];
      assert ws == us + [w] && vs == xs + [v];
      DecodeOfEncode(us, xs);
      ValueOfBig(v, w);
      EncodeSnoc(us, xs, w, v);
      DecodeSnoc(us, w, Encode(us, xs), Big(v, w));
    }
  }

  lemma {:induction false} EncodeOfDecode(ws: seq<nat>, b: seq<Byte>)
    requires |b| == Sum(ws)
    ensures Fits(ws, Decode(ws, b)) && Encode(ws, Decode(ws, b)) == b
  {
    if ws == [] {
      assert b == [];
    } else {
      hide *;
      LastField(ws, b);
      var us, w := ws[..|ws| - 1], ws[|ws| - 1];
      var front, last := b[..|b| - w], b[|b| - w..];
      EncodeOfDecode(us, front);
      OneMoreField(us, w, front, last);
    }
  }

  lemma LastField(ws: seq<nat>, b: seq<Byte>)
    requires |b| == Sum(ws) && ws != []
    ensures var us, w := ws[..|ws| - 1], ws[|ws| - 1];
            ws == us + [w] && w <= |b| && Sum(us) == |b| - w && b == b[..|b| - w] + b[|b| - w..]
  {
  }

  lemma OneMoreField(ws: seq<nat>, w: nat, b: seq<Byte>, c: seq<Byte>)
    requires |b| == Sum(ws) && |c| == w && Fits(ws, Decode(ws, b)) && Encode(ws, Decode(ws, b)) == b
    ensures |b + c| == Sum(ws + [w])
    ensures Fits(ws + [w], Decode(ws + [w], b + c)) && Encode(ws + [w], Decode(ws + [w], b + c)) == b + c
  {
    BigOfValue(c);
    DecodeSnoc(ws, w, b, c);
    EncodeSnoc(ws, Decode(ws, b), w, Value(c));
    FitsSnoc(ws, Decode(ws, b), w, Value(c));
  }

  lemma FitsSnoc(ws: seq<nat>, vs: seq<nat>, w: nat, v: nat)
    requires Fits(ws, vs) && v < Pow256(w)
    ensures Fits(ws + [w], vs + [v])
  {
  }

  lemma Joined4<T>(s: seq<T>, a: seq<T>, b: seq<T>, c: seq<T>, d: seq<T>)
    ensures s + a + b + c + d == s + (a + b + c + d)
  {
  }

  lemma Joined3<T>(s: seq<T>, a: seq<T>, b: seq<T>, c: seq<T>)
    ensures s + a + b + c == s + (a + b + c)
  {
  }

  lemma Append4<T>(s: seq<T>, a: T, b: T, c: T, d: T)
    ensures s + [a] + [b] + [c] + [d] == s + [a, b, c, d]
  {
  }

  lemma Append7<T>(s: seq<T>, a: T, b: T, c: T, d: T, e: T, f: T, g: T)
    ensures s + [a] + [b] + [c] + [d] + [e] + [f] + [g] == s + [a, b, c, d, e, f, g]
  {
  }

  lemma Append6<T>(s: seq<T>, a: T, b: T, c: T, d: T, e: T, f: T)
    ensures s + [a] + [b] + [c] + [d] + [e] + [f] == s + [a, b, c, d, e, f]
  {
  }

  lemma Joined<T>(a: seq<T>, b: seq<T>, c: seq<T>)
    ensures a + b + c == a + (b + c)
  {
  }

  lemma {:induction false} SumConcat(ws: seq<nat>, us: seq<nat>)
    ensures Sum(ws + us) == Sum(ws) + Sum(us)
  {
    if us == [] {
      assert ws + us == ws;
    } else {
      var k := |us| - 1;
      SumConcat(ws, us[..k]);
      assert (ws + us)[..|ws + us| - 1] == ws + us[..k];
    }
  }

  /** The first fields are found in the first bytes. */
  lemma {:induction false} DecodePrefix(ws: seq<nat>, us: seq<nat>, b: seq<Byte>)
    requires |b| == Sum(ws + us)
    ensures Sum(ws) <= |b| && Decode(ws + us, b)[..|ws|] == Decode(ws, b[..Sum(ws)])
  {
    if us == [] {
      assert ws + us == ws && b[..Sum(ws)] == b;
    } else {
      var k := |us| - 1;
      var at := |b| - us[k];
      assert (ws + us)[..|ws + us| - 1] == ws + us[..k];
      DecodePrefix(ws, us[..k], b[..at]);
      assert b[..at][..Sum(ws)] == b[..Sum(ws)];
    }
  }

  /** `n` fields of the same width. */
  function Same(w: nat, n: nat): (ws: seq<nat>)
    ensures |ws| == n
  {
    seq(n, _ => w)
  }

  lemma {:induction false} SumSame(w: nat, n: nat)
    ensures Sum(Same(w, n)) == w * n
  {
    if n > 0 {
      SumSame(w, n - 1);
      assert Same(w, n)[..n - 1] == Same(w, n - 1);
      assert w * (n - 1) + w == w * n;
    }
  }

  // ----- records of the same length --------------------------------------------------------------------

  function Flat(records: seq<seq<nat>>): seq<nat> {
    if records == [] then [] else Flat(records[..|records| - 1]) + records[|records| - 1]
  }

  ghost predicate Uniform(records: seq<seq<nat>>, r: nat) {
    forall j :: 0 <= j < |records| ==> |records[j]| == r
  }

  /** Record `j` of a list of records of length `r`. */
  function Chunk(v: seq<nat>, r: nat, j: nat): (c: seq<nat>)
    requires r * (j + 1) <= |v|
    ensures |c| == r
  {
    assert r * (j + 1) == r * j + r;
    v[r * j..r * j + r]
  }

  lemma RowsFit(r: nat, j: nat, k: nat)
    requires j < k
    ensures r * (j + 1) <= r * k
  {
    var more := k - j - 1;
    assert k == (j + 1) + more;
    assert r * ((j + 1) + more) == r * (j + 1) + r * more;
  }

  lemma ChunkOfSlice(v: seq<nat>, at: nat, r: nat, n: nat, j: nat)
    requires at + r * n <= |v| && j < n
    ensures r * (j + 1) <= r * n && r * (j + 1) == r * j + r
    ensures Chunk(v[at..at + r * n], r, j) == v[at + r * j..at + r * j + r]
  {
    RowsFit(r, j, n);
    assert r * (j + 1) == r * j + r;
    SliceOfSlice(v, at, at + r * n, r * j, r * j + r);
  }

  lemma SliceOfSlice(v: seq<nat>, a: nat, b: nat, lo: nat, hi: nat)
    requires a <= b <= |v| && lo <= hi <= b - a
    ensures v[a..b][lo..hi] == v[a + lo..a + hi]
  {
    forall i | 0 <= i < hi - lo ensures v[a..b][lo..hi][i] == v[a + lo..a + hi][i] {}
  }

  lemma {:induction false} FlatLength(records: seq<seq<nat>>, r: nat)
    requires Uniform(records, r)
    ensures |Flat(records)| == r * |records|
  {
    if records != [] {
      var k := |records| - 1;
      FlatLength(records[..k], r);
      assert r * (k + 1) == r * k + r;
    }
  }

  lemma {:induction false} ChunkOfFlat(records: seq<seq<nat>>, r: nat, j: nat)
    requires Uniform(records, r) && j < |records|
    ensures |Flat(records)| == r * |records| && r * (j + 1) <= r * |records|
    ensures Chunk(Flat(records), r, j) == records[j]
  {
    var k := |records| - 1;
    FlatLength(records, r);
    FlatLength(records[..k], r);
    RowsFit(r, j, k + 1);
    assert r * (j + 1) == r * j + r;
    if j < k {
      ChunkOfFlat(records[..k], r, j);
    }
  }

  lemma {:induction false} FlatOfChunks(v: seq<nat>, r: nat, k: nat, records: seq<seq<nat>>)
    requires r * k <= |v| && |records| == k
    requires forall j :: 0 <= j < k ==> r * (j + 1) <= |v| && records[j] == Chunk(v, r, j)
    ensures Flat(records) == v[..r * k]
  {
    if k > 0 {
      assert r * k == r * (k - 1) + r;
      FlatOfChunks(v, r, k - 1, records[..k - 1]);
      assert records[k - 1] == v[r * (k - 1)..r * k];
    }
  }

  lemma {:induction false} SumFlat(records: seq<seq<nat>>, s: nat)
    requires forall j :: 0 <= j < |records| ==> Sum(records[j]) == s
    ensures Sum(Flat(records)) == s * |records|
  {
    if records != [] {
      var k := |records| - 1;
      SumFlat(records[..k], s);
      SumConcat(Flat(records[..k]), records[k]);
      assert Sum(records[k]) == s;
      Times(s, k);
    }
  }

  lemma Times(s: nat, k: nat)
    ensures s * (k + 1) == s * k + s
  {
  }

  lemma {:induction false} FitsFlat(widths: seq<seq<nat>>, values: seq<seq<nat>>)
    requires |widths| == |values|
    requires forall j :: 0 <= j < |widths| ==> Fits(widths[j], values[j])
    ensures Fits(Flat(widths), Flat(values))
  {
    if widths != [] {
      var k := |widths| - 1;
      FitsFlat(widths[..k], values[..k]);
      FitsConcat(Flat(widths[..k]), Flat(values[..k]), widths[k], values[k]);
    }
  }

  lemma FitsConcat(ws: seq<nat>, vs: seq<nat>, us: seq<nat>, xs: seq<nat>)
    requires Fits(ws, vs) && Fits(us, xs)
    ensures Fits(ws + us, vs + xs)
  {
  }
}
