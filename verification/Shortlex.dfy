/** The order in which a breadth-first search meets action sequences: shorter ones first, then by first difference. */
module Shortlex {

  /** For sequences of the same length. */
  predicate Lex(a: seq<int>, b: seq<int>)
    requires |a| == |b|
  {
    a != [] &&
    var n := |a| - 1;
    Lex(a[..n], b[..n]) || (a[..n] == b[..n] && a[n] < b[n])
  }

  predicate Sooner(a: seq<int>, b: seq<int>) { |a| < |b| || (|a| == |b| && Lex(a, b)) }

  /** Where they first differ, the smaller sequence has the smaller number. */
  lemma {:induction false} LexIs(a: seq<int>, b: seq<int>)
    requires |a| == |b|
    ensures Lex(a, b) <==> exists k :: 0 <= k < |a| && a[..k] == b[..k] && a[k] < b[k]
  {
    if a != [] {
      var n := |a| - 1;
      LexIs(a[..n], b[..n]);
      if Lex(a[..n], b[..n]) {
        var k :| 0 <= k < n && a[..n][..k] == b[..n][..k] && a[..n][k] < b[..n][k];
        assert a[..k] == a[..n][..k] && b[..k] == b[..n][..k] && a[k] < b[k];
      }
      if k :| 0 <= k < |a| && a[..k] == b[..k] && a[k] < b[k] {
        if k < n { assert a[..n][..k] == b[..n][..k] && a[..n][k] < b[..n][k]; }
      }
    }
  }

  lemma {:induction false} LexTransitive(a: seq<int>, b: seq<int>, c: seq<int>)
    requires |a| == |b| == |c| && Lex(a, b) && Lex(b, c)
    ensures Lex(a, c)
  {
    var n := |a| - 1;
    if Lex(a[..n], b[..n]) && Lex(b[..n], c[..n]) { LexTransitive(a[..n], b[..n], c[..n]); }
  }

  lemma {:induction false} LexTotal(a: seq<int>, b: seq<int>)
    requires |a| == |b|
    ensures a == b || Lex(a, b) || Lex(b, a)
    ensures !(Lex(a, b) && Lex(b, a)) && (a == b ==> !Lex(a, b))
  {
    if a != [] {
      var n := |a| - 1;
      LexTotal(a[..n], b[..n]);
      assert a == a[..n] + [a[n]] && b == b[..n] + [b[n]];
    }
  }

  lemma Transitive(a: seq<int>, b: seq<int>, c: seq<int>)
    requires (a == b || Sooner(a, b)) && (b == c || Sooner(b, c))
    ensures a == c || Sooner(a, c)
    ensures a != b || b != c ==> Sooner(a, c)
  {
    if |a| == |b| == |c| && a != b && b != c { LexTransitive(a, b, c); }
  }

  lemma Total(a: seq<int>, b: seq<int>)
    ensures a == b || Sooner(a, b) || Sooner(b, a)
    ensures !(Sooner(a, b) && Sooner(b, a)) && (a == b ==> !Sooner(a, b))
  {
    if |a| == |b| { LexTotal(a, b); }
  }

  lemma Extended(a: seq<int>, b: seq<int>, x: int, y: int)
    requires Sooner(a, b) || (a == b && x < y)
    ensures Sooner(a + [x], b + [y])
  {
    assert (a + [x])[..|a|] == a && (b + [y])[..|b|] == b;
  }

  lemma Longer(a: seq<int>, x: int)
    ensures Sooner(a, a + [x])
  {
  }
}
