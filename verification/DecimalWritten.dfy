/** Streams as they are written: decimal numbers, one a line, come back as their count, sum and checksum. */
module DecimalWritten {
  import opened Prelude
  import opened Words
  import opened DecimalStream

  // ----- numbers ------------------------------------------------------------------------------------------------

  /** The decimal form of a number, without leading zeros. */
  function Write(v: nat): (b: seq<Byte>)
    ensures b != []
  {
    if v < 10 then [48 + v] else Write(v / 10) + [48 + v % 10]
  }

  lemma {:induction false} WriteIs(v: nat)
    ensures Digits(Write(v)) && Value(Write(v)) == v
    ensures forall i :: 0 <= i < |Write(v)| ==> 48 <= Write(v)[i] as int <= 57
  {
    if v < 10 {
      assert [48 + v][..0] == [];
    } else {
      WriteIs(v / 10);
      var b := Write(v / 10);
      assert (b + [48 + v % 10])[..|b|] == b;
    }
  }

  lemma WriteShort(v: nat)
    requires v <= 100_000
    ensures |Write(v)| <= 6
  {
    assert v / 10 <= 10_000 && v / 10 / 10 <= 1000 && v / 10 / 10 / 10 <= 100;
    var w := v / 10 / 10 / 10;
    assert |Write(w)| <= 3;
    assert |Write(v / 10 / 10)| <= |Write(w)| + 1;
    assert |Write(v / 10)| <= |Write(v / 10 / 10)| + 1;
  }

  // ----- lines --------------------------------------------------------------------------------------------------

  /** A number, and whether its line ends in carriage return and line feed or in a line feed alone. */
  datatype Line = Line(value: nat, carriage: bool)

  function Ending(carriage: bool): seq<Byte> { if carriage then [13, 10] else [10] }

  function Written(lines: seq<Line>): seq<Byte> {
    if lines == [] then [] else Write(lines[0].value) + Ending(lines[0].carriage) + Written(lines[1..])
  }

  function Forms(lines: seq<Line>): seq<seq<Byte>> {
    if lines == [] then [] else [Write(lines[0].value)] + Forms(lines[1..])
  }

  /** A line ends at its first line feed and loses one carriage return there; the last one needs no end. */
  lemma RecordsSays(a: seq<Byte>, b: seq<Byte>)
    requires 10 !in a
    ensures Records(a + [10] + b) ==
            [if a != [] && a[|a| - 1] as int == 13 then a[..|a| - 1] else a] + Records(b)
    ensures a != [] ==> Records(a) == [a]
    ensures Records([]) == []
  {
    var s := a + [10] + b;
    LineEndIs(s, |a|);
    RecordsStep(s, |a|);
    assert s[..|a|] == a && s[|a| + 1..] == b;
    if a != [] { RecordsLast(a); }
  }

  /** One written line in front. */
  lemma LineRead(line: Line, rest: seq<Byte>)
    ensures Records(Write(line.value) + Ending(line.carriage) + rest) == [Write(line.value)] + Records(rest)
  {
    var b := Write(line.value);
    WriteIs(line.value);
    assert 10 !in b && 13 !in b;
    if line.carriage {
      RecordsSays(b + [13], rest);
      assert b + [13, 10] + rest == b + [13] + [10] + rest;
      assert (b + [13])[..|b|] == b;
    } else {
      RecordsSays(b, rest);
    }
  }

  lemma {:induction false} RecordsWritten(lines: seq<Line>, last: seq<Byte>)
    ensures Records(Written(lines) + last) == Forms(lines) + Records(last)
  {
    hide Records, Write, Ending;
    if lines == [] {
      assert Written(lines) + last == last;
    } else {
      var first, rest := Write(lines[0].value) + Ending(lines[0].carriage), Written(lines[1..]);
      RecordsWritten(lines[1..], last);
      LineRead(lines[0], rest + last);
      assert Written(lines) + last == first + (rest + last);
      Grouped([Write(lines[0].value)], Forms(lines[1..]), Records(last));
    }
  }

  lemma Grouped<T>(a: seq<T>, b: seq<T>, c: seq<T>)
    ensures a + (b + c) == a + b + c
  {
  }

  // ----- statistics ---------------------------------------------------------------------------------------------

  function SumOf(lines: seq<Line>): nat { if lines == [] then 0 else lines[0].value + SumOf(lines[1..]) }

  /** The checksum: multiplied by a prime to 32 bits, exclusive or the next value, from the first value on. */
  function Mixed(c: nat, lines: seq<Line>): nat
    decreases |lines|
  {
    if lines == [] then c else Mixed(Xor(c * 16_777_619 % 4_294_967_296, lines[0].value), lines[1..])
  }

  predicate Small(lines: seq<Line>) { forall i :: 0 <= i < |lines| ==> lines[i].value <= 100_000 }

  lemma {:induction false} FormsOk(lines: seq<Line>, limit: Limit)
    requires limit.AtMost? ==> limit.digits >= 6
    ensures |Forms(lines)| == |lines|
    ensures forall i :: 0 <= i < |lines| ==> Forms(lines)[i] == Write(lines[i].value) && Digits(Forms(lines)[i])
    ensures Small(lines) <==> AllOk(Forms(lines), limit)
  {
    if lines != [] {
      FormsOk(lines[1..], limit);
      var v, forms := lines[0].value, Forms(lines);
      WriteIs(v);
      if v <= 100_000 { WriteShort(v); }
      assert forms[0] == Write(v) && forms[1..] == Forms(lines[1..]);
      if Small(lines) { assert Small(lines[1..]); }
      if AllOk(forms, limit) {
        forall i | 0 <= i < |lines| - 1 ensures RecordOk(forms[1..][i], limit) { assert RecordOk(forms[i + 1], limit); }
        assert RecordOk(forms[0], limit);
      }
    }
  }

  lemma {:induction false} FoldWritten(s: Stats, lines: seq<Line>)
    requires forall i :: 0 <= i < |Forms(lines)| ==> Digits(Forms(lines)[i])
    ensures Fold(s, Forms(lines)) == Stats(s.count + |lines|, s.sum + SumOf(lines), Mixed(s.checksum, lines))
    decreases |lines|
  {
    if lines != [] {
      var v, forms := lines[0].value, Forms(lines);
      WriteIs(v);
      assert forms[0] == Write(v) && forms[1..] == Forms(lines[1..]);
      FoldWritten(Pushed(s, v), lines[1..]);
    }
  }

  /**
   * Written lines are read back: count, sum and checksum of the numbers, if none exceeds 100000 and the stream is
   * no longer than 1048576 bytes, and a rejection otherwise. The end of the last line may be left out.
   */
  lemma WrittenRead(lines: seq<Line>, limit: Limit)
    requires limit.AtMost? ==> limit.digits >= 6
    ensures Result(Written(lines), limit) ==
            if |Written(lines)| <= 1_048_576 && Small(lines)
            then Some(Stats(|lines|, SumOf(lines), Mixed(0, lines))) else None
  {
    RecordsWritten(lines, []);
    assert Written(lines) + [] == Written(lines) && Forms(lines) + [] == Forms(lines);
    FormsOk(lines, limit);
    FoldWritten(EMPTY, lines);
  }

  lemma OpenEndRead(lines: seq<Line>, v: nat, limit: Limit)
    ensures Records(Written(lines) + Write(v)) == Records(Written(lines + [Line(v, false)]))
  {
    WriteIs(v);
    RecordsWritten(lines, Write(v));
    RecordsSays(Write(v), []);
    RecordsWritten(lines + [Line(v, false)], []);
    FormsSnoc(lines, Line(v, false));
    assert Written(lines + [Line(v, false)]) + [] == Written(lines + [Line(v, false)]);
    assert Forms(lines + [Line(v, false)]) + [] == Forms(lines + [Line(v, false)]);
  }

  lemma {:induction false} FormsSnoc(lines: seq<Line>, last: Line)
    ensures Forms(lines + [last]) == Forms(lines) + [Write(last.value)]
  {
    if lines != [] {
      assert (lines + [last])[1..] == lines[1..] + [last];
      FormsSnoc(lines[1..], last);
    } else {
      assert ([] + [last])[1..] == [];
    }
  }

  /** A stream is accepted exactly if all its records are numbers of digits within the limits. */
  lemma AcceptedIff(input: seq<Byte>, limit: Limit)
    ensures Result(input, limit).Some? <==>
            |input| <= 1_048_576 &&
            forall r :: r in Records(input) ==>
              r != [] && (forall i :: 0 <= i < |r| ==> 48 <= r[i] as int <= 57) && Digits(r) && Value(r) <= 100_000 &&
              (limit.AtMost? ==> |r| <= limit.digits)
  {
    var records := Records(input);
    if forall r :: r in records ==> RecordOk(r, limit) {
      forall i | 0 <= i < |records| ensures RecordOk(records[i], limit) {}
    }
  }
}
