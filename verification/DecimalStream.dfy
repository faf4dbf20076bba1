/**
 * The multilingual stream study: decimal records, one per line, summed up three ways: the Rust
 * reference that cuts out each record, the Rust candidate that makes one pass over the bytes, and
 * the C candidate with its own overflow guard.
 */
module DecimalStream {
  import opened Prelude
  import opened Words

  const MAX_INPUT := 1_048_576
  const MAX_VALUE := 100_000
  const PRIME := 16_777_619
  const CR: Byte := 13
  const LF: Byte := 10
  const U64_MAX := 0xffff_ffff_ffff_ffff

  datatype Stats = Stats(count: nat, sum: nat, checksum: nat)

  const EMPTY := Stats(0, 0, 0)

  function Pushed(s: Stats, value: nat): Stats {
    Stats(s.count + 1, s.sum + value, Xor(s.checksum * PRIME % WORD, value))
  }

  // ----- what a stream means ---------------------------------------------------------------------------

  predicate Digit(b: Byte) { 48 <= b as int <= 57 }

  predicate Digits(s: seq<Byte>) { forall i :: 0 <= i < |s| ==> Digit(s[i]) }

  function Value(s: seq<Byte>): nat
    requires Digits(s)
  {
    if s == [] then 0 else Value(s[..|s| - 1]) * 10 + (s[|s| - 1] as int - 48)
  }

  /** Position of the first line feed, or the length. */
  function LineEnd(s: seq<Byte>): (p: nat)
    ensures p <= |s| && (p < |s| ==> s[p] == LF) && forall i :: 0 <= i < p ==> s[i] != LF
  {
    if s == [] || s[0] == LF then 0 else 1 + LineEnd(s[1..])
  }

  /** A terminated line loses one carriage return at its end. */
  function Strip(line: seq<Byte>): seq<Byte> {
    if line != [] && line[|line| - 1] == CR then line[..|line| - 1] else line
  }

  /** The records of a stream; nothing follows a final line feed. */
  function Records(s: seq<Byte>): seq<seq<Byte>>
    decreases |s|
  {
    if s == [] then []
    else
      var p := LineEnd(s);
      if p == |s| then [s] else [Strip(s[..p])] + Records(s[p + 1..])
  }

  /** How many digits a record may have. */
  datatype Limit = NoLimit | AtMost(digits: nat)

  predicate Within(record: seq<Byte>, limit: Limit) { limit.NoLimit? || |record| <= limit.digits }

  predicate RecordOk(record: seq<Byte>, limit: Limit) {
    record != [] && Digits(record) && Value(record) <= MAX_VALUE && Within(record, limit)
  }

  predicate AllOk(records: seq<seq<Byte>>, limit: Limit) {
    forall i :: 0 <= i < |records| ==> RecordOk(records[i], limit)
  }

  function Fold(s: Stats, records: seq<seq<Byte>>): Stats
    requires forall i :: 0 <= i < |records| ==> Digits(records[i])
    decreases |records|
  {
    if records == [] then s else Fold(Pushed(s, Value(records[0])), records[1..])
  }

  /** The statistics of a stream, if every record is acceptable. */
  function Total(start: Stats, records: seq<seq<Byte>>, limit: Limit): Option<Stats> {
    if AllOk(records, limit) then Some(Fold(start, records)) else None
  }

  function Result(input: seq<Byte>, limit: Limit): Option<Stats> {
    if |input| > MAX_INPUT then None else Total(EMPTY, Records(input), limit)
  }

  /** One record at a time. */
  lemma TotalStep(start: Stats, record: seq<Byte>, rest: seq<seq<Byte>>, limit: Limit)
    ensures Total(start, [record] + rest, limit) ==
            if RecordOk(record, limit) then Total(Pushed(start, Value(record)), rest, limit) else None
  {
    var all := [record] + rest;
    assert all[0] == record && all[1..] == rest;
    if AllOk(all, limit) {
      forall i | 0 <= i < |rest| ensures RecordOk(rest[i], limit) { assert all[i + 1] == rest[i]; }
    }
    if RecordOk(record, limit) && AllOk(rest, limit) {
      forall i | 0 <= i < |all| ensures RecordOk(all[i], limit) {
        if i > 0 { assert all[i] == rest[i - 1]; }
      }
    }
  }

  lemma TotalNone(start: Stats, limit: Limit)
    ensures Total(start, [], limit) == Some(start)
  {
  }

  // ----- parsing one record ------------------------------------------------------------------------------

  lemma {:induction false} ValueGrows(s: seq<Byte>, k: nat)
    requires Digits(s) && k <= |s|
    ensures Value(s[..k]) <= Value(s)
  {
    if k == |s| {
      assert s[..k] == s;
    } else {
      var front := s[..|s| - 1];
      ValueGrows(front, k);
      assert front[..k] == s[..k];
    }
  }

  /** Gives up as soon as the value is too large, which no further digit can mend. */
  method ParseDecimal(record: seq<Byte>) returns (r: Option<nat>)
    ensures r == if RecordOk(record, NoLimit) then Some(Value(record)) else None
  {
    if |record| == 0 { return None; }
    var value := 0;
    for i := 0 to |record|
      invariant Digits(record[..i]) && value == Value(record[..i]) <= MAX_VALUE
    {
      var byte := record[i];
      if !Digit(byte) { return None; }
      assert record[..i + 1][..i] == record[..i];
      if value * 10 >= WORD { return None; }
      value := value * 10;
      if value + (byte as int - 48) >= WORD { return None; }
      value := value + (byte as int - 48);
      if value > MAX_VALUE {
        if Digits(record) { ValueGrows(record, i + 1); }
        return None;
      }
    }
    assert record[..|record|] == record;
    r := Some(value);
  }

  /** The counters cannot overflow while at most one record per byte was counted. */
  predicate Bounded(s: Stats, bytes: nat) { s.count <= bytes && s.sum <= MAX_VALUE * s.count && s.checksum < WORD }

  lemma PushBounded(s: Stats, value: nat, bytes: nat, more: nat)
    requires Bounded(s, bytes) && value <= MAX_VALUE && bytes < more
    ensures Bounded(Pushed(s, value), more)
  {
    EightBits(0);
    XorBelow(s.checksum * PRIME % WORD, value, 32);
  }

  /** Checked additions, as in the program. */
  method Push(s: Stats, value: nat) returns (r: Option<Stats>)
    ensures r == if s.count + 1 <= U64_MAX && s.sum + value <= U64_MAX then Some(Pushed(s, value)) else None
  {
    if s.count + 1 > U64_MAX { return None; }
    if s.sum + value > U64_MAX { return None; }
    r := Some(Stats(s.count + 1, s.sum + value, Xor(s.checksum * PRIME % WORD, value)));
  }

  method PushRecord(s: Stats, value: nat, ghost bytes: nat, ghost more: nat) returns (r: Option<Stats>)
    requires Bounded(s, bytes) && value <= MAX_VALUE && bytes < more <= MAX_INPUT + 1
    ensures r == Some(Pushed(s, value)) && Bounded(r.value, more)
  {
    PushBounded(s, value, bytes, more);
    r := Push(s, value);
  }

  // ----- the reference --------------------------------------------------------------------------------------

  lemma LineEndIs(s: seq<Byte>, p: nat)
    requires p <= |s| && (p < |s| ==> s[p] == LF) && forall i :: 0 <= i < p ==> s[i] != LF
    ensures LineEnd(s) == p
  {
  }

  lemma RecordsStep(s: seq<Byte>, p: nat)
    requires p < |s| && s[p] == LF && forall i :: 0 <= i < p ==> s[i] != LF
    ensures Records(s) == [Strip(s[..p])] + Records(s[p + 1..])
  {
    LineEndIs(s, p);
  }

  lemma RecordsLast(s: seq<Byte>)
    requires s != [] && forall i :: 0 <= i < |s| ==> s[i] != LF
    ensures Records(s) == [s]
  {
    LineEndIs(s, |s|);
  }

  /** What is left to total at byte `start`. */
  function Left(stats: Stats, input: seq<Byte>, start: nat, limit: Limit): Option<Stats>
    requires start <= |input|
  {
    Total(stats, Records(input[start..]), limit)
  }

  ghost predicate NoLine(input: seq<Byte>, start: nat, end: nat)
    requires end <= |input|
  {
    forall i :: start <= i < end ==> input[i] != LF
  }

  lemma LineStep(stats: Stats, input: seq<Byte>, start: nat, index: nat, limit: Limit)
    requires start <= index < |input| && input[index] == LF && NoLine(input, start, index)
    ensures var record := Strip(input[start..index]);
            Left(stats, input, start, limit) ==
            if RecordOk(record, limit) then Left(Pushed(stats, Value(record)), input, index + 1, limit) else None
  {
    var rest := input[start..];
    RecordsStep(rest, index - start);
    assert rest[..index - start] == input[start..index];
    assert rest[index - start + 1..] == input[index + 1..];
    TotalStep(stats, Strip(input[start..index]), Records(input[index + 1..]), limit);
  }

  lemma LineIs(stats: Stats, input: seq<Byte>, start: nat, end: nat, next: nat, limit: Limit, record: seq<Byte>)
    requires start <= end < |input| && next == end + 1 && input[end] == LF && NoLine(input, start, end)
    requires Strip(input[start..end]) == record
    ensures RecordOk(record, limit) ==>
              Left(stats, input, start, limit) == Left(Pushed(stats, Value(record)), input, next, limit)
    ensures !RecordOk(record, limit) ==> Left(stats, input, start, limit) == None
  {
    LineStep(stats, input, start, end, limit);
  }

  lemma LastStep(stats: Stats, input: seq<Byte>, start: nat, limit: Limit)
    requires start < |input| && NoLine(input, start, |input|)
    ensures var record := input[start..];
            Left(stats, input, start, limit) ==
            if RecordOk(record, limit) then Some(Pushed(stats, Value(record))) else None
  {
    RecordsLast(input[start..]);
    assert [input[start..]] == [input[start..]] + [];
    TotalStep(stats, input[start..], [], limit);
    if RecordOk(input[start..], limit) { TotalNone(Pushed(stats, Value(input[start..])), limit); }
  }

  lemma AllLeft(input: seq<Byte>)
    requires |input| <= MAX_INPUT
    ensures Left(EMPTY, input, 0, NoLimit) == Result(input, NoLimit)
  {
    assert input[0..] == input;
  }

  lemma NothingRead(input: seq<Byte>)
    ensures Bounded(EMPTY, 0) && NoLine(input, 0, 0)
  {
  }

  lemma NoLineYet(input: seq<Byte>, start: nat)
    requires start <= |input|
    ensures NoLine(input, start, start)
  {
  }

  lemma NoLineMore(input: seq<Byte>, start: nat, index: nat)
    requires index < |input| && NoLine(input, start, index) && input[index] != LF
    ensures NoLine(input, start, index + 1)
  {
  }

  lemma ZeroInput(input: seq<Byte>)
    requires 0 in input
    ensures Result(input, NoLimit) == None
  {
    ZeroRejected(input, NoLimit);
  }

  lemma NothingLeft(stats: Stats, input: seq<Byte>, limit: Limit)
    ensures Left(stats, input, |input|, limit) == Some(stats)
  {
    assert input[|input|..] == [];
    TotalNone(stats, limit);
  }

  /** Parses a record and pushes its value. */
  method Take(stats: Stats, record: seq<Byte>, ghost bytes: nat, ghost more: nat) returns (r: Option<Stats>)
    requires Bounded(stats, bytes) && bytes < more <= MAX_INPUT + 1
    ensures r == if RecordOk(record, NoLimit) then Some(Pushed(stats, Value(record))) else None
    ensures r.Some? ==> Bounded(r.value, more)
  {
    var value := ParseDecimal(record);
    if value.None? { return None; }
    r := PushRecord(stats, value.value, bytes, more);
  }

  /** Where the record of the line from `start` to the line feed at `index` ends. */
  method RecordEnd(input: seq<Byte>, start: nat, index: nat) returns (end: nat)
    requires start <= index < |input|
    ensures start <= end <= index && input[start..end] == Strip(input[start..index])
  {
    end := index;
    if end > start && input[end - 1] == CR { end := end - 1; }
  }

  /** The line that ends at `index`. */
  method TakeLine(input: seq<Byte>, stats: Stats, start: nat, index: nat) returns (r: Option<Stats>)
    requires start <= index < |input| <= MAX_INPUT && input[index] == LF && NoLine(input, start, index)
    requires Bounded(stats, start)
    ensures r.None? ==> Left(stats, input, start, NoLimit) == None
    ensures r.Some? ==>
              Bounded(r.value, index + 1) &&
              Left(r.value, input, index + 1, NoLimit) == Left(stats, input, start, NoLimit)
  {
    var end := RecordEnd(input, start, index);
    LineIs(stats, input, start, index, index + 1, NoLimit, input[start..end]);
    r := Take(stats, input[start..end], start, index + 1);
  }

  method Reference(input: seq<Byte>) returns (r: Option<Stats>)
    ensures r == Result(input, NoLimit)
  {
    if |input| > MAX_INPUT || 0 in input {
      if 0 in input { ZeroInput(input); }
      return None;
    }
    r := ReadLines(input);
  }

  /** Line by line, and what follows the last line feed. */
  method ReadLines(input: seq<Byte>) returns (r: Option<Stats>)
    requires |input| <= MAX_INPUT
    ensures r == Result(input, NoLimit)
  {
    hide *;
    var stats, start := EMPTY, 0;
    AllLeft(input);
    NothingRead(input);
    for index := 0 to |input|
      invariant start <= index && Bounded(stats, start) && NoLine(input, start, index)
      invariant Left(stats, input, start, NoLimit) == Result(input, NoLimit)
    {
      if input[index] == LF {
        var next := TakeLine(input, stats, start, index);
        if next.None? { return None; }
        stats, start := next.value, index + 1;
        NoLineYet(input, start);
      } else {
        NoLineMore(input, start, index);
      }
    }
    if start < |input| {
      LastStep(stats, input, start, NoLimit);
      r := Take(stats, input[start..], start, |input| + 1);
      return;
    }
    NothingLeft(stats, input, NoLimit);
    r := Some(stats);
  }

  lemma AllOkStep(record: seq<Byte>, rest: seq<seq<Byte>>, limit: Limit)
    ensures AllOk([record] + rest, limit) <==> RecordOk(record, limit) && AllOk(rest, limit)
  {
    TotalStep(EMPTY, record, rest, limit);
    if RecordOk(record, limit) && !AllOk(rest, limit) {
      assert Total(EMPTY, [record] + rest, limit) == None;
    }
  }

  lemma ZeroInRecord(record: seq<Byte>, z: nat, rest: seq<seq<Byte>>, limit: Limit)
    requires z < |record| && record[z] == 0
    ensures !AllOk([record] + rest, limit)
  {
    assert !Digit(record[z]);
    assert ([record] + rest)[0] == record;
  }

  lemma ZeroInRest(record: seq<Byte>, rest: seq<seq<Byte>>, limit: Limit)
    requires !AllOk(rest, limit)
    ensures !AllOk([record] + rest, limit)
  {
    AllOkStep(record, rest, limit);
  }

  /** A zero byte makes some record unacceptable. */
  lemma {:induction false} ZeroRejected(s: seq<Byte>, limit: Limit)
    requires 0 in s
    ensures !AllOk(Records(s), limit)
    decreases |s|
  {
    hide AllOk, LineEnd;
    var z :| 0 <= z < |s| && s[z] == 0;
    var p := LineEnd(s);
    if p == |s| {
      assert Records(s) == [s] + [];
      ZeroInRecord(s, z, [], limit);
    } else {
      var record, rest := Strip(s[..p]), s[p + 1..];
      assert Records(s) == [record] + Records(rest);
      if z < p {
        assert record[z] == 0;
        ZeroInRecord(record, z, Records(rest), limit);
      } else {
        assert rest[z - p - 1] == 0;
        ZeroRejected(rest, limit);
        ZeroInRest(record, Records(rest), limit);
      }
    }
  }

  // ----- the one-pass parsers ---------------------------------------------------------------------------------

  function FirstRecord(s: seq<Byte>): seq<Byte> {
    var p := LineEnd(s);
    if p == |s| then s else Strip(s[..p])
  }

  lemma FirstMustBeOk(stats: Stats, s: seq<Byte>, limit: Limit)
    requires s != [] && !RecordOk(FirstRecord(s), limit)
    ensures Total(stats, Records(s), limit) == None
  {
    var p := LineEnd(s);
    if p == |s| {
      assert Records(s) == [s] + [];
      TotalStep(stats, s, [], limit);
    } else {
      TotalStep(stats, Strip(s[..p]), Records(s[p + 1..]), limit);
    }
  }

  /** Leading digits belong to the first record whatever follows. */
  lemma DigitsLead(s: seq<Byte>, k: nat)
    requires k <= |s| && Digits(s[..k])
    ensures k <= |FirstRecord(s)| && FirstRecord(s)[..k] == s[..k]
    ensures k <= LineEnd(s)
  {
    var p := LineEnd(s);
    assert p >= k || Digit(s[..k][p]);
    assert k == 0 || Digit(s[..k][k - 1]);
  }

  /** Too many digits, or too large a value, is never mended by what follows. */
  lemma BadDigits(stats: Stats, s: seq<Byte>, k: nat, limit: Limit)
    requires 0 < k <= |s| && Digits(s[..k])
    requires Value(s[..k]) > MAX_VALUE || (limit.AtMost? && k > limit.digits)
    ensures Total(stats, Records(s), limit) == None
  {
    DigitsLead(s, k);
    var record := FirstRecord(s);
    if Digits(record) { ValueGrows(record, k); }
    FirstMustBeOk(stats, s, limit);
  }

  /** Nor is a byte that neither is a digit nor ends the line. */
  lemma BadByte(stats: Stats, s: seq<Byte>, k: nat, limit: Limit)
    requires k < |s| && Digits(s[..k]) && !Digit(s[k]) && s[k] != LF
    requires s[k] == CR ==> k + 1 == |s| || s[k + 1] != LF
    ensures Total(stats, Records(s), limit) == None
  {
    DigitsLead(s, k);
    var p, record := LineEnd(s), FirstRecord(s);
    assert k < p;
    assert k < |record| && record[k] == s[k];
    FirstMustBeOk(stats, s, limit);
  }

  /** A line of digits, with its ending of one or two bytes. */
  lemma DigitsLine(stats: Stats, input: seq<Byte>, start: nat, index: nat, next: nat, limit: Limit)
    requires start <= index < next <= |input| && Digits(input[start..index])
    requires limit.AtMost? && index - start <= limit.digits && Value(input[start..index]) <= MAX_VALUE
    requires (next == index + 1 && input[index] == LF) ||
             (next == index + 2 && input[index] == CR && input[index + 1] == LF)
    ensures start == index ==> Left(stats, input, start, limit) == None
    ensures start < index ==>
              Left(stats, input, start, limit) == Left(Pushed(stats, Value(input[start..index])), input, next, limit)
  {
    DigitsHaveNoLine(input, start, index);
    StripLine(input, start, index, next - 1);
    var record := input[start..index];
    if start == index {
      assert !RecordOk(record, limit);
    } else {
      assert RecordOk(record, limit);
    }
    LineIs(stats, input, start, next - 1, next, limit, record);
  }

  lemma StripLine(input: seq<Byte>, start: nat, index: nat, end: nat)
    requires start <= index <= end <= |input| && Digits(input[start..index])
    requires end == index || (end == index + 1 && input[index] == CR)
    ensures Strip(input[start..end]) == input[start..index]
  {
    var line := input[start..end];
    assert line[..index - start] == input[start..index];
    StripDigits(line, index - start);
  }

  lemma DigitsHaveNoLine(input: seq<Byte>, start: nat, index: nat)
    requires start <= index <= |input| && Digits(input[start..index])
    ensures NoLine(input, start, index)
  {
    forall i | start <= i < index ensures input[i] != LF { assert Digit(input[start..index][i - start]); }
  }

  lemma StripDigits(line: seq<Byte>, k: nat)
    requires k <= |line| <= k + 1 && Digits(line[..k]) && (|line| == k + 1 ==> line[k] == CR)
    ensures Strip(line) == line[..k]
  {
    if |line| == k && k > 0 { assert Digit(line[..k][k - 1]); }
  }

  /** The record that the input ends in. */
  lemma LastDigits(stats: Stats, input: seq<Byte>, start: nat, limit: Limit)
    requires start <= |input| && Digits(input[start..]) && limit.AtMost? && |input| - start <= limit.digits
    requires Value(input[start..]) <= MAX_VALUE
    ensures Left(stats, input, start, limit) ==
            Some(if start < |input| then Pushed(stats, Value(input[start..])) else stats)
  {
    if start < |input| {
      assert input[start..|input|] == input[start..];
      DigitsHaveNoLine(input, start, |input|);
      LastStep(stats, input, start, limit);
    } else {
      NothingLeft(stats, input, limit);
    }
  }

  /** What a one-pass parser knows: the digits of the current record and what came before. */
  ghost predicate Scanning(input: seq<Byte>, limit: Limit, stats: Stats, start: nat, index: nat, value: nat,
                           digits: nat)
  {
    start <= index <= |input| <= MAX_INPUT && limit.AtMost? && Digits(input[start..index]) &&
    digits == index - start <= limit.digits && value == Value(input[start..index]) <= MAX_VALUE &&
    Bounded(stats, start) && Left(stats, input, start, limit) == Result(input, limit)
  }

  lemma ScanStart(input: seq<Byte>, limit: Limit)
    requires |input| <= MAX_INPUT && limit.AtMost?
    ensures Scanning(input, limit, EMPTY, 0, 0, 0, 0)
  {
    assert input[0..] == input;
  }

  lemma OneMoreDigit(input: seq<Byte>, start: nat, index: nat)
    requires start <= index < |input| && Digits(input[start..index]) && Digit(input[index])
    ensures var more := input[start..index + 1];
            Digits(more) && Value(more) == Value(input[start..index]) * 10 + (input[index] as int - 48) &&
            input[start..][..|more|] == more
  {
    var more := input[start..index + 1];
    assert more == input[start..index] + [input[index]];
    assert more[..|more| - 1] == input[start..index];
  }

  /** The next digit is within the limits, or the whole input is rejected. */
  lemma ScanDigit(input: seq<Byte>, limit: Limit, stats: Stats, start: nat, index: nat, value: nat, digits: nat)
    requires Scanning(input, limit, stats, start, index, value, digits) && index < |input| && Digit(input[index])
    ensures var v := value * 10 + (input[index] as int - 48);
            if digits < limit.digits && v <= MAX_VALUE
            then Scanning(input, limit, stats, start, index + 1, v, digits + 1)
            else Result(input, limit) == None
  {
    var more := input[start..index + 1];
    OneMoreDigit(input, start, index);
    if digits == limit.digits || Value(more) > MAX_VALUE { BadDigits(stats, input[start..], |more|, limit); }
  }

  predicate EndsLine(input: seq<Byte>, index: nat, next: nat) {
    index < next <= |input| &&
    ((next == index + 1 && input[index] == LF) ||
     (next == index + 2 && input[index] == CR && input[index + 1] == LF))
  }

  lemma ScanLine(input: seq<Byte>, limit: Limit, stats: Stats, start: nat, index: nat, value: nat, digits: nat,
                 next: nat)
    requires Scanning(input, limit, stats, start, index, value, digits) && EndsLine(input, index, next)
    ensures digits == 0 ==> Result(input, limit) == None
    ensures digits > 0 ==> Left(Pushed(stats, value), input, next, limit) == Result(input, limit)
  {
    DigitsLine(stats, input, start, index, next, limit);
  }

  lemma ScanBad(input: seq<Byte>, limit: Limit, stats: Stats, start: nat, index: nat, value: nat, digits: nat)
    requires Scanning(input, limit, stats, start, index, value, digits) && index < |input|
    requires !Digit(input[index]) && input[index] != LF
    requires input[index] == CR ==> index + 1 == |input| || input[index + 1] != LF
    ensures Result(input, limit) == None
  {
    var rest := input[start..];
    assert rest[..index - start] == input[start..index];
    BadByte(stats, rest, index - start, limit);
  }

  /** The line that ends at `index`: its record must have a digit. */
  method PushLine(input: seq<Byte>, stats: Stats, value: nat, digits: nat, next: nat,
                  ghost limit: Limit, ghost start: nat, ghost index: nat)
    returns (r: Option<Stats>)
    requires Scanning(input, limit, stats, start, index, value, digits) && EndsLine(input, index, next)
    ensures r.None? ==> Result(input, limit) == None
    ensures r.Some? ==> Scanning(input, limit, r.value, next, next, 0, 0)
  {
    ScanLine(input, limit, stats, start, index, value, digits, next);
    if digits == 0 { return None; }
    r := PushRecord(stats, value, start, next);
    assert input[next..next] == [];
  }

  /** The record that the input ends in. */
  method PushLast(input: seq<Byte>, stats: Stats, value: nat, digits: nat, ghost limit: Limit, ghost start: nat)
    returns (r: Option<Stats>)
    requires Scanning(input, limit, stats, start, |input|, value, digits)
    ensures r == Result(input, limit)
  {
    assert input[start..|input|] == input[start..];
    LastDigits(stats, input, start, limit);
    if digits == 0 { return Some(stats); }
    r := PushRecord(stats, value, start, |input| + 1);
  }

  method Candidate(input: seq<Byte>) returns (r: Option<Stats>)
    ensures r == Result(input, AtMost(255))
  {
    if |input| > MAX_INPUT || 0 in input {
      if 0 in input { ZeroRejected(input, AtMost(255)); }
      return None;
    }
    var stats, value: nat, digits: nat, index := EMPTY, 0, 0, 0;
    ghost var start, limit := 0, AtMost(255);
    ScanStart(input, limit);
    while index < |input|
      invariant Scanning(input, limit, stats, start, index, value, digits)
    {
      var byte := input[index];
      if Digit(byte) {
        ScanDigit(input, limit, stats, start, index, value, digits);
        if digits + 1 > 255 { return None; }
        if value * 10 >= WORD || value * 10 + (byte as int - 48) >= WORD { return None; }
        value, digits := value * 10 + (byte as int - 48), digits + 1;
        if value > MAX_VALUE { return None; }
        index := index + 1;
        continue;
      }
      var next := index;
      if byte == CR && index + 1 < |input| && input[index + 1] == LF {
        next := index + 2;
      } else if byte == LF {
        next := index + 1;
      } else {
        ScanBad(input, limit, stats, start, index, value, digits);
        return None;
      }
      var pushed := PushLine(input, stats, value, digits, next, limit, start, index);
      if pushed.None? { return None; }
      stats, value, digits, index, start := pushed.value, 0, 0, next, next;
    }
    r := PushLast(input, stats, value, digits, limit, start);
  }

  /** The division-based guard is the exact limit. */
  lemma GuardExact(value: nat, d: nat)
    requires d <= 9
    ensures value > (MAX_VALUE - d) / 10 <==> value * 10 + d > MAX_VALUE
  {
  }

  /** The C program: ten digits at most, and no separate test for zero bytes. */
  method CandidateC(input: seq<Byte>) returns (r: Option<Stats>)
    ensures r == Result(input, AtMost(10))
  {
    if |input| > MAX_INPUT { return None; }
    var stats, value: nat, digits: nat, i := EMPTY, 0, 0, 0;
    ghost var start, limit := 0, AtMost(10);
    ScanStart(input, limit);
    while i < |input|
      invariant Scanning(input, limit, stats, start, i, value, digits)
    {
      var byte := input[i];
      if Digit(byte) {
        ScanDigit(input, limit, stats, start, i, value, digits);
        var d := byte as int - 48;
        GuardExact(value, d);
        if digits >= 10 || value > (MAX_VALUE - d) / 10 { return None; }
        value, digits, i := value * 10 + d, digits + 1, i + 1;
        continue;
      }
      var next := i;
      if byte == CR && i + 1 < |input| && input[i + 1] == LF {
        next := i + 2;
      } else if byte == LF {
        next := i + 1;
      } else {
        ScanBad(input, limit, stats, start, i, value, digits);
        return None;
      }
      var pushed := PushLine(input, stats, value, digits, next, limit, start, i);
      if pushed.None? { return None; }
      stats, value, digits, i, start := pushed.value, 0, 0, next, next;
    }
    r := PushLast(input, stats, value, digits, limit, start);
  }

  // ----- main results -----------------------------------------------------------------------------------------

  predicate NoLonger(records: seq<seq<Byte>>, n: nat) { forall i :: 0 <= i < |records| ==> |records[i]| <= n }

  lemma AllOkIff(records: seq<seq<Byte>>, limit: Limit, smaller: nat)
    requires limit.AtMost? ==> smaller <= limit.digits
    ensures AllOk(records, AtMost(smaller)) <==> AllOk(records, limit) && NoLonger(records, smaller)
  {
    if AllOk(records, AtMost(smaller)) {
      forall i | 0 <= i < |records| ensures RecordOk(records[i], limit) && |records[i]| <= smaller {
        assert RecordOk(records[i], AtMost(smaller));
      }
    }
    if AllOk(records, limit) && NoLonger(records, smaller) {
      forall i | 0 <= i < |records| ensures RecordOk(records[i], AtMost(smaller)) {
        assert RecordOk(records[i], limit);
      }
    }
  }

  /** A smaller limit accepts exactly the streams without longer records, with the same statistics. */
  lemma LimitIff(input: seq<Byte>, limit: Limit, smaller: nat)
    requires limit.AtMost? ==> smaller <= limit.digits
    ensures Result(input, AtMost(smaller)).Some? <==>
            Result(input, limit).Some? && NoLonger(Records(input), smaller)
    ensures Result(input, AtMost(smaller)).Some? ==> Result(input, AtMost(smaller)) == Result(input, limit)
  {
    AllOkIff(Records(input), limit, smaller);
  }

  /** When exactly the Rust programs agree, and when the C program agrees with them. */
  lemma ProgramsAgreeIff(input: seq<Byte>)
    ensures Result(input, AtMost(255)) == Result(input, NoLimit) <==>
            Result(input, NoLimit) == None || NoLonger(Records(input), 255)
    ensures Result(input, AtMost(10)) == Result(input, AtMost(255)) <==>
            Result(input, AtMost(255)) == None || NoLonger(Records(input), 10)
  {
    LimitIff(input, NoLimit, 255);
    LimitIff(input, AtMost(255), 10);
  }

  /** The Rust programs disagree on a record of 256 zeros. */
  lemma ManyZerosDisagree()
    ensures var input: seq<Byte> := seq(256, _ => 48);
            Result(input, NoLimit) == Some(Stats(1, 0, 0)) && Result(input, AtMost(255)) == None
  {
    var input: seq<Byte> := seq(256, _ => 48);
    ZerosAreZero(256);
    LineEndIs(input, 256);
    assert Records(input) == [input];
    assert Pushed(EMPTY, 0) == Stats(1, 0, 0);
    LimitIff(input, NoLimit, 255);
    assert |Records(input)[0]| == 256;
    assert Fold(EMPTY, [input]) == Fold(Pushed(EMPTY, 0), [input][1..]);
  }

  lemma {:induction false} ZerosAreZero(n: nat)
    ensures var s: seq<Byte> := seq(n, _ => 48); Digits(s) && Value(s) == 0
  {
    if n > 0 {
      var s: seq<Byte> := seq(n, _ => 48);
      assert s[..n - 1] == seq(n - 1, _ => 48);
      ZerosAreZero(n - 1);
    }
  }

  function Sum(values: seq<nat>): nat {
    if values == [] then 0 else values[0] + Sum(values[1..])
  }

  function Values(records: seq<seq<Byte>>): (vs: seq<nat>)
    requires forall i :: 0 <= i < |records| ==> Digits(records[i])
    ensures |vs| == |records|
  {
    seq(|records|, i requires 0 <= i < |records| => Value(records[i]))
  }

  /** The statistics count the records and add up their values. */
  lemma {:induction false} FoldCounts(s: Stats, records: seq<seq<Byte>>)
    requires forall i :: 0 <= i < |records| ==> Digits(records[i])
    ensures Fold(s, records).count == s.count + |records|
    ensures Fold(s, records).sum == s.sum + Sum(Values(records))
    decreases |records|
  {
    if records != [] {
      assert Values(records)[1..] == Values(records[1..]);
      FoldCounts(Pushed(s, Value(records[0])), records[1..]);
    }
  }

  // ----- the checksum -------------------------------------------------------------------------------------------

  /** The inverse of 16777619 modulo 2^32. */
  const INVERSE := 0x359c_449b

  /** Multiplying a word by the prime loses nothing. */
  lemma ProductCancels(c: nat)
    requires c < WORD
    ensures c * 16_777_619 % WORD * INVERSE % WORD == c
  {
    var q, r := c * 16_777_619 / WORD, c * 16_777_619 % WORD;
    var k := c * 3_513_497 - q * INVERSE;
    assert 16_777_619 * INVERSE == 1 + 3_513_497 * WORD;
    assert r * INVERSE == c + k * WORD;
  }

  lemma XorInjective(a: nat, x: nat, y: nat)
    requires x != y
    ensures Xor(a, x) != Xor(a, y) && Xor(x, a) != Xor(y, a)
  {
    XorAssociates(a, a, x);
    XorAssociates(a, a, y);
    XorSelf(a);
    XorCommutes(a, x);
    XorCommutes(a, y);
  }

  /** One record: the checksum is multiplied by 16777619 modulo 2^32, then exclusive or the value. */
  lemma PushedChecksum(s: Stats, value: nat)
    ensures Pushed(s, value).checksum == Xor(s.checksum * 16_777_619 % 0x1_0000_0000, value)
  {
  }

  lemma PushedBelow(s: Stats, value: nat)
    requires value < WORD
    ensures Pushed(s, value).checksum < WORD
  {
    EightBits(0);
    XorBelow(s.checksum * PRIME % WORD, value, 32);
  }

  /** Different checksums stay different, whatever the next value, and so do different values. */
  lemma PushedDiffers(s: Stats, t: Stats, v: nat, w: nat)
    requires s.checksum < WORD && t.checksum < WORD
    requires (s.checksum != t.checksum && v == w) || (s.checksum == t.checksum && v != w)
    ensures Pushed(s, v).checksum != Pushed(t, w).checksum
  {
    if v == w {
      ProductCancels(s.checksum);
      ProductCancels(t.checksum);
      XorInjective(v, s.checksum * 16_777_619 % WORD, t.checksum * 16_777_619 % WORD);
    } else {
      XorInjective(s.checksum * 16_777_619 % WORD, v, w);
    }
  }

  lemma {:induction false} FoldDiffers(s: Stats, t: Stats, records: seq<seq<Byte>>)
    requires forall i :: 0 <= i < |records| ==> Digits(records[i]) && Value(records[i]) <= MAX_VALUE
    requires s.checksum < WORD && t.checksum < WORD && s.checksum != t.checksum
    ensures Fold(s, records).checksum != Fold(t, records).checksum
    decreases |records|
  {
    if records != [] {
      var v := Value(records[0]);
      PushedDiffers(s, t, v, v);
      PushedBelow(s, v);
      PushedBelow(t, v);
      FoldDiffers(Pushed(s, v), Pushed(t, v), records[1..]);
    }
  }

  /** Changing the value of one record always changes the checksum of the stream. */
  lemma {:induction false} OneRecordMatters(s: Stats, records: seq<seq<Byte>>, i: nat, other: seq<Byte>)
    requires i < |records| && s.checksum < WORD && Digits(other) && Value(other) <= MAX_VALUE
    requires forall k :: 0 <= k < |records| ==> Digits(records[k]) && Value(records[k]) <= MAX_VALUE
    requires Value(other) != Value(records[i])
    ensures Fold(s, records[i := other]).checksum != Fold(s, records).checksum
    decreases |records|
  {
    var changed := records[i := other];
    var v := Value(records[0]);
    PushedBelow(s, v);
    PushedBelow(s, Value(other));
    if i == 0 {
      assert changed[1..] == records[1..];
      PushedDiffers(s, s, v, Value(other));
      FoldDiffers(Pushed(s, v), Pushed(s, Value(other)), records[1..]);
    } else {
      assert changed[1..] == records[1..][i - 1 := other];
      OneRecordMatters(Pushed(s, v), records[1..], i - 1, other);
    }
  }

  /** The order of the records matters. */
  lemma OrderMatters()
    ensures Pushed(Pushed(EMPTY, 1), 2).checksum != Pushed(Pushed(EMPTY, 2), 1).checksum
    ensures Pushed(Pushed(EMPTY, 1), 2).sum == Pushed(Pushed(EMPTY, 2), 1).sum
  {
    assert Pushed(EMPTY, 1).checksum == 1 && Pushed(EMPTY, 2).checksum == 2;
    XorStep(16_777_619, 2);
    XorStep(33_555_238, 1);
  }
}
