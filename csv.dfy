/** The Java library calls the CSV import relies on, written out:
    `String.split(",")`, `String.trim()`, `Integer.parseInt` and, as its
    inverse, `Integer.toString`. Characters are compared by code point. */
module Csv {
  import opened Basics

  /** Cuts a line at every comma: a line with n commas has n + 1 fields,
      empty ones included. */
  function Fields(s: string): (r: seq<string>)
    ensures |r| >= 1
  {
    if s == [] then [[]]
    else
      var rest := Fields(s[1..]);
      if s[0] == ',' then [[]] + rest
      else [[s[0]] + rest[0]] + rest[1..]
  }

  /** No field contains a comma. */
  lemma {:induction false} FieldsCommaFree(s: string)
    ensures forall i :: 0 <= i < |Fields(s)| ==> ',' !in Fields(s)[i]
  {
    if s != [] {
      FieldsCommaFree(s[1..]);
    }
  }

  /** Writes fields back as a line, with a comma between each two. */
  function Join(fields: seq<string>): string
    requires |fields| >= 1
    decreases |fields|
  {
    if |fields| == 1 then fields[0] else fields[0] + [','] + Join(fields[1..])
  }

  /** Joining the fields of a line gives the line back. */
  lemma {:induction false} JoinFields(s: string)
    ensures Join(Fields(s)) == s
  {
    if s != [] {
      var rest := Fields(s[1..]);
      JoinFields(s[1..]);
      if s[0] != ',' {
        if |rest| == 1 {
          assert Join(Fields(s)) == [s[0]] + rest[0];
        } else {
          assert Fields(s)[1..] == rest[1..];
          assert Join(Fields(s)) == [s[0]] + rest[0] + [','] + Join(rest[1..]);
        }
        assert [s[0]] + s[1..] == s;
      }
    }
  }

  /** A field without commas is a line of one field. */
  lemma {:induction false} FieldsOfField(f: string)
    requires ',' !in f
    ensures Fields(f) == [f]
  {
    if f != [] {
      FieldsOfField(f[1..]);
      assert [f[0]] + f[1..] == f;
    }
  }

  /** A comma-free field followed by a comma starts the line's fields. */
  lemma {:induction false} FieldsAfter(f: string, t: string)
    requires ',' !in f
    ensures Fields(f + [','] + t) == [f] + Fields(t)
  {
    if f != [] {
      FieldsAfter(f[1..], t);
      assert (f + [','] + t)[1..] == f[1..] + [','] + t;
      assert [f[0]] + f[1..] == f;
    } else {
      assert ([','] + t)[1..] == t;
    }
  }

  /** Cutting a joined line gives back comma-free fields. */
  lemma {:induction false} FieldsJoin(fields: seq<string>)
    requires |fields| >= 1
    requires forall i :: 0 <= i < |fields| ==> ',' !in fields[i]
    ensures Fields(Join(fields)) == fields
    decreases |fields|
  {
    if |fields| == 1 {
      FieldsOfField(fields[0]);
    } else {
      FieldsJoin(fields[1..]);
      FieldsAfter(fields[0], Join(fields[1..]));
      assert [fields[0]] + fields[1..] == fields;
    }
  }

  /** `split` with no limit removes trailing empty strings from its result. */
  function DropTrailingEmpty(fields: seq<string>): seq<string>
    decreases |fields|
  {
    if fields == [] then []
    else if fields[|fields| - 1] == [] then DropTrailingEmpty(fields[..|fields| - 1])
    else fields
  }

  /** What is dropped is exactly the run of empty fields at the end. */
  lemma {:induction false} DropTrailingEmptyShape(fields: seq<string>)
    ensures var r := DropTrailingEmpty(fields);
      && |r| <= |fields| && r == fields[..|r|]
      && (forall i :: |r| <= i < |fields| ==> fields[i] == [])
      && (r == [] || r[|r| - 1] != [])
    decreases |fields|
  {
    if fields != [] && fields[|fields| - 1] == [] {
      var init := fields[..|fields| - 1];
      DropTrailingEmptyShape(init);
      var r := DropTrailingEmpty(init);
      assert init[..|r|] == fields[..|r|];
    }
  }

  /** `line.split(",")`: a line without a comma is returned whole (so the
      empty line gives one empty field); otherwise the fields between
      commas, trailing empty ones removed. */
  function Split(line: string): seq<string> {
    if ',' !in line then [line] else DropTrailingEmpty(Fields(line))
  }

  /** What `split` keeps: the line's fields up to the last non-empty one
      (all of them for a line without a comma), none containing a comma. */
  lemma SplitKeepsLeadingFields(line: string)
    ensures var parts := Split(line);
      && |parts| <= |Fields(line)| && parts == Fields(line)[..|parts|]
      && (forall i :: |parts| <= i < |Fields(line)| ==> Fields(line)[i] == [])
      && (forall i :: 0 <= i < |parts| ==> ',' !in parts[i])
      && (',' in line ==> parts == [] || parts[|parts| - 1] != [])
  {
    if ',' !in line {
      FieldsOfField(line);
    }
    DropTrailingEmptyShape(Fields(line));
    FieldsCommaFree(line);
  }

  /** A line of two comma-free fields, the second non-empty, splits into
      exactly those two. */
  lemma SplitTwo(a: string, b: string)
    requires ',' !in a && ',' !in b && b != []
    ensures Split(a + [','] + b) == [a, b]
  {
    FieldsAfter(a, b);
    FieldsOfField(b);
    assert (a + [','] + b)[|a|] == ',';
  }

  /** Characters `trim` removes: code points up to the space. */
  predicate IsBlank(c: char) {
    c <= ' '
  }

  function TrimStart(s: string): string {
    if s != [] && IsBlank(s[0]) then TrimStart(s[1..]) else s
  }

  function TrimEnd(s: string): string
    decreases |s|
  {
    if s != [] && IsBlank(s[|s| - 1]) then TrimEnd(s[..|s| - 1]) else s
  }

  /** `TrimStart` drops the leading blanks and no more. */
  lemma {:induction false} TrimStartShape(s: string)
    ensures var r := TrimStart(s);
      && |r| <= |s| && r == s[|s| - |r|..]
      && (forall i :: 0 <= i < |s| - |r| ==> IsBlank(s[i]))
      && (r == [] || !IsBlank(r[0]))
  {
    if s != [] && IsBlank(s[0]) {
      var tail := s[1..];
      TrimStartShape(tail);
      var r := TrimStart(tail);
      assert TrimStart(s) == r;
      assert tail[|tail| - |r|..] == s[|s| - |r|..];
      forall i | 0 <= i < |s| - |r| ensures IsBlank(s[i]) {
        if i > 0 {
          assert s[i] == tail[i - 1];
        }
      }
    }
  }

  /** `TrimEnd` drops the trailing blanks and no more. */
  lemma {:induction false} TrimEndShape(s: string)
    ensures var r := TrimEnd(s);
      && |r| <= |s| && r == s[..|r|]
      && (forall i :: |r| <= i < |s| ==> IsBlank(s[i]))
      && (r == [] || !IsBlank(r[|r| - 1]))
    decreases |s|
  {
    if s != [] && IsBlank(s[|s| - 1]) {
      var init := s[..|s| - 1];
      TrimEndShape(init);
      assert init[..|TrimEnd(init)|] == s[..|TrimEnd(init)|];
    }
  }

  /** `String.trim()`: drops blanks from both ends. */
  function Trim(s: string): string {
    TrimEnd(TrimStart(s))
  }

  /** The trimmed string is the part of `s` after its leading blanks and
      before its trailing ones, and itself starts and ends with a non-blank. */
  lemma TrimIsInnerPart(s: string)
    ensures var r := Trim(s);
      var i := |s| - |TrimStart(s)|;
      && (r == [] || (!IsBlank(r[0]) && !IsBlank(r[|r| - 1])))
      && 0 <= i <= |s| - |r| && s[i..i + |r|] == r
      && (forall k :: 0 <= k < i ==> IsBlank(s[k]))
      && (forall k :: i + |r| <= k < |s| ==> IsBlank(s[k]))
  {
    var t := TrimStart(s);
    var r := TrimEnd(t);
    TrimStartShape(s);
    TrimEndShape(t);
    var i := |s| - |t|;
    assert t == s[i..];
    assert r == t[..|r|];
    assert s[i..][..|r|] == s[i..i + |r|];
    forall k | i + |r| <= k < |s| ensures IsBlank(s[k]) {
      assert s[k] == t[k - i];
    }
  }

  /** Trimming adds no character: a field without commas stays without. */
  lemma TrimKeepsCommaFree(s: string)
    requires ',' !in s
    ensures ',' !in Trim(s)
  {
    TrimIsInnerPart(s);
    var r := Trim(s);
    var i := |s| - |TrimStart(s)|;
    forall k | 0 <= k < |r| ensures r[k] != ',' {
      assert r[k] == s[i + k];
    }
  }

  /** A string without blank ends is left as it is; trimming twice is
      trimming once. */
  lemma TrimKeepsTrimmed(s: string)
    requires s == [] || (!IsBlank(s[0]) && !IsBlank(s[|s| - 1]))
    ensures Trim(s) == s
  {
  }

  lemma TrimIdempotent(s: string)
    ensures Trim(Trim(s)) == Trim(s)
  {
    TrimIsInnerPart(s);
    TrimKeepsTrimmed(Trim(s));
  }

  predicate IsDigit(c: char) {
    '0' <= c <= '9'
  }

  predicate AllDigits(s: string) {
    forall i :: 0 <= i < |s| ==> IsDigit(s[i])
  }

  /** The value of a string of decimal digits, most significant first. */
  function DigitsValue(s: string): nat
    requires AllDigits(s)
    decreases |s|
  {
    if s == [] then 0 else DigitsValue(s[..|s| - 1]) * 10 + (s[|s| - 1] - '0') as int
  }

  /** `Integer.parseInt`: an optional sign, then one or more decimal digits,
      whose value must lie in the `int` range; anything else, the empty
      string included, is a `NumberFormatException`, here `None`. */
  function ParseInt(s: string): (r: Option<int>)
    ensures r.Some? ==> MinInt <= r.value <= MaxInt
  {
    if s == [] then None
    else
      var digits := if s[0] == '-' || s[0] == '+' then s[1..] else s;
      if digits == [] || !AllDigits(digits) then None
      else
        var v := if s[0] == '-' then -(DigitsValue(digits) as int) else DigitsValue(digits) as int;
        if MinInt <= v <= MaxInt then Some(v) else None
  }

  function DigitChar(d: int): (c: char)
    requires 0 <= d < 10
    ensures IsDigit(c) && (c - '0') as int == d
  {
    ('0' as int + d) as char
  }

  /** The decimal digits of a natural number, without leading zeros. */
  function NatDigits(n: nat): (r: string)
    ensures r != [] && AllDigits(r)
  {
    if n < 10 then [DigitChar(n)] else NatDigits(n / 10) + [DigitChar(n % 10)]
  }

  /** `Integer.toString`: a minus sign before the digits of a negative number. */
  function IntToString(n: int): string {
    if n < 0 then ['-'] + NatDigits(-n) else NatDigits(n)
  }

  lemma {:induction false} NatDigitsValue(n: nat)
    ensures DigitsValue(NatDigits(n)) == n
  {
    if n >= 10 {
      NatDigitsValue(n / 10);
      var r := NatDigits(n);
      assert r[..|r| - 1] == NatDigits(n / 10);
    }
  }

  /** Reading back a number written out gives the number. */
  lemma ParseIntToString(n: int)
    requires MinInt <= n <= MaxInt
    ensures ParseInt(IntToString(n)) == Some(n)
  {
    var digits := NatDigits(if n < 0 then -n else n);
    NatDigitsValue(if n < 0 then -n else n);
    if n < 0 {
      assert IntToString(n)[1..] == digits;
    }
  }

  /** A written-out number has no blank at either end. */
  lemma IntToStringTrimmed(n: int)
    ensures Trim(IntToString(n)) == IntToString(n)
  {
    var s := IntToString(n);
    assert !IsBlank(s[0]) && !IsBlank(s[|s| - 1]);
    TrimKeepsTrimmed(s);
  }
}
