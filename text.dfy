/** The string operations of the tracker: `split` on one character, `join`, `trim`, line splitting
    on `\r?\n`, and the decimal reading `Number(s)` gives for a string of digits. */
module Text {
  import opened Wrappers

  /** `s.split(sep)` for a one-character separator: the pieces between consecutive separators. */
  function Split(s: string, sep: char): (parts: seq<string>)
    ensures |parts| >= 1
    ensures forall i :: 0 <= i < |parts| ==> sep !in parts[i]
    decreases |s|
  {
    if s == [] then [""]
    else
      var rest := Split(s[1..], sep);
      if s[0] == sep then [""] + rest
      else [[s[0]] + rest[0]] + rest[1..]
  }

  /** `parts.join(sep)`; the empty list joins to the empty string. */
  function Join(parts: seq<string>, sep: char): string
    decreases |parts|
  {
    if parts == [] then ""
    else if |parts| == 1 then parts[0]
    else parts[0] + [sep] + Join(parts[1..], sep)
  }

  lemma {:induction false} SplitNoSep(a: string, sep: char)
    requires sep !in a
    ensures Split(a, sep) == [a]
    decreases |a|
  {
    if a != [] {
      assert sep !in a[1..] by { assert forall c :: c in a[1..] ==> c in a; }
      SplitNoSep(a[1..], sep);
      assert [a[0]] + a[1..] == a;
    }
  }

  /** Splitting `a + [sep] + b`, where `a` has no separator, gives `a` followed by the pieces of `b`. */
  lemma {:induction false} SplitAfterPiece(a: string, sep: char, b: string)
    requires sep !in a
    ensures Split(a + [sep] + b, sep) == [a] + Split(b, sep)
    decreases |a|
  {
    if a == [] {
      assert a + [sep] + b == [sep] + b;
      assert ([sep] + b)[1..] == b;
    } else {
      var s := a + [sep] + b;
      assert s[0] == a[0];
      assert s[1..] == a[1..] + [sep] + b;
      assert sep !in a[1..] by { assert forall c :: c in a[1..] ==> c in a; }
      SplitAfterPiece(a[1..], sep, b);
      assert [a[0]] + a[1..] == a;
    }
  }

  /** Joining what a split produced gives back the string. */
  lemma {:induction false} JoinSplit(s: string, sep: char)
    ensures Join(Split(s, sep), sep) == s
    decreases |s|
  {
    if s != [] {
      JoinSplit(s[1..], sep);
      var rest := Split(s[1..], sep);
      if s[0] == sep {
        JoinEmptyFirst(rest, sep);
      } else {
        JoinPrepend(s[0], rest, sep);
      }
      assert [s[0]] + s[1..] == s;
    }
  }

  /** A leading empty piece joins to a leading separator. */
  lemma JoinEmptyFirst(rest: seq<string>, sep: char)
    requires |rest| >= 1
    ensures Join([""] + rest, sep) == [sep] + Join(rest, sep)
  {
    assert ([""] + rest)[1..] == rest;
  }

  /** A character put in front of the first piece is in front of the joined string. */
  lemma JoinPrepend(c: char, rest: seq<string>, sep: char)
    requires |rest| >= 1
    ensures Join([[c] + rest[0]] + rest[1..], sep) == [c] + Join(rest, sep)
  {
    var parts := [[c] + rest[0]] + rest[1..];
    if |rest| > 1 {
      assert parts[1..] == rest[1..];
    }
  }

  /** Splitting what a join produced gives back the pieces, provided none of them holds the separator. */
  lemma {:induction false} SplitJoin(parts: seq<string>, sep: char)
    requires |parts| >= 1
    requires forall i :: 0 <= i < |parts| ==> sep !in parts[i]
    ensures Split(Join(parts, sep), sep) == parts
    decreases |parts|
  {
    if |parts| == 1 {
      SplitNoSep(parts[0], sep);
    } else {
      SplitJoin(parts[1..], sep);
      SplitAfterPiece(parts[0], sep, Join(parts[1..], sep));
      assert [parts[0]] + parts[1..] == parts;
    }
  }

  /** The characters JavaScript's `trim` removes: WhiteSpace and LineTerminator of ECMAScript. */
  predicate IsSpace(c: char) {
    c == '\t' || c == '\n' || c == '\U{B}' || c == '\U{C}' || c == '\r' || c == ' ' ||
    c == '\U{A0}' || c == '\U{1680}' || ('\U{2000}' <= c <= '\U{200A}') ||
    c == '\U{2028}' || c == '\U{2029}' || c == '\U{202F}' || c == '\U{205F}' ||
    c == '\U{3000}' || c == '\U{FEFF}'
  }

  function TrimStart(s: string): (r: string)
    ensures |r| <= |s| && r == s[|s| - |r|..]
    ensures forall i :: 0 <= i < |s| - |r| ==> IsSpace(s[i])
    ensures r != [] ==> !IsSpace(r[0])
    decreases |s|
  {
    if s != [] && IsSpace(s[0]) then TrimStart(s[1..]) else s
  }

  function TrimEnd(s: string): (r: string)
    ensures |r| <= |s| && r == s[..|r|]
    ensures forall i :: |r| <= i < |s| ==> IsSpace(s[i])
    ensures r != [] ==> !IsSpace(r[|r| - 1])
    decreases |s|
  {
    if s != [] && IsSpace(s[|s| - 1]) then TrimEnd(s[..|s| - 1]) else s
  }

  /** `s.trim()`: `s` without its leading and trailing white space. */
  function Trim(s: string): (r: string)
  {
    TrimEnd(TrimStart(s))
  }

  /** Where the trimmed text starts in the input: after the leading white space. */
  function TrimFrom(s: string): nat {
    |s| - |TrimStart(s)|
  }

  /** What `Trim` gives: the piece of the input from `TrimFrom(s)` on, with only white space before
      and after it, that neither starts nor ends with white space. */
  lemma TrimIsInfix(s: string)
    ensures TrimFrom(s) + |Trim(s)| <= |s| && Trim(s) == s[TrimFrom(s)..TrimFrom(s) + |Trim(s)|]
    ensures forall k :: 0 <= k < TrimFrom(s) ==> IsSpace(s[k])
    ensures forall k :: TrimFrom(s) + |Trim(s)| <= k < |s| ==> IsSpace(s[k])
    ensures Trim(s) != [] ==> !IsSpace(Trim(s)[0]) && !IsSpace(Trim(s)[|Trim(s)| - 1])
  {
    TrimSlice(s);
    TrimTrailing(s);
    TrimEnds(s);
  }

  lemma TrimSlice(s: string)
    ensures TrimFrom(s) + |Trim(s)| <= |s| && Trim(s) == s[TrimFrom(s)..TrimFrom(s) + |Trim(s)|]
  {
    var t := TrimStart(s);
    var i := TrimFrom(s);
    var r := TrimEnd(t);
    assert r == t[..|r|] && t == s[i..];
  }

  lemma TrimTrailing(s: string)
    ensures forall k :: TrimFrom(s) + |Trim(s)| <= k < |s| ==> IsSpace(s[k])
  {
    SpaceAfter(s, TrimStart(s), |Trim(s)|);
  }

  /** White space at the end of a suffix of `s` is white space at the end of `s`. */
  lemma SpaceAfter(s: string, t: string, n: nat)
    requires |t| <= |s| && t == s[|s| - |t|..]
    requires forall k :: n <= k < |t| ==> IsSpace(t[k])
    ensures forall k :: |s| - |t| + n <= k < |s| ==> IsSpace(s[k])
  {
    forall k | |s| - |t| + n <= k < |s| ensures IsSpace(s[k]) {
      assert s[k] == t[k - (|s| - |t|)];
    }
  }

  lemma TrimEnds(s: string)
    ensures Trim(s) != [] ==> !IsSpace(Trim(s)[0]) && !IsSpace(Trim(s)[|Trim(s)| - 1])
  {
    var t := TrimStart(s);
    var r := TrimEnd(t);
    if r != [] {
      assert r[0] == t[0];
    }
  }

  lemma {:induction false} TrimStartNoLeading(s: string)
    requires s == [] || !IsSpace(s[0])
    ensures TrimStart(s) == s
  {
  }

  lemma {:induction false} TrimEndNoTrailing(s: string)
    requires s == [] || !IsSpace(s[|s| - 1])
    ensures TrimEnd(s) == s
  {
  }

  /** A string that neither starts nor ends with white space is its own trim. */
  lemma TrimOfTrimmed(s: string)
    requires s == [] || (!IsSpace(s[0]) && !IsSpace(s[|s| - 1]))
    ensures Trim(s) == s
  {
    TrimStartNoLeading(s);
    TrimEndNoTrailing(s);
  }

  /** A leading blank does not change what `Number` reads from a string of digits. */
  lemma NumberLeadingSpace(ms: string)
    requires ms != [] && AllDigits(ms)
    ensures Number(" " + ms) == Number(ms)
  {
    assert !IsSpace(ms[0]) && !IsSpace(ms[|ms| - 1]) by {
      assert IsDigit(ms[0]) && IsDigit(ms[|ms| - 1]);
    }
    TrimOfTrimmed(ms);
    TrimStartBlank(ms);
    TrimStartNoLeading(ms);
  }

  lemma TrimStartBlank(s: string)
    ensures TrimStart(" " + s) == TrimStart(s)
  {
    assert (" " + s)[1..] == s;
  }

  /** Trimming twice is trimming once. */
  lemma TrimIdempotent(s: string)
    ensures Trim(Trim(s)) == Trim(s)
  {
    TrimIsInfix(s);
    TrimOfTrimmed(Trim(s));
  }

  /** Trimming only removes characters, so it keeps out a character the string does not hold. */
  lemma TrimKeepsOut(s: string, c: char)
    requires c !in s
    ensures c !in Trim(s)
  {
    TrimIsInfix(s);
    var i := TrimFrom(s);
    assert forall x :: x in s[i..i + |Trim(s)|] ==> x in s;
  }

  /** `s.split(/\r?\n/)`: split at line feeds, and drop a carriage return that stands right before one. */
  function Lines(s: string): (lines: seq<string>)
    ensures |lines| == |Split(s, '\n')| >= 1
    ensures forall i :: 0 <= i < |lines| ==> '\n' !in lines[i]
    ensures forall i :: 0 <= i < |lines| ==>
      var part := Split(s, '\n')[i];
      if i < |lines| - 1 && part != [] && part[|part| - 1] == '\r' then part == lines[i] + "\r" else part == lines[i]
  {
    var parts := Split(s, '\n');
    var lines := seq(|parts|, i requires 0 <= i < |parts| =>
      if i < |parts| - 1 && parts[i] != [] && parts[i][|parts[i]| - 1] == '\r'
      then parts[i][..|parts[i]| - 1] else parts[i]);
    assert forall i :: 0 <= i < |lines| ==> '\n' !in lines[i] by {
      forall i | 0 <= i < |lines| ensures '\n' !in lines[i] {
        assert forall c :: c in lines[i] ==> c in parts[i];
      }
    }
    lines
  }

  /** Lines joined with line feeds read back as themselves when none but the last ends in a carriage
      return. */
  lemma LinesOfJoin(lines: seq<string>)
    requires |lines| >= 1
    requires forall i :: 0 <= i < |lines| ==> '\n' !in lines[i]
    requires forall i :: 0 <= i < |lines| - 1 ==> lines[i] == [] || lines[i][|lines[i]| - 1] != '\r'
    ensures Lines(Join(lines, '\n')) == lines
  {
    SplitJoin(lines, '\n');
  }

  /** The lines of a text with Windows line ends: a carriage return after every line but the last. */
  function WithCarriageReturns(lines: seq<string>): (parts: seq<string>)
    ensures |parts| == |lines|
  {
    seq(|lines|, i requires 0 <= i < |lines| => if i < |lines| - 1 then lines[i] + "\r" else lines[i])
  }

  /** A text whose lines end in "\r\n" reads back as its lines, whatever they hold but a line feed. */
  lemma LinesOfCarriageReturns(lines: seq<string>)
    requires |lines| >= 1
    requires forall i :: 0 <= i < |lines| ==> '\n' !in lines[i]
    ensures Lines(Join(WithCarriageReturns(lines), '\n')) == lines
  {
    var parts := WithCarriageReturns(lines);
    forall i | 0 <= i < |parts| ensures '\n' !in parts[i] {
      assert forall c :: c in parts[i] ==> c in lines[i] || c == '\r';
    }
    SplitJoin(parts, '\n');
    var r := Lines(Join(parts, '\n'));
    forall i | 0 <= i < |lines| ensures r[i] == lines[i] {
      if i < |lines| - 1 {
        assert parts[i] == lines[i] + "\r";
        assert parts[i][|parts[i]| - 1] == '\r';
        assert r[i] + "\r" == lines[i] + "\r";
        assert r[i] == (r[i] + "\r")[..|r[i]|];
      }
    }
  }

  predicate IsDigit(c: char) { '0' <= c <= '9' }

  predicate AllDigits(s: string) { forall i :: 0 <= i < |s| ==> IsDigit(s[i]) }

  function DigitValue(c: char): nat
    requires IsDigit(c)
  {
    (c as int) - ('0' as int)
  }

  function DigitsValue(s: string): nat
    requires AllDigits(s)
    decreases |s|
  {
    if s == [] then 0 else 10 * DigitsValue(s[..|s| - 1]) + DigitValue(s[|s| - 1])
  }

  /** `Number(s)` for the strings the tracker feeds it: white space around the text is ignored,
      the empty string reads as 0, a run of decimal digits as its value, and anything else as NaN (`None`). */
  function Number(s: string): (n: Option<nat>)
    ensures AllDigits(Trim(s)) <==> n.Some?
  {
    var t := Trim(s);
    if AllDigits(t) then Some(DigitsValue(t)) else None
  }

  function Digit(d: nat): (c: char)
    requires d < 10
    ensures IsDigit(c) && DigitValue(c) == d
  {
    ('0' as int + d) as char
  }

  /** A number below 100 written with two digits, as the `2-digit` option of time formatting does. */
  function TwoDigits(n: nat): (s: string)
    requires n < 100
    ensures |s| == 2 && AllDigits(s) && DigitsValue(s) == n
  {
    var s := [Digit(n / 10), Digit(n % 10)];
    assert s[..1] == [Digit(n / 10)];
    assert DigitsValue(s[..1]) == n / 10 by {
      assert s[..1][..0] == [];
    }
    s
  }

  /** The decimal digits of `n`, as `${n}` renders a non-negative integer. */
  function ShowNat(n: nat): (s: string)
    ensures s != [] && AllDigits(s) && DigitsValue(s) == n
    decreases n
  {
    if n < 10 then
      var s := [Digit(n)];
      assert s[..0] == [];
      s
    else
      var init := ShowNat(n / 10);
      var s := init + [Digit(n % 10)];
      assert s[..|s| - 1] == init;
      s
  }

  /** `${n}` for any integer: a minus sign before the digits of a negative one. */
  function ShowInt(n: int): string {
    if n < 0 then "-" + ShowNat(-n) else ShowNat(n)
  }

  /** `Number` reads back what `ShowNat` wrote. */
  lemma NumberOfShowNat(n: nat)
    ensures Number(ShowNat(n)) == Some(n)
  {
    var s := ShowNat(n);
    assert IsDigit(s[0]) && IsDigit(s[|s| - 1]);
    TrimOfTrimmed(s);
  }
}
