/** The pieces of the C library the server leans on, as functions on text:
    `%d` and `%02d` formatting, `strtol` with a whole-field check, `atoi`,
    `strncpy` truncation, and the space-separated board layout. */
module Text {

  datatype Option<T> = None | Some(value: T)

  predicate IsDigit(c: char) { '0' <= c <= '9' }

  /** The characters `isspace` accepts in the C locale. */
  predicate IsSpace(c: char) {
    c == ' ' || c == '\t' || c == '\n' || c == '\r' || c == '\U{B}' || c == '\U{C}'
  }

  predicate AllDigits(s: string) { forall i :: 0 <= i < |s| ==> IsDigit(s[i]) }

  function DigitValue(c: char): nat
    requires IsDigit(c)
  {
    (c as int) - ('0' as int)
  }

  function DigitChar(d: nat): (c: char)
    requires d < 10
    ensures IsDigit(c) && DigitValue(c) == d
  {
    (('0' as int) + d) as char
  }

  /** The value of a numeral, most significant digit first. */
  function DecimalValue(s: string): nat
    requires AllDigits(s)
  {
    if s == [] then 0 else 10 * DecimalValue(s[..|s| - 1]) + DigitValue(s[|s| - 1])
  }

  /** `%d` of a non-negative value: the shortest numeral. */
  function NatToDecimal(n: nat): (s: string)
    ensures 1 <= |s| && AllDigits(s)
    ensures s[0] == '0' ==> n == 0
  {
    if n < 10 then [DigitChar(n)] else NatToDecimal(n / 10) + [DigitChar(n % 10)]
  }

  lemma {:induction false} NatToDecimalValue(n: nat)
    ensures DecimalValue(NatToDecimal(n)) == n
  {
    if n >= 10 {
      NatToDecimalValue(n / 10);
      var s := NatToDecimal(n);
      assert s[..|s| - 1] == NatToDecimal(n / 10);
    }
  }

  /** `%d`: a minus sign for negative values, then the numeral. */
  function IntToDecimal(i: int): (s: string)
    ensures 1 <= |s| && forall k :: 0 <= k < |s| ==> s[k] != '|' && s[k] != ' '
  {
    var digits := NatToDecimal(if i < 0 then -i else i);
    if i < 0 then "-" + digits else digits
  }

  /** `%02d` of a non-negative value: the numeral, with a leading zero when it
      has only one digit. */
  function Pad2(n: nat): (s: string)
    ensures 2 <= |s| && AllDigits(s) && DecimalValue(s) == n
  {
    NatToDecimalValue(n);
    if n < 10 then
      var s := "0" + NatToDecimal(n);
      assert s[..1] == "0";
      s
    else NatToDecimal(n)
  }

  /** Index of the first character at or after `i` that is not white space. */
  function SkipSpaces(s: string, i: nat): (j: nat)
    requires i <= |s|
    ensures i <= j <= |s|
    ensures j < |s| ==> !IsSpace(s[j])
    decreases |s| - i
  {
    if i < |s| && IsSpace(s[i]) then SkipSpaces(s, i + 1) else i
  }

  /** Index of the first character at or after `i` that is not a digit. */
  function SkipDigits(s: string, i: nat): (j: nat)
    requires i <= |s|
    ensures i <= j <= |s|
    ensures j < |s| ==> !IsDigit(s[j])
    decreases |s| - i
  {
    if i < |s| && IsDigit(s[i]) then SkipDigits(s, i + 1) else i
  }

  /** Everything `SkipDigits` passes over is a digit. */
  lemma {:induction false} SkipDigitsSkipsDigits(s: string, i: nat)
    requires i <= |s|
    ensures forall k :: i <= k < SkipDigits(s, i) ==> IsDigit(s[k])
    decreases |s| - i
  {
    if i < |s| && IsDigit(s[i]) {
      SkipDigitsSkipsDigits(s, i + 1);
    }
  }

  /** Where the optional sign that `strtol` and `atoi` accept ends. */
  function SkipSign(s: string, i: nat): (j: nat)
    requires i <= |s|
    ensures i <= j <= |s| && j <= i + 1
  {
    if i < |s| && (s[i] == '+' || s[i] == '-') then i + 1 else i
  }

  /** The value of the digits `s[from..to]`, read in place. */
  function DigitsValue(s: string, from: nat, to: nat): nat
    requires from <= to <= |s|
    requires forall k :: from <= k < to ==> IsDigit(s[k])
  {
    if to == from then 0 else 10 * DigitsValue(s, from, to - 1) + DigitValue(s[to - 1])
  }

  /** Reading the digits in place gives the value of the numeral they form. */
  lemma {:induction false} DigitsValueIsDecimal(s: string, from: nat, to: nat)
    requires from <= to <= |s|
    requires forall k :: from <= k < to ==> IsDigit(s[k])
    ensures AllDigits(s[from..to]) && DigitsValue(s, from, to) == DecimalValue(s[from..to])
  {
    assert forall k :: 0 <= k < to - from ==> s[from..to][k] == s[from + k];
    if to > from {
      DigitsValueIsDecimal(s, from, to - 1);
      assert s[from..to][..to - from - 1] == s[from..to - 1];
    }
  }

  /** The signed value of the digits `s[from..to]`, negated when the sign
      at `from - 1` is a minus. */
  function SignedValue(s: string, signAt: nat, from: nat, to: nat): int
    requires signAt <= from <= to <= |s|
    requires forall k :: from <= k < to ==> IsDigit(s[k])
  {
    var v: int := DigitsValue(s, from, to);
    if signAt < from && s[signAt] == '-' then -v else v
  }

  /** `strtol(s, &end, 10)` followed by the check `*end == '\0'`: the value
      when the conversion consumes the whole text. With no digits at all,
      `strtol` leaves `end` at the start of the text, so only the empty text
      passes (as 0). */
  function StrtolWhole(s: string): (r: Option<int>)
  {
    var i := SkipSpaces(s, 0);
    var j := SkipSign(s, i);
    var k := SkipDigits(s, j);
    SkipDigitsSkipsDigits(s, j);
    if k == j then (if s == [] then Some(0) else None)
    else if k < |s| then None
    else Some(SignedValue(s, i, j, k))
  }

  /** `atoi(s)`: the value of the longest numeral after optional white space
      and sign; 0 when there are no digits there. */
  function Atoi(s: string): int
  {
    var i := SkipSpaces(s, 0);
    var j := SkipSign(s, i);
    var k := SkipDigits(s, j);
    SkipDigitsSkipsDigits(s, j);
    SignedValue(s, i, j, k)
  }

  /** The decimal text of a number reads back as that number, under both
      conversions. */
  lemma {:induction false} DecimalReadsBack(i: int)
    ensures StrtolWhole(IntToDecimal(i)) == Some(i)
    ensures Atoi(IntToDecimal(i)) == i
  {
    var s := IntToDecimal(i);
    var digits := NatToDecimal(if i < 0 then -i else i);
    NatToDecimalValue(if i < 0 then -i else i);
    assert !IsSpace(s[0]);
    assert SkipSpaces(s, 0) == 0;
    var j := if i < 0 then 1 else 0;
    assert SkipSign(s, 0) == j;
    assert s[j..] == digits;
    SkipDigitsAll(s, j);
    assert s[j..|s|] == digits;
    DigitsValueIsDecimal(s, j, |s|);
  }

  lemma {:induction false} SkipDigitsAll(s: string, j: nat)
    requires j <= |s| && AllDigits(s[j..])
    ensures SkipDigits(s, j) == |s|
    decreases |s| - j
  {
    if j < |s| {
      assert s[j] == s[j..][0];
      assert s[j + 1..] == s[j..][1..];
      SkipDigitsAll(s, j + 1);
    }
  }

  /** A text with no digit right after its white space and sign converts to 0
      under `atoi`. */
  lemma AtoiWithoutDigits(s: string)
    requires var j := SkipSign(s, SkipSpaces(s, 0)); j == |s| || !IsDigit(s[j])
    ensures Atoi(s) == 0
  {
  }

  /** The C string a buffer holds: its characters up to the first NUL, which
      is all that `strlen`, `strncpy`, `strtol` and `%s` look at. */
  function CString(s: string): (c: string)
    ensures c <= s && '\0' !in c
    ensures |c| < |s| ==> s[|c|] == '\0'
    ensures '\0' !in s ==> c == s
  {
    if s == [] || s[0] == '\0' then [] else [s[0]] + CString(s[1..])
  }

  /** A NUL-free prefix is part of the C string, whatever follows it. */
  lemma {:induction false} CStringAppend(a: string, b: string)
    requires '\0' !in a
    ensures CString(a + b) == a + CString(b)
  {
    if a == [] {
      assert a + b == b;
    } else {
      assert (a + b)[0] == a[0] != '\0';
      assert (a + b)[1..] == a[1..] + b;
      CStringAppend(a[1..], b);
      assert a == [a[0]] + a[1..];
    }
  }

  /** `strncpy(dst, s, n)` followed by `dst[n] = '\0'`: at most the first
      `n` characters of `s`. */
  function Truncate(s: string, n: nat): (r: string)
    ensures |r| <= n && r <= s
    ensures |s| <= n ==> r == s
    ensures |s| > n ==> |r| == n
  {
    if |s| <= n then s else s[..n]
  }

  /** Words joined by single spaces: the layout of `"%d %d %d %d %d"`. */
  function JoinSpaced(ws: seq<string>): string
  {
    if |ws| == 0 then "" else if |ws| == 1 then ws[0] else ws[0] + " " + JoinSpaced(ws[1..])
  }

  /** The text split at every space. */
  function Words(s: string): (ws: seq<string>)
    ensures |ws| >= 1
    decreases |s|
  {
    var i := FirstSpace(s, 0);
    if i == |s| then [s] else [s[..i]] + Words(s[i + 1..])
  }

  function FirstSpace(s: string, i: nat): (j: nat)
    requires i <= |s|
    ensures i <= j <= |s|
    ensures forall k :: i <= k < j ==> s[k] != ' '
    ensures j < |s| ==> s[j] == ' '
    decreases |s| - i
  {
    if i == |s| || s[i] == ' ' then i else FirstSpace(s, i + 1)
  }

  lemma {:induction false} FirstSpaceIsFirst(s: string, i: nat, j: nat)
    requires i <= j <= |s|
    requires forall k :: i <= k < j ==> s[k] != ' '
    requires j < |s| ==> s[j] == ' '
    ensures FirstSpace(s, i) == j
    decreases j - i
  {
    if i < j {
      FirstSpaceIsFirst(s, i + 1, j);
    }
  }

  /** Splitting a space-joined list of space-free words gives the words back. */
  lemma {:induction false} WordsOfJoin(ws: seq<string>)
    requires |ws| >= 1
    requires forall k :: 0 <= k < |ws| ==> ' ' !in ws[k]
    ensures Words(JoinSpaced(ws)) == ws
  {
    var s := JoinSpaced(ws);
    var w := ws[0];
    if |ws| == 1 {
      FirstSpaceIsFirst(s, 0, |s|);
    } else {
      var rest := JoinSpaced(ws[1..]);
      assert s == w + " " + rest;
      assert forall k :: 0 <= k < |w| ==> s[k] == w[k];
      FirstSpaceIsFirst(s, 0, |w|);
      assert s[..|w|] == w;
      assert s[|w| + 1..] == rest;
      WordsOfJoin(ws[1..]);
    }
  }

  /** A numeral reads back under `strtol` as its value. */
  lemma StrtolOfNumeral(s: string)
    requires 1 <= |s| && AllDigits(s)
    ensures StrtolWhole(s) == Some(DecimalValue(s))
  {
    assert !IsSpace(s[0]) && IsDigit(s[0]);
    assert SkipSpaces(s, 0) == 0;
    assert SkipSign(s, 0) == 0;
    assert s[0..] == s;
    SkipDigitsAll(s, 0);
    assert s[0..|s|] == s;
    DigitsValueIsDecimal(s, 0, |s|);
  }

  /** `%d` of each number, in order. */
  function Numerals(ns: seq<int>): (ws: seq<string>)
    ensures |ws| == |ns|
  {
    if ns == [] then [] else [IntToDecimal(ns[0])] + Numerals(ns[1..])
  }

  lemma {:induction false} NumeralsAt(ns: seq<int>)
    ensures forall i :: 0 <= i < |ns| ==> Numerals(ns)[i] == IntToDecimal(ns[i])
  {
    if ns != [] {
      NumeralsAt(ns[1..]);
    }
  }

  /** `"%d %d %d %d %d"` and its kin: the numbers in decimal, in order,
      separated by single spaces. */
  function SpacedNumbers(ns: seq<int>): string
  {
    JoinSpaced(Numerals(ns))
  }

  /** Splitting the spaced numbers at the spaces gives one word per number,
      and each word reads back as its number under `strtol` and `atoi`. */
  lemma SpacedNumbersReadBack(ns: seq<int>)
    requires |ns| >= 1
    ensures |Words(SpacedNumbers(ns))| == |ns|
    ensures forall i :: 0 <= i < |ns| ==>
      StrtolWhole(Words(SpacedNumbers(ns))[i]) == Some(ns[i]) && Atoi(Words(SpacedNumbers(ns))[i]) == ns[i]
  {
    var ws := Numerals(ns);
    NumeralsAt(ns);
    WordsOfJoin(ws);
    forall i | 0 <= i < |ns|
      ensures StrtolWhole(ws[i]) == Some(ns[i]) && Atoi(ws[i]) == ns[i]
    {
      DecimalReadsBack(ns[i]);
    }
  }

  /** The spaced numbers hold no delimiter `|`. */
  lemma SpacedNumbersBarFree(ns: seq<int>)
    ensures forall k :: 0 <= k < |SpacedNumbers(ns)| ==> SpacedNumbers(ns)[k] != '|'
  {
    NumeralsAt(ns);
    JoinSpacedAvoids(Numerals(ns), '|');
  }

  /** Joining words none of which holds `c` (other than the space) gives a
      text without `c`. */
  lemma {:induction false} JoinSpacedAvoids(ws: seq<string>, c: char)
    requires c != ' '
    requires forall i, k :: 0 <= i < |ws| && 0 <= k < |ws[i]| ==> ws[i][k] != c
    ensures forall k :: 0 <= k < |JoinSpaced(ws)| ==> JoinSpaced(ws)[k] != c
  {
    if |ws| > 1 {
      JoinSpacedAvoids(ws[1..], c);
      var rest := JoinSpaced(ws[1..]);
      assert JoinSpaced(ws) == ws[0] + " " + rest;
      forall k | 0 <= k < |JoinSpaced(ws)|
        ensures JoinSpaced(ws)[k] != c
      {
        if k > |ws[0]| {
          assert JoinSpaced(ws)[k] == rest[k - |ws[0]| - 1];
        }
      }
    } else if |ws| == 1 {
      assert JoinSpaced(ws) == ws[0];
    }
  }

  /** Concatenation regroups freely. */
  lemma AppendAssoc<T>(x: seq<T>, y: seq<T>, z: seq<T>)
    ensures x + (y + z) == (x + y) + z
  {
  }
}
