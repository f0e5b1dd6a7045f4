/**
 * The few Python string operations the application relies on, on strings
 * as sequences of characters: `str.strip()`, `str.count(c)`, `str.find(c)`
 * and `str.split(c)[0]`.
 */
module Text {
  import opened Wrappers

  /**
   * The ASCII characters `str.strip()` removes: space, tab, line feed,
   * carriage return, vertical tab, form feed and the separators U+001C..U+001F.
   */
  predicate IsSpace(c: char)
  {
    c == ' ' || c == '\t' || c == '\n' || c == '\r' || c == '\U{000B}' || c == '\U{000C}'
    || ('\U{001C}' <= c <= '\U{001F}')
  }

  // The strip functions carry no postconditions of their own: their
  // properties are the lemmas below, so that code comparing stripped names
  // does not pay for them.

  function StripLeft(s: string): string
  {
    if |s| > 0 && IsSpace(s[0]) then StripLeft(s[1..]) else s
  }

  function StripRight(s: string): string
  {
    if |s| > 0 && IsSpace(s[|s| - 1]) then StripRight(s[..|s| - 1]) else s
  }

  /** `str.strip()`: the text without leading and trailing whitespace. */
  function Strip(s: string): string
  {
    StripRight(StripLeft(s))
  }

  /** StripLeft removes exactly the leading whitespace. */
  lemma {:induction false} StripLeftSpec(s: string)
    ensures |StripLeft(s)| <= |s| && StripLeft(s) == s[|s| - |StripLeft(s)|..]
    ensures forall k :: 0 <= k < |s| - |StripLeft(s)| ==> IsSpace(s[k])
    ensures |StripLeft(s)| > 0 ==> !IsSpace(StripLeft(s)[0])
    decreases |s|
  {
    if |s| > 0 && IsSpace(s[0]) {
      StripLeftSpec(s[1..]);
    }
  }

  /** StripRight removes exactly the trailing whitespace. */
  lemma {:induction false} StripRightSpec(s: string)
    ensures |StripRight(s)| <= |s| && StripRight(s) == s[..|StripRight(s)|]
    ensures forall k :: |StripRight(s)| <= k < |s| ==> IsSpace(s[k])
    ensures |StripRight(s)| > 0 ==> !IsSpace(StripRight(s)[|StripRight(s)| - 1])
    decreases |s|
  {
    if |s| > 0 && IsSpace(s[|s| - 1]) {
      StripRightSpec(s[..|s| - 1]);
    }
  }

  /**
   * Strip's result is a slice of its input, with only whitespace cut off on
   * either side, and neither begins nor ends with whitespace.
   */
  lemma StripSpec(s: string)
    ensures |Strip(s)| <= |s|
    ensures exists i :: 0 <= i <= |s| - |Strip(s)| && Strip(s) == s[i..][..|Strip(s)|]
    ensures |Strip(s)| > 0 ==> !IsSpace(Strip(s)[0]) && !IsSpace(Strip(s)[|Strip(s)| - 1])
  {
    var l := StripLeft(s);
    StripLeftSpec(s);
    StripRightSpec(l);
    var r := Strip(s);
    if |r| > 0 {
      assert r[0] == l[0];
    }
    var i := |s| - |l|;
    assert r == s[i..][..|r|];
  }

  /** Text without surrounding whitespace is left as it is. */
  lemma StripKeepsTrimmed(s: string)
    requires |s| > 0 ==> !IsSpace(s[0]) && !IsSpace(s[|s| - 1])
    ensures Strip(s) == s
  {
  }

  /** Stripping only removes characters. */
  lemma StripKeepsOut(s: string, c: char)
    requires c !in s
    ensures c !in Strip(s)
  {
    StripLeftSpec(s);
    StripRightSpec(StripLeft(s));
  }

  /** Stripping twice changes nothing more. */
  lemma StripIdempotent(s: string)
    ensures Strip(Strip(s)) == Strip(s)
  {
    StripSpec(s);
    StripKeepsTrimmed(Strip(s));
  }

  /** `str.count(c)` for a one-character needle. */
  function CountChar(s: string, c: char): (n: nat)
    ensures n <= |s|
    ensures n == 0 <==> c !in s
  {
    if |s| == 0 then 0 else (if s[0] == c then 1 else 0) + CountChar(s[1..], c)
  }

  /** `str.find(c)`: the first index of `c`, or -1. */
  function Find(s: string, c: char): (i: int)
    ensures -1 <= i < |s|
    ensures i == -1 <==> c !in s
    ensures i >= 0 ==> s[i] == c && c !in s[..i]
  {
    if |s| == 0 then -1
    else if s[0] == c then 0
    else
      var j := Find(s[1..], c);
      if j == -1 then -1
      else
        assert s[..j + 1] == [s[0]] + s[1..][..j];
        j + 1
  }

  /** `str.split(c)[0]`: the text before the first `c`, or all of it. */
  function BeforeFirst(s: string, c: char): (r: string)
    ensures |r| <= |s| && r == s[..|r|] && c !in r
    ensures |r| < |s| ==> s[|r|] == c
  {
    var i := Find(s, c);
    if i == -1 then s else s[..i]
  }

  /** Python's slice `s[a:b]` for `0 <= a` and `0 <= b`: empty when `a >= b`. */
  function Slice(s: string, a: nat, b: nat): (r: string)
    ensures |r| == if a >= b || a >= |s| then 0 else (if b <= |s| then b else |s|) - a
  {
    var hi := if b <= |s| then b else |s|;
    if a >= hi then "" else s[a..hi]
  }

  /** Python's `str(n)` for an integer. */
  function Decimal(n: int): string
  {
    if n < 0 then "-" + NatDecimal(-n) else NatDecimal(n)
  }

  function NatDecimal(n: nat): (r: string)
    ensures |r| > 0 && forall k :: 0 <= k < |r| ==> '0' <= r[k] <= '9'
  {
    var d := DigitChar(n % 10);
    if n < 10 then [d] else NatDecimal(n / 10) + [d]
  }

  /** The digit character for `d`. */
  function DigitChar(d: nat): char
    requires d < 10
  {
    ['0', '1', '2', '3', '4', '5', '6', '7', '8', '9'][d]
  }

  /** A three-digit number is written with its three digits. */
  lemma ThreeDigits(a: nat, b: nat, c: nat)
    requires 1 <= a < 10 && b < 10 && c < 10
    ensures Decimal(100 * a + 10 * b + c) == [DigitChar(a), DigitChar(b), DigitChar(c)]
  {
    var n := 100 * a + 10 * b + c;
    assert n / 10 == 10 * a + b && n % 10 == c;
    assert (10 * a + b) / 10 == a && (10 * a + b) % 10 == b;
    assert NatDecimal(a) == [DigitChar(a)];
    assert NatDecimal(10 * a + b) == [DigitChar(a), DigitChar(b)];
  }

  predicate IsDigit(c: char)
  {
    '0' <= c <= '9'
  }

  /** The digits of a run such as "1_000", read as a number (underscores skipped). */
  function DigitsValue(s: string): nat
  {
    if |s| == 0 then 0
    else if s[|s| - 1] == '_' then DigitsValue(s[..|s| - 1])
    else DigitsValue(s[..|s| - 1]) * 10 + (if IsDigit(s[|s| - 1]) then s[|s| - 1] as int - '0' as int else 0)
  }

  /** The digit runs `int()` accepts: digits, with single underscores between digits. */
  predicate DigitRun(s: string)
  {
    |s| > 0 && IsDigit(s[0]) && IsDigit(s[|s| - 1])
    && (forall k :: 0 <= k < |s| ==> IsDigit(s[k]) || s[k] == '_')
    && (forall k :: 0 <= k < |s| - 1 ==> !(s[k] == '_' && s[k + 1] == '_'))
  }

  /**
   * Python's `int(s)` on a string: surrounding whitespace ignored, an optional
   * sign, then a digit run; None where Python raises ValueError.
   */
  function ParseInt(s: string): Option<int>
  {
    ParseSigned(Strip(s))
  }

  /** `int()` after the whitespace is gone. */
  function ParseSigned(t: string): Option<int>
  {
    if |t| > 0 && t[0] == '-' then
      (if DigitRun(t[1..]) then Some(-(DigitsValue(t[1..]) as int)) else None)
    else if |t| > 0 && t[0] == '+' then
      (if DigitRun(t[1..]) then Some(DigitsValue(t[1..]) as int) else None)
    else if DigitRun(t) then Some(DigitsValue(t) as int)
    else None
  }

  lemma {:induction false} DigitsOfDecimal(n: nat)
    ensures DigitsValue(NatDecimal(n)) == n
    decreases n
  {
    var r := NatDecimal(n);
    if n >= 10 {
      DigitsOfDecimal(n / 10);
      assert r[..|r| - 1] == NatDecimal(n / 10);
    }
  }

  lemma DecimalIsDigitRun(n: nat)
    ensures DigitRun(NatDecimal(n))
  {
  }

  /** `int(str(n)) == n`: parsing reads back what formatting wrote. */
  lemma ParseDecimal(n: int)
    ensures ParseInt(Decimal(n)) == Some(n)
  {
    var m: nat := if n < 0 then -n else n;
    var d := NatDecimal(m);
    DigitsOfDecimal(m);
    DecimalIsDigitRun(m);
    var s := Decimal(n);
    assert ParseSigned(s) == Some(n) by {
      if n < 0 {
        assert s[1..] == d;
      }
    }
    assert !IsSpace(s[0]) && !IsSpace(s[|s| - 1]);
    StripKeepsTrimmed(s);
  }

  /** `str.split(c)`: the pieces between occurrences of `c` (empty pieces included). */
  function Split(s: string, c: char): (r: seq<string>)
    ensures |r| > 0 && forall k :: 0 <= k < |r| ==> c !in r[k]
    decreases |s|
  {
    var i := Find(s, c);
    if i == -1 then [s] else [s[..i]] + Split(s[i + 1..], c)
  }

  /** `Find` gives the one position that holds `c` with no `c` before it. */
  lemma FindAt(s: string, c: char, i: nat)
    requires i < |s| && s[i] == c && c !in s[..i]
    ensures Find(s, c) == i
  {
  }

  lemma {:induction false} SplitAround(s: string, t: string, c: char)
    ensures Split(s + [c] + t, c) == Split(s, c) + Split(t, c)
    decreases |s|, 1
  {
    if c !in s {
      SplitAtFirst(s, t, c);
    } else {
      SplitAroundStep(s, t, c);
    }
  }

  /** One step of `SplitAround`: the first piece of `s` is the first piece of `s + [c] + t`. */
  lemma {:induction false} SplitAroundStep(s: string, t: string, c: char)
    requires c in s
    ensures Split(s + [c] + t, c) == Split(s, c) + Split(t, c)
    decreases |s|, 0
  {
    SplitAround(s[Find(s, c) + 1..], t, c);
    SplitFirstPiece(s, t, c);
    SplitUnfold(s, c);
    var i := Find(s, c);
    Regroup(Split(s + [c] + t, c), Split(s, c), s[..i], Split(s[i + 1..], c), Split(t, c));
  }

  /** The first separator of `s + [c] + t` is the first one of `s`. */
  lemma SplitFirstPiece(s: string, t: string, c: char)
    requires c in s
    ensures Split(s + [c] + t, c) == [s[..Find(s, c)]] + Split(s[Find(s, c) + 1..] + [c] + t, c)
  {
    var u := s + [c] + t;
    var i := Find(s, c);
    assert u[..i] == s[..i] by {
      assert u == s + ([c] + t);
    }
    assert u[i + 1..] == s[i + 1..] + [c] + t by {
      assert u == s + ([c] + t);
    }
    SplitUnfoldAt(u, c, i, s[..i], s[i + 1..] + [c] + t);
  }

  lemma Regroup(whole: seq<string>, left: seq<string>, h: string, a: seq<string>, b: seq<string>)
    requires whole == [h] + (a + b) && left == [h] + a
    ensures whole == left + b
  {
  }

  /** Splitting at a known first separator. */
  lemma SplitUnfoldAt(u: string, c: char, i: nat, before: string, after: string)
    requires i < |u| && u[i] == c && u[..i] == before && c !in before && u[i + 1..] == after
    ensures Split(u, c) == [before] + Split(after, c)
  {
    FindAt(u, c, i);
    SplitUnfold(u, c);
  }

  lemma SplitUnfold(s: string, c: char)
    requires c in s
    ensures Split(s, c) == [s[..Find(s, c)]] + Split(s[Find(s, c) + 1..], c)
  {
  }

  lemma SplitAtFirst(s: string, t: string, c: char)
    requires c !in s
    ensures Split(s + [c] + t, c) == [s] + Split(t, c) && Split(s, c) == [s]
    ensures Split(s + [c] + t, c) == Split(s, c) + Split(t, c)
  {
    var u := s + [c] + t;
    assert u[|s|] == c && u[..|s|] == s;
    assert u[|s| + 1..] == t;
    SplitUnfoldAt(u, c, |s|, s, t);
  }

  function Join(pieces: seq<string>, c: char): string
    requires |pieces| > 0
  {
    if |pieces| == 1 then pieces[0] else pieces[0] + [c] + Join(pieces[1..], c)
  }

  /** Joining the pieces with the separator gives back the text. */
  lemma {:induction false} SplitJoin(s: string, c: char)
    ensures Join(Split(s, c), c) == s
    decreases |s|
  {
    if c in s {
      var i := Find(s, c);
      var before, after := s[..i], s[i + 1..];
      var rest := Split(after, c);
      SplitUnfold(s, c);
      SplitJoin(after, c);
      JoinCons(before, rest, c);
      assert s == before + [c] + after;
    }
  }

  lemma JoinCons(h: string, rest: seq<string>, c: char)
    requires |rest| > 0
    ensures Join([h] + rest, c) == h + [c] + Join(rest, c)
  {
    assert ([h] + rest)[1..] == rest;
  }
}
