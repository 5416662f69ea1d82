/** The parts of `java.lang.String` and `java.lang.Integer` that the application
    relies on: case mapping and `equalsIgnoreCase`, `trim`, `split` on a
    one-character separator (trailing empty pieces dropped), `Integer.toString`
    and `Integer.parseInt`. Case mapping and `parseInt` are restricted to ASCII
    letters and digits; `trim` and `split` handle every character. */
module JavaText {
  import opened Wrappers

  // ---------------------------------------------------------------------------
  // Case mapping

  function Lower(c: char): char
  {
    if 'A' <= c <= 'Z' then (c as int + 32) as char else c
  }

  function Upper(c: char): char
  {
    if 'a' <= c <= 'z' then (c as int - 32) as char else c
  }

  /** `String.toLowerCase`, character by character. */
  function LowerAll(s: string): (r: string)
    ensures |r| == |s| && forall i :: 0 <= i < |s| ==> r[i] == Lower(s[i])
  {
    if s == [] then [] else [Lower(s[0])] + LowerAll(s[1..])
  }

  /** `String.toUpperCase`, character by character. */
  function UpperAll(s: string): (r: string)
    ensures |r| == |s| && forall i :: 0 <= i < |s| ==> r[i] == Upper(s[i])
  {
    if s == [] then [] else [Upper(s[0])] + UpperAll(s[1..])
  }

  /** `s.toLowerCase().equals(t)`, character by character. */
  predicate LowerEquals(s: string, t: string)
  {
    |s| == |t| && forall i :: 0 <= i < |s| ==> Lower(s[i]) == t[i]
  }

  lemma {:induction false} LowerEqualsLowerAll(s: string, t: string)
    ensures LowerEquals(s, t) <==> LowerAll(s) == t
  {
  }

  /** `String.equalsIgnoreCase`: same length and equal characters after case folding. */
  predicate EqualsIgnoreCase(a: string, b: string)
  {
    LowerAll(a) == LowerAll(b)
  }

  // ---------------------------------------------------------------------------
  // trim

  /** `String.trim` removes every leading and trailing character at or below U+0020. */
  function TrimStart(s: string): string
  {
    if |s| > 0 && s[0] <= ' ' then TrimStart(s[1..]) else s
  }

  function TrimEnd(s: string): string
  {
    if |s| > 0 && s[|s| - 1] <= ' ' then TrimEnd(s[..|s| - 1]) else s
  }

  function Trim(s: string): string
  {
    TrimEnd(TrimStart(s))
  }

  /** A string with no surrounding white space (in `trim`'s sense). */
  predicate Trimmed(s: string)
  {
    s == [] || (s[0] > ' ' && s[|s| - 1] > ' ')
  }

  lemma {:induction false} TrimOfTrimmed(s: string)
    requires Trimmed(s)
    ensures Trim(s) == s
  {
  }

  // ---------------------------------------------------------------------------
  // split and join

  /** Every piece between separators, empty pieces included. */
  function SplitAll(s: string, sep: char): (r: seq<string>)
    ensures |r| >= 1
  {
    if s == [] then [""]
    else
      var rest := SplitAll(s[1..], sep);
      if s[0] == sep then [""] + rest else [[s[0]] + rest[0]] + rest[1..]
  }

  function DropTrailingEmpty(ps: seq<string>): (r: seq<string>)
    ensures |r| <= |ps| && r == ps[..|r|]
  {
    if |ps| > 0 && ps[|ps| - 1] == "" then DropTrailingEmpty(ps[..|ps| - 1]) else ps
  }

  /** `String.split` with a one-character separator and no limit: a string without the
      separator comes back whole; otherwise trailing empty pieces are discarded, which
      can leave no pieces at all (",".split(",") has length 0). */
  function Split(s: string, sep: char): seq<string>
  {
    if sep in s then DropTrailingEmpty(SplitAll(s, sep)) else [s]
  }

  /** Pieces glued with one separator character between neighbours. */
  function Join(ps: seq<string>, sep: char): string
  {
    if |ps| == 0 then ""
    else if |ps| == 1 then ps[0]
    else ps[0] + [sep] + Join(ps[1..], sep)
  }

  lemma {:induction false} SplitPrefix(w: string, tail: string, sep: char)
    requires sep !in w
    ensures SplitAll(w + tail, sep) ==
            [w + SplitAll(tail, sep)[0]] + SplitAll(tail, sep)[1..]
    decreases |w|
  {
    if w != [] {
      assert (w + tail)[1..] == w[1..] + tail;
      SplitPrefix(w[1..], tail, sep);
      assert [w[0]] + (w[1..] + SplitAll(tail, sep)[0]) == w + SplitAll(tail, sep)[0];
    } else {
      var r := SplitAll(tail, sep);
      assert w + tail == tail && w + r[0] == r[0];
      assert r == [r[0]] + r[1..];
    }
  }

  /** Splitting a join gives the pieces back when no piece holds the separator. */
  lemma {:induction false} SplitJoin(ps: seq<string>, sep: char)
    requires |ps| >= 1
    requires forall i :: 0 <= i < |ps| ==> sep !in ps[i]
    ensures SplitAll(Join(ps, sep), sep) == ps
    decreases |ps|
  {
    if |ps| == 1 {
      SplitPrefix(ps[0], "", sep);
      assert ps[0] + "" == ps[0];
    } else {
      var rest := Join(ps[1..], sep);
      SplitJoin(ps[1..], sep);
      assert ([sep] + rest)[1..] == rest;
      assert SplitAll([sep] + rest, sep) == [""] + ps[1..];
      SplitPrefix(ps[0], [sep] + rest, sep);
      assert ps[0] + [sep] + rest == ps[0] + ([sep] + rest);
      assert ps[0] + "" == ps[0];
      assert ps == [ps[0]] + ps[1..];
    }
  }

  /** Joining the pieces of a split gives the string back. */
  lemma {:induction false} JoinSplit(s: string, sep: char)
    ensures Join(SplitAll(s, sep), sep) == s
    decreases |s|
  {
    if s != [] {
      var rest := SplitAll(s[1..], sep);
      JoinSplit(s[1..], sep);
      if s[0] == sep {
        assert s == [sep] + s[1..];
      } else {
        assert s == [s[0]] + s[1..];
        if |rest| > 1 {
          var r := [[s[0]] + rest[0]] + rest[1..];
          assert r[1..] == rest[1..];
          assert Join(rest, sep) == rest[0] + [sep] + Join(rest[1..], sep);
        }
      }
    }
  }

  lemma {:induction false} JoinContainsSeparator(ps: seq<string>, sep: char)
    requires |ps| >= 2
    ensures sep in Join(ps, sep)
  {
    assert Join(ps, sep)[|ps[0]|] == sep;
  }

  lemma {:induction false} DropTrailingEmptyKeeps(ps: seq<string>)
    requires |ps| > 0 && ps[|ps| - 1] != ""
    ensures DropTrailingEmpty(ps) == ps
  {
  }

  // ---------------------------------------------------------------------------
  // Integers

  predicate IsInt32(x: int)
  {
    -0x8000_0000 <= x < 0x8000_0000
  }

  /** Java `int` addition: the exact result wrapped into 32-bit two's complement. */
  function Wrap32(x: int): (r: int)
    ensures IsInt32(r)
    ensures IsInt32(x) ==> r == x
    ensures (x - r) % 0x1_0000_0000 == 0
  {
    (x + 0x8000_0000) % 0x1_0000_0000 - 0x8000_0000
  }

  predicate IsDigit(c: char)
  {
    '0' <= c <= '9'
  }

  function DigitChar(d: nat): char
    requires d < 10
  {
    ('0' as int + d) as char
  }

  /** Decimal digits of a natural number, most significant first, no leading zeros. */
  function NatToDigits(n: nat): (r: string)
    ensures |r| >= 1 && forall i :: 0 <= i < |r| ==> IsDigit(r[i])
  {
    if n < 10 then [DigitChar(n)] else NatToDigits(n / 10) + [DigitChar(n % 10)]
  }

  /** `Integer.toString`: a minus sign for negative values, then the digits. */
  function IntToString(x: int): string
  {
    if x < 0 then "-" + NatToDigits(-x) else NatToDigits(x)
  }

  /** Value of a string of decimal digits. */
  function DigitsValue(s: string): nat
    requires forall i :: 0 <= i < |s| ==> IsDigit(s[i])
  {
    if s == [] then 0
    else
      assert IsDigit(s[|s| - 1]);
      DigitsValue(s[..|s| - 1]) * 10 + (s[|s| - 1] as int - '0' as int)
  }

  predicate AllDigits(s: string)
  {
    forall i :: 0 <= i < |s| ==> IsDigit(s[i])
  }

  /** `Integer.parseInt` in radix 10: an optional sign, at least one digit, and a value
      that fits in 32 bits; anything else is a `NumberFormatException` (`None`). */
  function ParseInt(s: string): Option<int>
  {
    if |s| == 0 then None
    else
      var signed := s[0] == '-' || s[0] == '+';
      var digits := if signed then s[1..] else s;
      if |digits| == 0 || !AllDigits(digits) then None
      else
        var v: int := DigitsValue(digits);
        var x: int := if s[0] == '-' then 0 - v else v;
        if IsInt32(x) then Some(x) else None
  }

  lemma {:induction false} DigitsValueOfNat(n: nat)
    ensures DigitsValue(NatToDigits(n)) == n
  {
    if n >= 10 {
      var p := NatToDigits(n / 10);
      DigitsValueOfNat(n / 10);
      assert (p + [DigitChar(n % 10)])[..|p|] == p;
    }
  }

  lemma {:induction false} IntToStringTrimmed(x: int)
    ensures Trimmed(IntToString(x)) && ',' !in IntToString(x)
  {
    var d := if x < 0 then -x else x;
    var t := NatToDigits(d);
    assert t[0] > ' ' && t[|t| - 1] > ' ';
    assert forall i :: 0 <= i < |t| ==> t[i] != ',';
    if x < 0 {
      assert IntToString(x) == "-" + t;
    }
  }

  /** Parsing what `Integer.toString` printed gives the number back. */
  lemma {:induction false} ParseIntToString(x: int)
    requires IsInt32(x)
    ensures ParseInt(IntToString(x)) == Some(x)
  {
    var d := if x < 0 then -x else x;
    DigitsValueOfNat(d);
    var t := NatToDigits(d);
    if x < 0 {
      assert IntToString(x)[1..] == t;
    } else {
      assert t[0] != '-' && t[0] != '+';
    }
  }
}
