/** The parts of Python's `str` and `int` that the scrapers and the bot rely on:
    `startswith`, `endswith`, `in`, `split`, `str(n)` and `int(s)`. */
module Text {
  import opened Wrappers

  predicate StartsWith(s: string, prefix: string) {
    |prefix| <= |s| && s[..|prefix|] == prefix
  }

  predicate EndsWith(s: string, suffix: string) {
    |suffix| <= |s| && s[|s| - |suffix|..] == suffix
  }

  /** Python's `sub in s`. */
  predicate Contains(s: string, sub: string)
    decreases |s|
  {
    StartsWith(s, sub) || (s != [] && Contains(s[1..], sub))
  }

  /** Python's `s.split(sep)` for a non-empty separator: the pieces between the
      occurrences of `sep`, found by scanning from the left. */
  function Split(s: string, sep: string): (parts: seq<string>)
    requires sep != ""
    ensures |parts| >= 1
    decreases |s|
  {
    if StartsWith(s, sep) then [""] + Split(s[|sep|..], sep)
    else if s == [] then [""]
    else
      var rest := Split(s[1..], sep);
      [[s[0]] + rest[0]] + rest[1..]
  }

  /** Python's `sep.join(parts)`. */
  function Join(parts: seq<string>, sep: string): string
    requires |parts| >= 1
    decreases |parts|
  {
    if |parts| == 1 then parts[0] else parts[0] + sep + Join(parts[1..], sep)
  }

  function Last<T>(s: seq<T>): T
    requires |s| >= 1
  {
    s[|s| - 1]
  }

  /** No proper prefix of `sep` is also a suffix of it, so two occurrences never overlap. */
  predicate NoBorder(sep: string) {
    forall k :: 0 < k < |sep| ==> sep[..k] != sep[|sep| - k..]
  }

  lemma ContainsAt(s: string, sub: string, i: nat)
    requires i + |sub| <= |s| && s[i..i + |sub|] == sub
    ensures Contains(s, sub)
    decreases i
  {
    if i > 0 {
      assert s[1..][i - 1..i - 1 + |sub|] == sub;
      ContainsAt(s[1..], sub, i - 1);
    }
  }

  /** A one-character string occurs in `s` exactly when its character does. */
  lemma {:induction false} ContainsChar(s: string, c: char)
    ensures Contains(s, [c]) <==> c in s
    decreases |s|
  {
    if s != [] {
      ContainsChar(s[1..], c);
      assert s == [s[0]] + s[1..];
    }
  }

  /** Splitting a string in which the separator does not occur yields the string itself. */
  lemma {:induction false} SplitAbsent(s: string, sep: string)
    requires sep != "" && !Contains(s, sep)
    ensures Split(s, sep) == [s]
    decreases |s|
  {
    if s != [] {
      SplitAbsent(s[1..], sep);
      assert [s[0]] + s[1..] == s;
    }
  }

  /** One step of the left-to-right scan: a first character that does not begin a separator joins the first piece of the rest. */
  lemma SplitStep(s: string, sep: string)
    requires sep != "" && s != [] && !StartsWith(s, sep)
    ensures Split(s, sep) == [[s[0]] + Split(s[1..], sep)[0]] + Split(s[1..], sep)[1..]
  {
  }

  /** A separator at the front closes an empty first piece. */
  lemma SplitAtSeparator(s: string, sep: string)
    requires sep != "" && StartsWith(s, sep)
    ensures Split(s, sep) == [""] + Split(s[|sep|..], sep)
  {
  }

  lemma JoinCons(c: char, rest: seq<string>, sep: string)
    requires |rest| >= 1
    ensures Join([[c] + rest[0]] + rest[1..], sep) == [c] + Join(rest, sep)
  {
    var parts := [[c] + rest[0]] + rest[1..];
    assert parts[1..] == rest[1..];
    if |rest| > 1 {
      assert ([c] + rest[0]) + sep + Join(rest[1..], sep) == [c] + (rest[0] + sep + Join(rest[1..], sep));
    }
  }

  /** Split and Join are inverse: joining the pieces with the separator gives back the string. */
  lemma {:induction false} SplitJoin(s: string, sep: string)
    requires sep != ""
    ensures Join(Split(s, sep), sep) == s
    decreases |s|
  {
    if StartsWith(s, sep) {
      SplitAtSeparator(s, sep);
      SplitJoin(s[|sep|..], sep);
      assert s == sep + s[|sep|..];
    } else if s != [] {
      SplitStep(s, sep);
      SplitJoin(s[1..], sep);
      JoinCons(s[0], Split(s[1..], sep), sep);
      assert s == [s[0]] + s[1..];
    }
  }

  /** With a one-character separator, no piece contains the separator. */
  lemma {:induction false} SplitPiecesFree(s: string, c: char)
    ensures forall i :: 0 <= i < |Split(s, [c])| ==> c !in Split(s, [c])[i]
    decreases |s|
  {
    if StartsWith(s, [c]) {
      SplitPiecesFree(s[1..], c);
    } else if s != [] {
      SplitPiecesFree(s[1..], c);
      assert s[0] != c;
    }
  }

  /** A one-character separator occurs in `s` exactly when `split` yields more than one piece. */
  lemma SplitCount(s: string, c: char)
    ensures c in s <==> |Split(s, [c])| >= 2
  {
    SplitJoin(s, [c]);
    SplitPiecesFree(s, c);
    var parts := Split(s, [c]);
    if |parts| >= 2 {
      assert Join(parts, [c]) == parts[0] + [c] + Join(parts[1..], [c]);
      assert s[|parts[0]|] == c;
    }
  }

  /** When `sep` has no border, an occurrence of it cannot straddle the end of a
      non-empty `a` that does not itself begin with `sep`. */
  lemma NoStraddle(a: string, sep: string, b: string)
    requires sep != "" && NoBorder(sep) && a != [] && !StartsWith(a, sep)
    ensures !StartsWith(a + sep + b, sep)
  {
    var s := a + sep + b;
    if |a| >= |sep| {
      assert s[..|sep|] == a[..|sep|];
    } else {
      var k := |sep| - |a|;
      assert s[..|sep|] == a + sep[..k];
      assert (a + sep[..k])[|a|..] == sep[..k];
      assert sep[|sep| - k..] == sep[|a|..];
      assert sep[..k] != sep[|a|..];
    }
  }

  /** Prepending a character to the first piece commutes with appending more pieces. */
  lemma ConsFirstPiece(c: char, x: seq<string>, y: seq<string>)
    requires |x| >= 1
    ensures [[c] + (x + y)[0]] + (x + y)[1..] == ([[c] + x[0]] + x[1..]) + y
  {
    assert (x + y)[0] == x[0];
    assert (x + y)[1..] == x[1..] + y;
  }

  /** Splitting at an occurrence of a separator without borders splits the two sides independently. */
  lemma {:induction false} SplitConcat(a: string, sep: string, b: string)
    requires sep != "" && NoBorder(sep)
    ensures Split(a + sep + b, sep) == Split(a, sep) + Split(b, sep)
    decreases |a|
  {
    var s := a + sep + b;
    if a == [] {
      assert s == sep + b;
      assert s[..|sep|] == sep;
      SplitAtSeparator(s, sep);
      assert s[|sep|..] == b;
    } else if StartsWith(a, sep) {
      assert s[..|sep|] == a[..|sep|];
      SplitAtSeparator(s, sep);
      SplitAtSeparator(a, sep);
      assert s[|sep|..] == a[|sep|..] + sep + b;
      SplitConcat(a[|sep|..], sep, b);
    } else {
      NoStraddle(a, sep, b);
      SplitStep(s, sep);
      SplitStep(a, sep);
      assert s[1..] == a[1..] + sep + b;
      SplitConcat(a[1..], sep, b);
      ConsFirstPiece(a[0], Split(a[1..], sep), Split(b, sep));
    }
  }

  /** The pieces joined with a character that none of them holds: the first piece, the
      character, the second piece, then the end or the character again. */
  lemma JoinSecond(parts: seq<string>, c: char)
    requires |parts| >= 2 && forall i :: 0 <= i < |parts| ==> c !in parts[i]
    ensures var s, k := Join(parts, [c]), |parts[0]|;
      && k + 1 + |parts[1]| <= |s|
      && s[..k] == parts[0] && s[k] == c && s[k + 1..k + 1 + |parts[1]|] == parts[1]
      && (k + 1 + |parts[1]| == |s| || s[k + 1 + |parts[1]|] == c)
  {
    var rest := if |parts| == 2 then "" else [c] + Join(parts[2..], [c]);
    assert parts[1..][1..] == parts[2..];
    assert Join(parts[1..], [c]) == parts[1] + rest;
    assert Join(parts, [c]) == parts[0] + [c] + parts[1] + rest;
  }

  /** The second piece of `s.split(c)` is the text after the first `c`, up to the next
      `c` or the end. */
  lemma SecondSegment(s: string, c: char)
    requires c in s
    ensures |Split(s, [c])| >= 2
    ensures var second, k := Split(s, [c])[1], |Split(s, [c])[0]|;
      && k + 1 + |second| <= |s|
      && c !in s[..k] && s[k] == c && s[k + 1..k + 1 + |second|] == second && c !in second
      && (k + 1 + |second| == |s| || s[k + 1 + |second|] == c)
  {
    SplitCount(s, c);
    SplitJoin(s, [c]);
    SplitPiecesFree(s, c);
    JoinSecond(Split(s, [c]), c);
  }

  predicate IsDigit(c: char) {
    '0' <= c <= '9'
  }

  predicate AllDigits(s: string) {
    forall i :: 0 <= i < |s| ==> IsDigit(s[i])
  }

  /** The decimal value of a string of digits, most significant first. */
  function DigitsValue(s: string): nat
    requires AllDigits(s)
    decreases |s|
  {
    if s == [] then 0 else 10 * DigitsValue(s[..|s| - 1]) + (s[|s| - 1] as int - '0' as int)
  }

  function DigitChar(d: nat): char
    requires d < 10
  {
    (d + '0' as int) as char
  }

  /** Python's `str(n)` for a non-negative integer. */
  function NatToString(n: nat): (s: string)
    ensures |s| >= 1 && AllDigits(s)
    decreases n
  {
    if n < 10 then [DigitChar(n)] else NatToString(n / 10) + [DigitChar(n % 10)]
  }

  /** Python's `str(i)` and the decimal form of an f-string. */
  function IntToString(i: int): string {
    if i < 0 then "-" + NatToString(-i) else NatToString(i)
  }

  /** Python's `int(s)` on an optional sign followed by decimal digits; `None` is the
      `ValueError` it raises on anything else. */
  function ParseInt(s: string): Option<int> {
    if |s| > 0 && (s[0] == '+' || s[0] == '-') then
      if |s| > 1 && AllDigits(s[1..]) then
        var magnitude: int := DigitsValue(s[1..]);
        Some(if s[0] == '-' then -magnitude else magnitude)
      else None
    else if |s| > 0 && AllDigits(s) then Some(DigitsValue(s))
    else None
  }

  lemma {:induction false} NatToStringValue(n: nat)
    ensures DigitsValue(NatToString(n)) == n
    decreases n
  {
    if n >= 10 {
      NatToStringValue(n / 10);
      var s := NatToString(n);
      assert s[..|s| - 1] == NatToString(n / 10);
    }
  }

  /** `int(str(i)) == i`: the decimal text of an integer parses back to it. */
  lemma IntRoundTrip(i: int)
    ensures ParseInt(IntToString(i)) == Some(i)
  {
    if i < 0 {
      NatToStringValue(-i);
      assert IntToString(i)[1..] == NatToString(-i);
    } else {
      NatToStringValue(i);
    }
  }

  /** The text of an integer holds only digits and a leading minus sign. */
  lemma IntToStringChars(i: int, c: char)
    requires !IsDigit(c) && c != '-'
    ensures c !in IntToString(i)
  {
    var s := IntToString(i);
    if i < 0 {
      assert forall k :: 1 <= k < |s| ==> s[k] == NatToString(-i)[k - 1];
    }
  }

  /** A separator whose first character cannot occur in `s` does not occur in `s`. */
  lemma {:induction false} AbsentFirstChar(s: string, sep: string)
    requires sep != "" && sep[0] !in s
    ensures !Contains(s, sep)
    decreases |s|
  {
    if s != [] {
      AbsentFirstChar(s[1..], sep);
    }
  }
}
