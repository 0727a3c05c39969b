/** The pieces of Python's `str` behaviour that the label builder and the
    graph assembler rely on: `split` and `join` on one separator, `replace`
    of one character, `" " * n`, `upper`, `str(int)`, `int(str)` and
    `repr(str)`. */
module Strings {
  import opened Collections

  /** `s.split(sep)` for a one-character separator. */
  function Split(s: string, sep: char): (parts: seq<string>)
    ensures |parts| >= 1
    decreases |s|
  {
    if |s| == 0 then [""]
    else
      var rest := Split(s[1..], sep);
      if s[0] == sep then [""] + rest else [[s[0]] + rest[0]] + rest[1..]
  }

  /** `sep.join(parts)`. */
  function Join(sep: string, parts: seq<string>): string
  {
    if |parts| == 0 then ""
    else if |parts| == 1 then parts[0]
    else parts[0] + sep + Join(sep, parts[1..])
  }

  /** No part that `split` returns holds the separator. */
  lemma {:induction false} SplitPartsLackSeparator(s: string, sep: char)
    ensures forall i :: 0 <= i < |Split(s, sep)| ==> sep !in Split(s, sep)[i]
    decreases |s|
  {
    if |s| > 0 {
      SplitPartsLackSeparator(s[1..], sep);
    }
  }

  /** Joining the parts of a split with the separator gives the text back. */
  lemma {:induction false} JoinSplit(s: string, sep: char)
    ensures Join([sep], Split(s, sep)) == s
    decreases |s|
  {
    if |s| > 0 {
      var rest := Split(s[1..], sep);
      JoinSplit(s[1..], sep);
      if s[0] == sep {
        assert ([""] + rest)[1..] == rest;
      } else {
        var parts := [[s[0]] + rest[0]] + rest[1..];
        assert parts[1..] == rest[1..];
        if |rest| > 1 {
          assert Join([sep], rest) == rest[0] + [sep] + Join([sep], rest[1..]);
        }
      }
    }
  }

  /** Splitting text that holds no separator gives the text alone. */
  lemma {:induction false} SplitWithoutSeparator(s: string, sep: char)
    requires sep !in s
    ensures Split(s, sep) == [s]
    decreases |s|
  {
    if |s| > 0 {
      SplitWithoutSeparator(s[1..], sep);
      assert [s[0]] + s[1..] == s;
    }
  }

  /** A separator after a separator-free prefix ends the first part. */
  lemma {:induction false} SplitAfterPart(a: string, sep: char, b: string)
    requires sep !in a
    ensures Split(a + [sep] + b, sep) == [a] + Split(b, sep)
    decreases |a|
  {
    if |a| == 0 {
      assert a + [sep] + b == [sep] + b;
      assert ([sep] + b)[1..] == b;
    } else {
      var t := a + [sep] + b;
      assert t[0] == a[0];
      assert t[1..] == a[1..] + [sep] + b;
      SplitAfterPart(a[1..], sep, b);
      assert [a[0]] + a[1..] == a;
    }
  }

  /** Splitting the join of separator-free parts gives the parts back. */
  lemma {:induction false} SplitJoin(parts: seq<string>, sep: char)
    requires |parts| >= 1
    requires forall i :: 0 <= i < |parts| ==> sep !in parts[i]
    ensures Split(Join([sep], parts), sep) == parts
    decreases |parts|
  {
    if |parts| == 1 {
      SplitWithoutSeparator(parts[0], sep);
    } else {
      SplitJoin(parts[1..], sep);
      SplitAfterPart(parts[0], sep, Join([sep], parts[1..]));
      assert [parts[0]] + parts[1..] == parts;
    }
  }

  /** The index of the last `c` in `s`, or -1 (`s.rfind(c)`). */
  function LastIndexOf(s: string, c: char): (r: int)
    ensures -1 <= r < |s|
    ensures r == -1 <==> c !in s
    ensures r >= 0 ==> s[r] == c && c !in s[r + 1..]
    decreases |s|
  {
    if |s| == 0 then -1
    else if s[|s| - 1] == c then |s| - 1
    else
      var init := s[..|s| - 1];
      var r := LastIndexOf(init, c);
      assert s == init + [s[|s| - 1]];
      assert r >= 0 ==> s[r + 1..] == init[r + 1..] + [s[|s| - 1]];
      r
  }

  /** The last part of a split is what follows the last separator, and the
      parts before it are the split of what precedes that separator. */
  lemma {:induction false} SplitAtLastSeparator(s: string, sep: char)
    requires sep in s
    ensures var i := LastIndexOf(s, sep);
      Split(s, sep) == Split(s[..i], sep) + [s[i + 1..]]
    decreases |s|
  {
    var i := LastIndexOf(s, sep);
    var tail := s[i + 1..];
    calc {
      Split(s, sep);
      { assert s == s[..i] + [sep] + tail; }
      Split(s[..i] + [sep] + tail, sep);
      { SplitOfSeparatedTail(s[..i], sep, tail); }
      Split(s[..i], sep) + [tail];
    }
  }

  /** Splitting `a + sep + b` where `b` holds no separator. */
  lemma {:induction false} SplitOfSeparatedTail(a: string, sep: char, b: string)
    requires sep !in b
    ensures Split(a + [sep] + b, sep) == Split(a, sep) + [b]
    decreases |a|
  {
    if |a| == 0 {
      assert a + [sep] + b == [sep] + b;
      assert ([sep] + b)[1..] == b;
      SplitWithoutSeparator(b, sep);
    } else {
      var t := a + [sep] + b;
      assert t[0] == a[0];
      assert t[1..] == a[1..] + [sep] + b;
      SplitOfSeparatedTail(a[1..], sep, b);
      var rest := Split(a[1..], sep);
      if a[0] != sep {
        assert (rest + [b])[0] == rest[0];
        assert (rest + [b])[1..] == rest[1..] + [b];
      } else {
        assert [""] + (rest + [b]) == ([""] + rest) + [b];
      }
    }
  }

  /** `s.replace(target, replacement)` where `target` is one character. */
  function ReplaceChar(s: string, target: char, replacement: string): string
    decreases |s|
  {
    if |s| == 0 then ""
    else (if s[0] == target then replacement else [s[0]]) + ReplaceChar(s[1..], target, replacement)
  }

  /** Replacing a character is splitting on it and joining with the
      replacement, an equivalent formulation of replacing every occurrence. */
  lemma {:induction false} ReplaceCharIsJoinSplit(s: string, target: char, replacement: string)
    ensures ReplaceChar(s, target, replacement) == Join(replacement, Split(s, target))
    decreases |s|
  {
    if |s| > 0 {
      ReplaceCharIsJoinSplit(s[1..], target, replacement);
      var rest := Split(s[1..], target);
      if s[0] == target {
        assert ([""] + rest)[1..] == rest;
      } else {
        var parts := [[s[0]] + rest[0]] + rest[1..];
        assert parts[1..] == rest[1..];
        if |rest| > 1 {
          assert Join(replacement, rest) == rest[0] + replacement + Join(replacement, rest[1..]);
        }
      }
    }
  }

  /** `" " * n`: repeating a string a negative number of times gives "". */
  function Spaces(n: int): string
  {
    seq(if n <= 0 then 0 else n, _ => ' ')
  }

  /** `" " * n` is `max(0, n)` spaces. */
  lemma SpacesCount(n: int)
    ensures |Spaces(n)| == if n <= 0 then 0 else n
    ensures forall i :: 0 <= i < |Spaces(n)| ==> Spaces(n)[i] == ' '
  {
  }

  predicate StartsWith(s: string, prefix: string)
  {
    |prefix| <= |s| && s[..|prefix|] == prefix
  }

  predicate IsLower(c: char)
  {
    'a' <= c <= 'z'
  }

  function UpperChar(c: char): char
  {
    if IsLower(c) then (c as int - 32) as char else c
  }

  /** `s.upper()` on ASCII letters: it works character by character. */
  function Upper(s: string): string
  {
    seq(|s|, i requires 0 <= i < |s| => UpperChar(s[i]))
  }

  /** Upper-casing leaves no lower-case letter and is idempotent. */
  lemma UpperIdempotent(s: string)
    ensures forall i :: 0 <= i < |Upper(s)| ==> !IsLower(Upper(s)[i])
    ensures Upper(Upper(s)) == Upper(s)
  {
  }

  predicate IsDigit(c: char)
  {
    '0' <= c <= '9'
  }

  function DigitChar(d: nat): (c: char)
    requires d < 10
    ensures IsDigit(c)
  {
    ('0' as int + d) as char
  }

  function DigitValue(c: char): nat
    requires IsDigit(c)
  {
    c as int - '0' as int
  }

  /** `str(n)` for a Python `int`: a minus sign for a negative number, then
      the decimal digits, most significant first, without leading zeros. */
  function IntToString(n: int): string
    decreases if n < 0 then 1 - n else n
  {
    if n < 0 then "-" + IntToString(-n)
    else if n < 10 then [DigitChar(n)]
    else IntToString(n / 10) + [DigitChar(n % 10)]
  }

  /** `str` of a natural number starts with a digit, and with `0` only when
      it is the single digit of zero. */
  lemma {:induction false} DecimalShape(n: nat)
    ensures |IntToString(n)| >= 1 && IsDigit(IntToString(n)[0])
    ensures |IntToString(n)| > 1 ==> IntToString(n)[0] != '0'
    decreases n
  {
    if n >= 10 {
      DecimalShape(n / 10);
    }
  }

  /** `str(n)` is never empty, and starts with `-` exactly for negative `n`. */
  lemma IntToStringShape(n: int)
    ensures |IntToString(n)| >= 1
    ensures n < 0 <==> IntToString(n)[0] == '-'
  {
    DecimalShape(if n < 0 then -n else n);
  }

  /** The value of a string of decimal digits. */
  function DigitsValue(s: string): nat
    requires forall i :: 0 <= i < |s| ==> IsDigit(s[i])
    decreases |s|
  {
    if |s| == 0 then 0 else DigitsValue(s[..|s| - 1]) * 10 + DigitValue(s[|s| - 1])
  }

  /** Reads back the decimal texts `str` produces (an optional minus sign
      and at least one digit); `None` otherwise. */
  function ParseInt(s: string): Option<int>
  {
    if |s| >= 2 && s[0] == '-' && forall i :: 1 <= i < |s| ==> IsDigit(s[i]) then Some(0 - DigitsValue(s[1..]) as int)
    else if |s| >= 1 && forall i :: 0 <= i < |s| ==> IsDigit(s[i]) then Some(DigitsValue(s))
    else None
  }

  /** `str` of a natural number is all digits. */
  lemma {:induction false} DecimalDigits(n: nat)
    ensures forall i :: 0 <= i < |IntToString(n)| ==> IsDigit(IntToString(n)[i])
    decreases n
  {
    if n >= 10 {
      DecimalDigits(n / 10);
    }
  }

  lemma {:induction false} DigitsValueOfDecimal(n: nat)
    requires forall i :: 0 <= i < |IntToString(n)| ==> IsDigit(IntToString(n)[i])
    ensures DigitsValue(IntToString(n)) == n
    decreases n
  {
    if n >= 10 {
      DecimalDigits(n / 10);
      DigitsValueOfDecimal(n / 10);
      var r := IntToString(n / 10) + [DigitChar(n % 10)];
      assert r[..|r| - 1] == IntToString(n / 10);
    }
  }

  /** `int` reads back the digits `str` writes for a natural number. */
  lemma ParseDecimal(n: nat)
    ensures ParseInt(IntToString(n)) == Some(n)
  {
    DecimalShape(n);
    DecimalDigits(n);
    DigitsValueOfDecimal(n);
  }

  /** `int` reads back a minus sign and the digits of a positive number. */
  lemma ParseNegativeToString(n: int)
    requires n > 0
    ensures ParseInt("-" + IntToString(n)) == Some(-n)
  {
    var s := "-" + IntToString(n);
    DecimalShape(n);
    DecimalDigits(n);
    DigitsValueOfDecimal(n);
    assert s[1..] == IntToString(n);
    assert forall i :: 1 <= i < |s| ==> IsDigit(s[i]) by {
      forall i | 1 <= i < |s| ensures IsDigit(s[i]) {
        assert s[i] == IntToString(n)[i - 1];
      }
    }
  }

  /** `int(str(n)) == n`. */
  lemma ParseIntToString(n: int)
    ensures ParseInt(IntToString(n)) == Some(n)
  {
    if n < 0 {
      assert IntToString(n) == "-" + IntToString(-n);
      ParseNegativeToString(-n);
    } else {
      ParseDecimal(n);
    }
  }

  /** Distinct integers have distinct decimal texts. */
  lemma IntToStringInjective(a: int, b: int)
    requires IntToString(a) == IntToString(b)
    ensures a == b
  {
    ParseIntToString(a);
    ParseIntToString(b);
  }

  /** The quote `repr` chooses: `"` only when the text holds a `'` and no `"`. */
  function ReprQuote(s: string): char
  {
    if '\'' in s && '"' !in s then '"' else '\''
  }

  function HexDigit(d: nat): char
    requires d < 16
  {
    "0123456789abcdef"[d]
  }

  /** How `repr` writes one ASCII character inside the chosen quotes. */
  function EscapeChar(c: char, quote: char): string
  {
    if c == quote || c == '\\' then ['\\', c]
    else if c == '\t' then "\\t"
    else if c == '\n' then "\\n"
    else if c == '\r' then "\\r"
    else if c < ' ' || c as int == 0x7F then ['\\', 'x', HexDigit(c as int / 16), HexDigit(c as int % 16)]
    else [c]
  }

  function EscapeAll(s: string, quote: char): string
    decreases |s|
  {
    if |s| == 0 then "" else EscapeChar(s[0], quote) + EscapeAll(s[1..], quote)
  }

  /** `repr(s)` for a string, as the `!r` conversion in an f-string. */
  function PyRepr(s: string): string
  {
    var q := ReprQuote(s);
    [q] + EscapeAll(s, q) + [q]
  }

  /** Text that needs no escaping. */
  predicate PlainText(s: string)
  {
    forall i :: 0 <= i < |s| ==> s[i] != '\'' && s[i] != '\\' && ' ' <= s[i] && s[i] as int != 0x7F
  }

  /** `repr` of plain text is the text between single quotes. */
  lemma PyReprPlain(s: string)
    requires PlainText(s)
    ensures PyRepr(s) == "'" + s + "'"
  {
    EscapeAllPlain(s, '\'');
  }

  lemma {:induction false} EscapeAllPlain(s: string, quote: char)
    requires PlainText(s)
    requires quote == '\''
    ensures EscapeAll(s, quote) == s
    decreases |s|
  {
    if |s| > 0 {
      EscapeAllPlain(s[1..], quote);
      assert [s[0]] + s[1..] == s;
    }
  }
}
