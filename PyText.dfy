/** The pieces of Python's built-in text behaviour that the client relies on:
    `str.split(sep)`, `str.split()`, `str.strip()`, `sep.join(parts)`,
    `int(s)` and `str(n)`. A Dafny `char` stands for one character of a
    Python `str`; whitespace is the six characters of `IsSpace`. */
module PyText {
  import opened Wrappers

  /** The whitespace `strip()`, `split()` and `int()` skip, as far as it is
      modelled: space, \t, \n, \r, \v and \f. */
  predicate IsSpace(c: char) {
    c == ' ' || c == '\t' || c == '\n' || c == '\r' || c == '\U{0B}' || c == '\U{0C}'
  }

  predicate NoSpace(s: string) {
    forall i :: 0 <= i < |s| ==> !IsSpace(s[i])
  }

  predicate AllSpace(s: string) {
    forall i :: 0 <= i < |s| ==> IsSpace(s[i])
  }

  /** Neither end of `s` is whitespace: the strings `strip()` returns. */
  predicate Stripped(s: string) {
    s == [] || (!IsSpace(s[0]) && !IsSpace(s[|s| - 1]))
  }

  /** `s.lstrip()`: drops the whitespace prefix, keeps the rest. */
  function TrimLeft(s: string): string
  {
    if s != [] && IsSpace(s[0]) then TrimLeft(s[1..]) else s
  }

  /** `s.rstrip()`: drops the whitespace suffix, keeps the rest. */
  function TrimRight(s: string): string
  {
    if s != [] && IsSpace(s[|s| - 1]) then TrimRight(s[..|s| - 1]) else s
  }

  /** `s.strip()`. */
  function Strip(s: string): string
  {
    TrimRight(TrimLeft(s))
  }

  lemma {:induction false} TrimLeftPadded(pad: string, t: string)
    requires AllSpace(pad)
    requires t == [] || !IsSpace(t[0])
    ensures TrimLeft(pad + t) == t
  {
    if pad == [] {
      assert pad + t == t;
    } else {
      assert (pad + t)[1..] == pad[1..] + t;
      TrimLeftPadded(pad[1..], t);
    }
  }

  lemma {:induction false} TrimRightPadded(t: string, pad: string)
    requires AllSpace(pad)
    requires t == [] || !IsSpace(t[|t| - 1])
    ensures TrimRight(t + pad) == t
  {
    if pad == [] {
      assert t + pad == t;
    } else {
      var n := |pad| - 1;
      assert (t + pad)[..|t + pad| - 1] == t + pad[..n];
      TrimRightPadded(t, pad[..n]);
    }
  }

  /** `strip()` removes exactly the surrounding whitespace: any string that
      is whitespace, then a stripped core, then whitespace, strips to that
      core. With empty padding this says `strip()` is idempotent. */
  lemma StripPadded(pad1: string, core: string, pad2: string)
    requires AllSpace(pad1) && AllSpace(pad2) && Stripped(core)
    ensures Strip(pad1 + core + pad2) == core
  {
    if core == [] {
      assert pad1 + core + pad2 == pad1 + pad2 + [];
      TrimLeftPadded(pad1 + pad2, []);
    } else {
      assert pad1 + core + pad2 == pad1 + (core + pad2);
      TrimLeftPadded(pad1, core + pad2);
      TrimRightPadded(core, pad2);
    }
  }

  lemma StripStripped(s: string)
    requires Stripped(s)
    ensures Strip(s) == s
  {
    assert "" + s + "" == s;
    StripPadded("", s, "");
  }

  /** `s.split(sep)` for a one-character separator: the pieces between
      separators, empty pieces kept, always at least one piece. */
  function Split(s: string, sep: char): (r: seq<string>)
    ensures |r| >= 1
    ensures forall i :: 0 <= i < |r| ==> sep !in r[i]
  {
    if s == [] then [""]
    else
      var rest := Split(s[1..], sep);
      if s[0] == sep then [""] + rest
      else [[s[0]] + rest[0]] + rest[1..]
  }

  /** `sep.join(parts)` for a one-character separator. */
  function Join(parts: seq<string>, sep: char): string
  {
    if |parts| == 0 then ""
    else if |parts| == 1 then parts[0]
    else parts[0] + [sep] + Join(parts[1..], sep)
  }

  /** `"".join(parts)`. */
  function Concat(parts: seq<string>): string
  {
    if parts == [] then "" else parts[0] + Concat(parts[1..])
  }

  /** Joining the pieces of a split gives back the original string. */
  lemma {:induction false} JoinSplit(s: string, sep: char)
    ensures Join(Split(s, sep), sep) == s
  {
    if s != [] {
      JoinSplit(s[1..], sep);
      var rest := Split(s[1..], sep);
      if s[0] == sep {
        assert Split(s, sep) == [""] + rest;
        assert ([""] + rest)[1..] == rest;
        assert Join(Split(s, sep), sep) == [sep] + Join(rest, sep);
      } else {
        var first := [s[0]] + rest[0];
        assert Split(s, sep) == [first] + rest[1..];
        if |rest| == 1 {
          assert Join(Split(s, sep), sep) == first;
        } else {
          assert ([first] + rest[1..])[1..] == rest[1..];
          assert Join(rest, sep) == rest[0] + [sep] + Join(rest[1..], sep);
        }
      }
    }
  }

  lemma {:induction false} SplitNoSep(a: string, sep: char)
    requires sep !in a
    ensures Split(a, sep) == [a]
  {
    if a != [] {
      SplitNoSep(a[1..], sep);
      assert [a[0]] + a[1..] == a;
    }
  }

  lemma {:induction false} SplitAround(a: string, sep: char, b: string)
    requires sep !in a
    ensures Split(a + [sep] + b, sep) == [a] + Split(b, sep)
  {
    var s := a + [sep] + b;
    if a == [] {
      assert s[1..] == b;
    } else {
      assert s[1..] == a[1..] + [sep] + b;
      SplitAround(a[1..], sep, b);
      assert [a[0]] + a[1..] == a;
    }
  }

  /** Splitting a join gives back the parts, when no part holds the
      separator. */
  lemma {:induction false} SplitJoin(parts: seq<string>, sep: char)
    requires |parts| >= 1
    requires forall i :: 0 <= i < |parts| ==> sep !in parts[i]
    ensures Split(Join(parts, sep), sep) == parts
  {
    if |parts| == 1 {
      SplitNoSep(parts[0], sep);
    } else {
      SplitJoin(parts[1..], sep);
      SplitAround(parts[0], sep, Join(parts[1..], sep));
      assert [parts[0]] + parts[1..] == parts;
    }
  }

  /** A character that is not the separator and is in no part is not in
      the join. */
  lemma {:induction false} JoinExcludes(parts: seq<string>, sep: char, c: char)
    requires c != sep
    requires forall i :: 0 <= i < |parts| ==> c !in parts[i]
    ensures c !in Join(parts, sep)
  {
    if |parts| > 1 {
      JoinExcludes(parts[1..], sep, c);
    }
  }

  /** `s.split()`: the maximal runs of non-whitespace characters. */
  function Words(s: string): (r: seq<string>)
    ensures forall i :: 0 <= i < |r| ==> r[i] != [] && NoSpace(r[i])
    ensures s != [] && !IsSpace(s[0]) ==> r != [] && r[0][0] == s[0]
  {
    if s == [] then []
    else
      var rest := Words(s[1..]);
      if IsSpace(s[0]) then rest
      else if |s| > 1 && !IsSpace(s[1]) then [[s[0]] + rest[0]] + rest[1..]
      else [[s[0]]] + rest
  }

  lemma {:induction false} WordsOfWord(w: string)
    requires w != [] && NoSpace(w)
    ensures Words(w) == [w]
  {
    if |w| > 1 {
      WordsOfWord(w[1..]);
      assert [w[0]] + w[1..] == w;
    } else {
      assert w[1..] == [];
      assert w == [w[0]];
    }
  }

  lemma {:induction false} WordsCons(w: string, rest: string)
    requires w != [] && NoSpace(w)
    ensures Words(w + [' '] + rest) == [w] + Words(rest)
  {
    var s := w + [' '] + rest;
    if |w| == 1 {
      assert s[1..] == [' '] + rest;
      assert ([' '] + rest)[1..] == rest;
      assert Words(s[1..]) == Words(rest);
      assert w == [s[0]];
    } else {
      assert s[1..] == w[1..] + [' '] + rest;
      WordsCons(w[1..], rest);
      assert [w[0]] + w[1..] == w;
    }
  }

  /** `" ".join(tokens).split()` gives back the tokens, when every token is
      non-empty and holds no whitespace. */
  lemma {:induction false} WordsJoin(tokens: seq<string>)
    requires forall i :: 0 <= i < |tokens| ==> tokens[i] != [] && NoSpace(tokens[i])
    ensures Words(Join(tokens, ' ')) == tokens
  {
    if |tokens| == 1 {
      WordsOfWord(tokens[0]);
    } else if |tokens| > 1 {
      WordsJoin(tokens[1..]);
      WordsCons(tokens[0], Join(tokens[1..], ' '));
      assert [tokens[0]] + tokens[1..] == tokens;
    }
  }

  /** A space-joined list of non-empty, whitespace-free tokens is already
      stripped. */
  lemma {:induction false} JoinWordsStripped(tokens: seq<string>)
    requires forall i :: 0 <= i < |tokens| ==> tokens[i] != [] && NoSpace(tokens[i])
    ensures Stripped(Join(tokens, ' '))
    ensures |tokens| > 0 ==> Join(tokens, ' ') != []
  {
    if |tokens| > 1 {
      JoinWordsStripped(tokens[1..]);
      var tail := Join(tokens[1..], ' ');
      var s := tokens[0] + [' '] + tail;
      assert s[0] == tokens[0][0];
      assert s[|s| - 1] == tail[|tail| - 1];
    }
  }

  predicate IsDigit(c: char) {
    '0' <= c <= '9'
  }

  predicate AllDigits(s: string) {
    forall i :: 0 <= i < |s| ==> IsDigit(s[i])
  }

  function DigitValue(c: char): nat
    requires IsDigit(c)
  {
    c as int - '0' as int
  }

  function DigitChar(d: nat): (c: char)
    requires d < 10
    ensures IsDigit(c) && DigitValue(c) == d
  {
    (d + '0' as int) as char
  }

  /** The value of a string of decimal digits; leading zeros allowed. */
  function Value(ds: string): nat
    requires AllDigits(ds)
  {
    if ds == [] then 0 else Value(ds[..|ds| - 1]) * 10 + DigitValue(ds[|ds| - 1])
  }

  /** `str(n)` for a natural number: its decimal digits. */
  function Decimal(n: nat): (r: string)
    ensures r != [] && AllDigits(r)
  {
    if n < 10 then [DigitChar(n)] else Decimal(n / 10) + [DigitChar(n % 10)]
  }

  lemma {:induction false} ValueOfDecimal(n: nat)
    ensures Value(Decimal(n)) == n
  {
    var d := Decimal(n);
    if n < 10 {
      assert d[..|d| - 1] == [];
    } else {
      assert d[..|d| - 1] == Decimal(n / 10);
      ValueOfDecimal(n / 10);
    }
  }

  /** `str(i)` for an integer: a minus sign before the digits of a negative
      number. */
  function IntToString(i: int): (r: string)
    ensures i >= 0 ==> r != [] && AllDigits(r)
    ensures i < 0 ==> |r| > 1 && r[0] == '-' && AllDigits(r[1..])
  {
    if i < 0 then "-" + Decimal(-i) else Decimal(i)
  }

  /** `int(t)` on a `str`: surrounding whitespace, an optional sign and one
      or more decimal digits; `None` where Python raises ValueError. */
  function ParseInt(t: string): Option<int>
  {
    var u := Strip(t);
    if |u| > 1 && (u[0] == '+' || u[0] == '-') && AllDigits(u[1..]) then
      Some(if u[0] == '-' then -(Value(u[1..]) as int) else Value(u[1..]))
    else if u != [] && AllDigits(u) then
      Some(Value(u))
    else
      None
  }

  /** `int` of a stripped numeral: the value of its digits, negated after
      a minus sign. */
  lemma ParseIntNumeral(s: string, sign: string, d: string)
    requires sign == "" || sign == "-"
    requires s == sign + d && d != [] && AllDigits(d) && Strip(s) == s
    ensures ParseInt(s) == Some(if sign == "-" then -(Value(d) as int) else Value(d))
  {
    if sign == "-" {
      assert s[1..] == d;
    } else {
      assert s == d;
    }
  }

  lemma ParseIntDecimal(n: nat)
    ensures ParseInt(Decimal(n)) == Some(n)
  {
    var d := Decimal(n);
    assert IsDigit(d[0]) && IsDigit(d[|d| - 1]);
    StripStripped(d);
    assert "" + d == d;
    ParseIntNumeral(d, "", d);
    ValueOfDecimal(n);
  }

  lemma ParseIntNegative(n: nat)
    requires n > 0
    ensures ParseInt("-" + Decimal(n)) == Some(-(n as int))
  {
    var d := Decimal(n);
    var s := "-" + d;
    assert s[|s| - 1] == d[|d| - 1];
    assert s[0] == '-' && !IsSpace('-');
    StripStripped(s);
    ParseIntNumeral(s, "-", d);
    ValueOfDecimal(n);
  }

  /** `int(str(i)) == i`. */
  lemma ParseIntToString(i: int)
    ensures ParseInt(IntToString(i)) == Some(i)
  {
    if i < 0 {
      var n: nat := -i;
      assert IntToString(i) == "-" + Decimal(n);
      ParseIntNegative(n);
    } else {
      assert IntToString(i) == Decimal(i);
      ParseIntDecimal(i);
    }
  }
}
