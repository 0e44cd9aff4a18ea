/** The string operations of Python that the client and server rely on:
    `str.strip()`, `str.startswith`, the decimal rendering of `f"{n}"`,
    and `sep.join(parts)` together with its inverse `s.split(sep)`. */
module Text {

  /** Python's `str.isspace()` for a single character: the ASCII whitespace and
      separator controls together with the Unicode space separators. */
  predicate IsSpace(c: char)
  {
    || c == ' ' || c == '\t' || c == '\n' || c == '\r'
    || c == '\U{000B}' || c == '\U{000C}'
    || ('\U{001C}' <= c <= '\U{001F}')
    || c == '\U{0085}' || c == '\U{00A0}' || c == '\U{1680}'
    || ('\U{2000}' <= c <= '\U{200A}')
    || c == '\U{2028}' || c == '\U{2029}' || c == '\U{202F}'
    || c == '\U{205F}' || c == '\U{3000}'
  }

  ghost predicate AllSpace(s: string)
  {
    forall i :: 0 <= i < |s| ==> IsSpace(s[i])
  }

  /** No whitespace at either end: the shape of every result of `Strip`. */
  ghost predicate Trimmed(s: string)
  {
    s == [] || (!IsSpace(s[0]) && !IsSpace(s[|s| - 1]))
  }

  /** `s.lstrip()`: the suffix left after dropping leading whitespace. */
  function TrimLeft(s: string): (r: string)
    ensures |r| <= |s| && r == s[|s| - |r|..]
    ensures forall i :: 0 <= i < |s| - |r| ==> IsSpace(s[i])
    ensures r == [] || !IsSpace(r[0])
    decreases |s|
  {
    if |s| > 0 && IsSpace(s[0]) then TrimLeft(s[1..]) else s
  }

  /** `s.rstrip()`: the prefix left after dropping trailing whitespace. */
  function TrimRight(s: string): (r: string)
    ensures |r| <= |s| && r == s[..|r|]
    ensures forall i :: |r| <= i < |s| ==> IsSpace(s[i])
    ensures r == [] || !IsSpace(r[|r| - 1])
    decreases |s|
  {
    if |s| > 0 && IsSpace(s[|s| - 1]) then TrimRight(s[..|s| - 1]) else s
  }

  /** `r` sits in `s` at offset `a` with only whitespace before and after it. */
  ghost predicate PaddedAt(s: string, r: string, a: nat)
  {
    && a + |r| <= |s| && r == s[a..a + |r|]
    && AllSpace(s[..a]) && AllSpace(s[a + |r|..])
  }

  /** A suffix of `s` after leading whitespace, cut before its own trailing
      whitespace, sits in `s` padded by whitespace on both sides. */
  lemma SuffixPrefixIsPadded(s: string, left: string, r: string)
    requires |left| <= |s| && left == s[|s| - |left|..]
    requires forall i :: 0 <= i < |s| - |left| ==> IsSpace(s[i])
    requires |r| <= |left| && r == left[..|r|]
    requires forall i :: |r| <= i < |left| ==> IsSpace(left[i])
    ensures PaddedAt(s, r, |s| - |left|)
  {
    var a := |s| - |left|;
    forall k | 0 <= k < a
      ensures IsSpace(s[..a][k])
    {
      assert s[..a][k] == s[k];
    }
    var tail := s[a + |r|..];
    forall k | 0 <= k < |tail|
      ensures IsSpace(tail[k])
    {
      assert tail[k] == left[|r| + k];
    }
  }

  /** `s.strip()`: the infix of `s` between its leading and trailing whitespace. */
  function Strip(s: string): (r: string)
    ensures Trimmed(r)
    ensures |r| <= |s|
    ensures r == [] <==> AllSpace(s)
    ensures Trimmed(s) ==> r == s
  {
    var r := TrimRight(TrimLeft(s));
    assert r == [] ==> AllSpace(s) by {
      if r == [] {
        assert TrimLeft(s) == [];
      }
    }
    r
  }

  /** `Strip(s)` is a slice of `s` with nothing but whitespace before and after
      it. Kept apart from the contract of `Strip` so that its callers are not
      burdened with the witness. */
  lemma StripIsInfix(s: string)
    ensures exists a: nat :: PaddedAt(s, Strip(s), a)
  {
    SuffixPrefixIsPadded(s, TrimLeft(s), Strip(s));
  }

  predicate StartsWith(s: string, prefix: string)
  {
    |prefix| <= |s| && s[..|prefix|] == prefix
  }

  predicate IsDigit(c: char)
  {
    '0' <= c <= '9'
  }

  function DigitChar(d: nat): (c: char)
    requires d < 10
    ensures IsDigit(c)
  {
    (48 + d) as char
  }

  function DigitValue(c: char): nat
    requires IsDigit(c)
  {
    c as int - 48
  }

  /** `str(n)` for a natural number: decimal digits without leading zeros. */
  function Decimal(n: nat): (r: string)
    ensures |r| >= 1
    ensures forall i :: 0 <= i < |r| ==> IsDigit(r[i])
    ensures |r| > 1 ==> r[0] != '0'
  {
    if n < 10 then [DigitChar(n)] else Decimal(n / 10) + [DigitChar(n % 10)]
  }

  /** `int(s)` for a string of decimal digits. */
  function ParseDecimal(s: string): nat
    requires forall i :: 0 <= i < |s| ==> IsDigit(s[i])
  {
    if s == [] then 0 else ParseDecimal(s[..|s| - 1]) * 10 + DigitValue(s[|s| - 1])
  }

  /** Reading back the decimal rendering of `n` gives `n`. */
  lemma {:induction false} ParseDecimalInvertsDecimal(n: nat)
    ensures ParseDecimal(Decimal(n)) == n
  {
    if n >= 10 {
      var s := Decimal(n);
      assert s[..|s| - 1] == Decimal(n / 10);
      ParseDecimalInvertsDecimal(n / 10);
    }
  }

  /** Distinct numbers render as distinct decimal strings. */
  lemma DecimalInjective(m: nat, n: nat)
    ensures Decimal(m) == Decimal(n) <==> m == n
  {
    if Decimal(m) == Decimal(n) {
      ParseDecimalInvertsDecimal(m);
      ParseDecimalInvertsDecimal(n);
    }
  }

  /** `sep.join(parts)` for a one-character separator. */
  function Join(parts: seq<string>, sep: char): string
  {
    if |parts| == 0 then ""
    else if |parts| == 1 then parts[0]
    else parts[0] + [sep] + Join(parts[1..], sep)
  }

  /** `s.split(sep)` for a one-character separator: never an empty list. */
  function Split(s: string, sep: char): (parts: seq<string>)
    ensures |parts| >= 1
  {
    SplitFrom(s, sep, "")
  }

  /** Splitting `s` when `field` has already been read as the start of the current part. */
  function SplitFrom(s: string, sep: char, field: string): (parts: seq<string>)
    ensures |parts| >= 1
    decreases |s|
  {
    if |s| == 0 then [field]
    else if s[0] == sep then [field] + SplitFrom(s[1..], sep, "")
    else SplitFrom(s[1..], sep, field + [s[0]])
  }

  lemma {:induction false} SplitFromSkipsPlain(p: string, rest: string, sep: char, field: string)
    requires sep !in p
    ensures SplitFrom(p + rest, sep, field) == SplitFrom(rest, sep, field + p)
    decreases |p|
  {
    if p != [] {
      assert (p + rest)[1..] == p[1..] + rest;
      assert (p + rest)[0] == p[0];
      SplitFromSkipsPlain(p[1..], rest, sep, field + [p[0]]);
      assert field + [p[0]] + p[1..] == field + p;
    } else {
      assert p + rest == rest;
      assert field + p == field;
    }
  }

  /** Splitting a joined list gives the list back, provided no part holds the separator. */
  lemma {:induction false} SplitJoin(parts: seq<string>, sep: char)
    requires |parts| >= 1
    requires forall i :: 0 <= i < |parts| ==> sep !in parts[i]
    ensures Split(Join(parts, sep), sep) == parts
  {
    if |parts| == 1 {
      SplitFromSkipsPlain(parts[0], "", sep, "");
      assert parts[0] + "" == parts[0];
      assert "" + parts[0] == parts[0];
    } else {
      var rest := Join(parts[1..], sep);
      assert Join(parts, sep) == parts[0] + ([sep] + rest);
      SplitFromSkipsPlain(parts[0], [sep] + rest, sep, "");
      assert "" + parts[0] == parts[0];
      assert ([sep] + rest)[1..] == rest;
      SplitJoin(parts[1..], sep);
      assert parts == [parts[0]] + parts[1..];
    }
  }

  /** A joined string holds a character other than the separator only if some part does. */
  lemma {:induction false} JoinAvoids(parts: seq<string>, sep: char, c: char)
    requires c != sep
    requires forall i :: 0 <= i < |parts| ==> c !in parts[i]
    ensures c !in Join(parts, sep)
  {
    if |parts| > 1 {
      JoinAvoids(parts[1..], sep, c);
    }
  }
}
