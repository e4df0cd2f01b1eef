/** The handful of Python string operations the binding engine uses to route
    a binding: `str.startswith`, `s.split(".")[-1]`, `int(s)` and the
    f-string `f"{n}"` that builds cache keys. */
module PyText {
  import opened Wrappers

  /** `s.startswith(prefix)`. */
  predicate StartsWith(s: string, prefix: string) {
    prefix <= s
  }

  /** `s.split(sep)[-1]`: the text after the last `sep`, or all of `s` when
      `sep` does not occur. */
  function LastField(s: string, sep: char): (r: string)
    ensures sep !in r
    ensures |r| <= |s| && r == s[|s| - |r|..]
    ensures |r| < |s| ==> s[|s| - |r| - 1] == sep
    decreases |s|
  {
    if |s| == 0 then ""
    else if s[|s| - 1] == sep then ""
    else
      var t := s[..|s| - 1];
      var r0 := LastField(t, sep);
      assert t[|t| - |r0|..] == s[|s| - 1 - |r0|..|s| - 1];
      assert s[|s| - 1 - |r0|..] == s[|s| - 1 - |r0|..|s| - 1] + [s[|s| - 1]];
      r0 + [s[|s| - 1]]
  }

  predicate IsDigit(c: char) { '0' <= c <= '9' }

  predicate AllDigits(s: string) { forall i :: 0 <= i < |s| ==> IsDigit(s[i]) }

  /** Value of a string of ASCII decimal digits, most significant first. */
  function DigitsValue(s: string): (n: nat)
    requires AllDigits(s)
    decreases |s|
  {
    if |s| == 0 then 0
    else DigitsValue(s[..|s| - 1]) * 10 + (s[|s| - 1] as int - '0' as int)
  }

  /** `int(s)` on text: an optional sign followed by one or more ASCII digits
      gives the number, anything else raises (`None` here). */
  function ParseInt(s: string): (r: Option<int>)
    ensures r.Some? ==> |s| > 0
    ensures |s| > 0 && AllDigits(s) ==> r == Some(DigitsValue(s))
  {
    if |s| > 0 && (s[0] == '-' || s[0] == '+') then
      var body := s[1..];
      if |body| > 0 && AllDigits(body) then
        Some(if s[0] == '-' then -(DigitsValue(body) as int) else DigitsValue(body) as int)
      else None
    else if |s| > 0 && AllDigits(s) then Some(DigitsValue(s))
    else None
  }

  /** Exactly when `int()` accepts a text, and what it gives: ASCII digits
      with an optional leading `+` or `-`, the digits' value negated after
      `-`; everything else raises. */
  lemma ParseIntAccepts(s: string)
    ensures ParseInt(s).Some? <==>
              (|s| > 0 && AllDigits(s)) || (|s| > 1 && (s[0] == '-' || s[0] == '+') && AllDigits(s[1..]))
    ensures |s| > 1 && s[0] == '+' && AllDigits(s[1..]) ==> ParseInt(s) == Some(DigitsValue(s[1..]))
    ensures |s| > 1 && s[0] == '-' && AllDigits(s[1..]) ==> ParseInt(s) == Some(-(DigitsValue(s[1..]) as int))
  {
  }

  function DigitChar(d: nat): (c: char)
    requires d < 10
    ensures IsDigit(c) && c as int - '0' as int == d
  {
    ('0' as int + d) as char
  }

  /** Decimal rendering of a natural number, no leading zeros. */
  function ShowNat(n: nat): (s: string)
    ensures |s| > 0 && AllDigits(s)
    decreases n
  {
    if n < 10 then [DigitChar(n)]
    else ShowNat(n / 10) + [DigitChar(n % 10)]
  }

  /** `f"{n}"` / `str(n)` for an `int`. */
  function ShowInt(n: int): (s: string)
    ensures |s| > 0
  {
    if n < 0 then "-" + ShowNat(-n) else ShowNat(n)
  }

  lemma {:induction false} ShowNatValue(n: nat)
    ensures DigitsValue(ShowNat(n)) == n
    decreases n
  {
    if n >= 10 {
      var s := ShowNat(n);
      assert s[..|s| - 1] == ShowNat(n / 10);
      ShowNatValue(n / 10);
    }
  }

  /** `int(str(n)) == n`: rendering a number and parsing it back is the
      identity, so `ShowInt` is injective and keys built from it are
      distinct for distinct numbers. */
  lemma ParseShowInt(n: int)
    ensures ParseInt(ShowInt(n)) == Some(n)
  {
    if n < 0 {
      ShowNatValue(-n);
      assert ShowInt(n)[1..] == ShowNat(-n);
    } else {
      ShowNatValue(n);
    }
  }

  lemma ShowIntInjective(m: int, n: int)
    ensures ShowInt(m) == ShowInt(n) <==> m == n
  {
    if ShowInt(m) == ShowInt(n) {
      ParseShowInt(m);
      ParseShowInt(n);
    }
  }

  /** `(prefix + t).split(sep)[-1] == t` when `t` holds no `sep` and the
      prefix ends with `sep`. */
  lemma {:induction false} LastFieldAfterSep(prefix: string, t: string, sep: char)
    requires |prefix| > 0 && prefix[|prefix| - 1] == sep
    requires sep !in t
    ensures LastField(prefix + t, sep) == t
    decreases |t|
  {
    var s := prefix + t;
    if |t| == 0 {
      assert s[|s| - 1] == sep;
    } else {
      assert s[..|s| - 1] == prefix + t[..|t| - 1];
      LastFieldAfterSep(prefix, t[..|t| - 1], sep);
      assert t == t[..|t| - 1] + [t[|t| - 1]];
    }
  }

  lemma ShowIntHasNoDot(n: int)
    ensures '.' !in ShowInt(n)
  {
    var s := ShowInt(n);
    if n < 0 {
      assert forall i :: 1 <= i < |s| ==> s[i] == ShowNat(-n)[i - 1];
    }
  }
}
