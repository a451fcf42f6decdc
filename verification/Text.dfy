/** The string helpers of Go's standard library that the modelled code relies on: trimming, splitting, decimals. */
module Text {
  import opened Options

  // ---------------------------------------------------------------- strings.TrimSpace

  /** unicode.IsSpace, by code point. */
  predicate IsSpace(c: char) {
    var n := c as int;
    || 9 <= n <= 13 || n == 32 || n == 133 || n == 160 || n == 5760 || 8192 <= n <= 8202
    || n == 8232 || n == 8233 || n == 8239 || n == 8287 || n == 12288
  }

  /** The same by their escapes: the Latin-1 spaces and the separators of category Z. */
  lemma SpacesByName(c: char)
    ensures IsSpace(c) <==>
            || c in "\t\n\r \U{000B}\U{000C}\U{0085}\U{00A0}\U{1680}\U{2028}\U{2029}\U{202F}\U{205F}\U{3000}"
            || '\U{2000}' <= c <= '\U{200A}'
  {
  }

  function TrimLeft(s: string): (r: string)
    ensures r == "" || !IsSpace(r[0])
    ensures s != "" && !IsSpace(s[|s| - 1]) ==> r != "" && r[|r| - 1] == s[|s| - 1]
  {
    if s == "" || !IsSpace(s[0]) then s else TrimLeft(s[1..])
  }

  function TrimRight(s: string): (r: string)
    ensures r == "" || !IsSpace(r[|r| - 1])
    ensures s != "" && !IsSpace(s[0]) ==> r != "" && r[0] == s[0]
  {
    if s == "" || !IsSpace(s[|s| - 1]) then s else TrimRight(s[..|s| - 1])
  }

  function TrimSpace(s: string): (r: string)
    ensures r == "" || (!IsSpace(r[0]) && !IsSpace(r[|r| - 1]))
  {
    TrimRight(TrimLeft(s))
  }

  lemma TrimSpaceIdempotent(s: string)
    ensures TrimSpace(TrimSpace(s)) == TrimSpace(s)
  {
    var t := TrimSpace(s);
    assert TrimLeft(t) == t;
    assert TrimRight(t) == t;
  }

  predicate AllSpaces(s: string) {
    forall i | 0 <= i < |s| :: IsSpace(s[i])
  }

  /** Nothing to trim. */
  predicate Trimmed(t: string) {
    t == "" || (!IsSpace(t[0]) && !IsSpace(t[|t| - 1]))
  }

  lemma {:induction false} TrimLeftDrops(a: string, t: string)
    requires AllSpaces(a) && (t == "" || !IsSpace(t[0]))
    ensures TrimLeft(a + t) == t
  {
    var s := a + t;
    if a == "" {
      assert s == t;
    } else {
      assert s[0] == a[0] && IsSpace(a[0]);
      assert s[1..] == a[1..] + t;
      TrimLeftDrops(a[1..], t);
      assert TrimLeft(s) == TrimLeft(s[1..]);
    }
  }

  lemma {:induction false} TrimRightDrops(t: string, b: string)
    requires AllSpaces(b) && (t == "" || !IsSpace(t[|t| - 1]))
    ensures TrimRight(t + b) == t
  {
    var s := t + b;
    if b == "" {
      assert s == t;
    } else {
      assert s[|s| - 1] == b[|b| - 1] && IsSpace(b[|b| - 1]);
      assert s[..|s| - 1] == t + b[..|b| - 1];
      TrimRightDrops(t, b[..|b| - 1]);
      assert TrimRight(s) == TrimRight(s[..|s| - 1]);
    }
  }

  /** Spaces around a text are dropped. */
  lemma TrimSpaceDrops(a: string, t: string, b: string)
    requires AllSpaces(a) && AllSpaces(b) && Trimmed(t)
    ensures TrimSpace(a + t + b) == t
  {
    if t == "" {
      var s := a + t + b;
      assert AllSpaces(s) && s + "" == s;
      TrimLeftDrops(s, "");
    } else {
      assert a + t + b == a + (t + b);
      TrimLeftDrops(a, t + b);
      TrimRightDrops(t, b);
    }
  }

  lemma {:induction false} TrimLeftKeeps(s: string) returns (a: string)
    ensures AllSpaces(a) && s == a + TrimLeft(s)
  {
    if s == "" || !IsSpace(s[0]) {
      a := "";
    } else {
      var rest := TrimLeftKeeps(s[1..]);
      a := [s[0]] + rest;
    }
  }

  lemma {:induction false} TrimRightKeeps(s: string) returns (b: string)
    ensures AllSpaces(b) && s == TrimRight(s) + b
  {
    if s == "" || !IsSpace(s[|s| - 1]) {
      b := "";
    } else {
      var rest := TrimRightKeeps(s[..|s| - 1]);
      b := rest + [s[|s| - 1]];
    }
  }

  /** And nothing else is. */
  lemma TrimSpaceKeeps(s: string) returns (a: string, b: string)
    ensures AllSpaces(a) && AllSpaces(b) && s == a + TrimSpace(s) + b && Trimmed(TrimSpace(s))
  {
    a := TrimLeftKeeps(s);
    b := TrimRightKeeps(TrimLeft(s));
  }

  // ---------------------------------------------------------------- strings.Split on one character

  function Split(s: string, sep: char): (parts: seq<string>)
    ensures |parts| >= 1
  {
    if s == "" then [""]
    else if s[0] == sep then [""] + Split(s[1..], sep)
    else
      var rest := Split(s[1..], sep);
      [[s[0]] + rest[0]] + rest[1..]
  }

  lemma {:induction false} SplitNone(s: string, sep: char)
    requires sep !in s
    ensures Split(s, sep) == [s]
  {
    if s != "" {
      SplitNone(s[1..], sep);
      assert [s[0]] + s[1..] == s;
    }
  }

  lemma {:induction false} SplitAtFirst(a: string, sep: char, rest: string)
    requires sep !in a
    ensures Split(a + [sep] + rest, sep) == [a] + Split(rest, sep)
  {
    var s := a + [sep] + rest;
    if a == "" {
      assert s[1..] == rest;
    } else {
      assert s[1..] == a[1..] + [sep] + rest;
      SplitAtFirst(a[1..], sep, rest);
      assert [a[0]] + a[1..] == a;
    }
  }

  /** Two parts mean one separator between them. */
  lemma {:induction false} SplitTwoParts(s: string, sep: char)
    requires |Split(s, sep)| == 2
    ensures var p := Split(s, sep); s == p[0] + [sep] + p[1] && sep !in p[0] && sep !in p[1]
  {
    if s[0] == sep {
      SplitOnePart(s[1..], sep);
    } else {
      SplitTwoParts(s[1..], sep);
    }
  }

  lemma {:induction false} SplitOnePart(s: string, sep: char)
    requires |Split(s, sep)| == 1
    ensures Split(s, sep) == [s] && sep !in s
  {
    if s != "" {
      SplitOnePart(s[1..], sep);
      assert [s[0]] + s[1..] == s;
    }
  }

  // ---------------------------------------------------------------- decimal numbers

  const MAX_INT64 := 0x7FFF_FFFF_FFFF_FFFF

  predicate IsDigit(c: char) {
    '0' <= c <= '9'
  }

  predicate AllDigits(s: string) {
    forall i | 0 <= i < |s| :: IsDigit(s[i])
  }

  function DigitValue(c: char): nat
    requires IsDigit(c)
  {
    c as int - '0' as int
  }

  function DigitsValue(s: string): nat
    requires AllDigits(s)
  {
    if s == "" then 0 else 10 * DigitsValue(s[..|s| - 1]) + DigitValue(s[|s| - 1])
  }

  /** strconv.ParseInt(s, 10, 64), and strconv.Atoi where int has 64 bits: an optional sign, digits, in range. */
  function ParseInt(s: string): (r: Option<int>)
    ensures r.Some? ==> -MAX_INT64 - 1 <= r.value <= MAX_INT64
  {
    var signed := s != "" && (s[0] == '+' || s[0] == '-');
    var digits := if signed then s[1..] else s;
    if digits == "" || !AllDigits(digits) then None
    else
      var n: int := DigitsValue(digits);
      if signed && s[0] == '-' then (if n > MAX_INT64 + 1 then None else Some(-n))
      else if n > MAX_INT64 then None else Some(n)
  }

  function FormatNat(n: nat): (r: string)
    ensures r != "" && AllDigits(r)
    ensures DigitsValue(r) == n
  {
    var last := ('0' as int + n % 10) as char;
    if n < 10 then [last]
    else
      var front := FormatNat(n / 10);
      assert (front + [last])[..|front|] == front;
      front + [last]
  }

  /** The %d verb. */
  function FormatInt(n: int): string {
    if n < 0 then "-" + FormatNat(-n) else FormatNat(n)
  }

  /** No leading zeros. */
  lemma {:induction false} FormatIsShort(n: nat)
    ensures n > 0 ==> FormatNat(n)[0] != '0'
    ensures n == 0 ==> FormatNat(n) == "0"
  {
    if n >= 10 {
      FormatIsShort(n / 10);
    }
  }

  lemma ParseFormat(n: int)
    requires -0x8000_0000_0000_0000 <= n <= 0x7FFF_FFFF_FFFF_FFFF
    ensures ParseInt(FormatInt(n)) == Some(n)
  {
    if n < 0 {
      assert FormatInt(n)[1..] == FormatNat(-n);
    } else {
      assert IsDigit(FormatInt(n)[0]);
    }
  }

  /** Nothing outside 64 bits is parsed. */
  lemma ParsedIsInRange(s: string)
    ensures ParseInt(s).Some? ==> -0x8000_0000_0000_0000 <= ParseInt(s).value <= 0x7FFF_FFFF_FFFF_FFFF
  {
  }

  /** A parsed number holds digits and at most a leading sign. */
  lemma ParsedCharacters(s: string)
    requires ParseInt(s).Some?
    ensures forall i | 0 <= i < |s| :: IsDigit(s[i]) || (i == 0 && (s[i] == '+' || s[i] == '-'))
  {
    if s[0] == '+' || s[0] == '-' {
      forall i | 1 <= i < |s| ensures IsDigit(s[i]) {
        assert s[i] == s[1..][i - 1];
      }
    }
  }
}
