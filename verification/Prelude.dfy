/** Vocabulary shared by every module: results, the 32-bit integer of the Go source,
    string order, and trimming. */
module Prelude {

  datatype Option<+T> = None | Some(value: T)

  datatype Result<+T, +E> = Ok(value: T) | Err(error: E)

  const MIN_INT32: int := -0x8000_0000
  const MAX_INT32: int := 0x7fff_ffff
  const TWO_TO_32: int := 0x1_0000_0000

  type int32 = x: int | MIN_INT32 <= x <= MAX_INT32

  /** Go's int32 arithmetic: the value of `x` reduced to the signed 32-bit range. */
  function Wrap32(x: int): (r: int32)
    ensures MIN_INT32 <= x <= MAX_INT32 ==> r == x
  {
    (x - MIN_INT32) % TWO_TO_32 + MIN_INT32
  }

  /** Within one turn of the 32-bit circle no two positions share a value. */
  lemma {:induction false} Wrap32Injective(x: int, y: int)
    requires x < y < x + TWO_TO_32
    ensures Wrap32(x) != Wrap32(y)
  {
  }

  /** Incrementing commutes with wrapping. */
  lemma {:induction false} WrapNext(x: int)
    ensures Wrap32(Wrap32(x) + 1) == Wrap32(x + 1)
  {
  }

  // ---------------------------------------------------------------- string order

  /** Go compares strings lexicographically. */
  predicate StrLeq(a: string, b: string) {
    |a| == 0 || (|b| > 0 && (a[0] < b[0] || (a[0] == b[0] && StrLeq(a[1..], b[1..]))))
  }

  lemma {:induction false} StrLeqTotal(a: string, b: string)
    ensures StrLeq(a, b) || StrLeq(b, a)
    ensures StrLeq(a, b) && StrLeq(b, a) ==> a == b
  {
    if |a| > 0 && |b| > 0 {
      StrLeqTotal(a[1..], b[1..]);
      assert a == [a[0]] + a[1..] && b == [b[0]] + b[1..];
    }
  }

  lemma {:induction false} StrLeqTransitive(a: string, b: string, c: string)
    requires StrLeq(a, b) && StrLeq(b, c)
    ensures StrLeq(a, c)
  {
    if |a| > 0 && a[0] == b[0] == c[0] {
      StrLeqTransitive(a[1..], b[1..], c[1..]);
    }
  }

  /** What that means: `a` is a prefix of `b`, or smaller at the first character that differs. */
  lemma {:induction false} StrLeqIff(a: string, b: string)
    ensures StrLeq(a, b) <==> a <= b || exists k :: 0 <= k < |a| && k < |b| && a[..k] == b[..k] && a[k] < b[k]
  {
    if |a| > 0 && |b| > 0 && a[0] == b[0] {
      var x, y := a[1..], b[1..];
      StrLeqIff(x, y);
      assert a == [a[0]] + x && b == [b[0]] + y;
      if k :| 0 <= k < |x| && k < |y| && x[..k] == y[..k] && x[k] < y[k] {
        assert a[..k + 1] == [a[0]] + x[..k] && b[..k + 1] == [b[0]] + y[..k];
      }
      if k :| 0 <= k < |a| && k < |b| && a[..k] == b[..k] && a[k] < b[k] {
        assert k > 0;
        assert x[..k - 1] == a[..k][1..] && y[..k - 1] == b[..k][1..];
      }
    } else if |a| > 0 && |b| > 0 {
      assert a[..0] == b[..0];
    }
  }

  // ---------------------------------------------------------------- trimming

  /** unicode.IsSpace. */
  predicate IsSpace(c: char) {
    || '\t' <= c <= '\r' || c == ' ' || c == '\U{0085}' || c == '\U{00A0}' || c == '\U{1680}'
    || '\U{2000}' <= c <= '\U{200A}' || c == '\U{2028}' || c == '\U{2029}' || c == '\U{202F}'
    || c == '\U{205F}' || c == '\U{3000}'
  }

  /** strings.TrimSpace: spaces are taken off the front, then off the back. */
  function TrimSpace(s: string): string
    decreases |s|, 2
  {
    TrimFront(s)
  }

  function TrimFront(s: string): string
    decreases |s|, 1
  {
    if |s| > 0 && IsSpace(s[0]) then TrimSpace(s[1..]) else TrimBack(s)
  }

  function TrimBack(s: string): string
    decreases |s|, 0
  {
    if |s| > 0 && IsSpace(s[|s| - 1]) then TrimFront(s[..|s| - 1]) else s
  }

  /** What is trimmed neither starts nor ends with a space. */
  lemma {:induction false} TrimEnds(s: string)
    ensures var t := TrimSpace(s); t == "" || (!IsSpace(t[0]) && !IsSpace(t[|t| - 1]))
    decreases |s|
  {
    assert TrimSpace(s) == TrimFront(s);
    if |s| > 0 && IsSpace(s[0]) {
      TrimEnds(s[1..]);
    } else if |s| > 0 && IsSpace(s[|s| - 1]) {
      assert TrimFront(s) == TrimBack(s) == TrimFront(s[..|s| - 1]);
      TrimEnds(s[..|s| - 1]);
      assert TrimSpace(s[..|s| - 1]) == TrimFront(s[..|s| - 1]);
    } else {
      assert TrimFront(s) == TrimBack(s) == s;
    }
  }

  /** What is trimmed off is spaces. */
  lemma {:induction false} TrimCuts(s: string) returns (i: nat, j: nat)
    ensures i <= j <= |s| && TrimSpace(s) == s[i..j]
    ensures forall k | 0 <= k < |s| && !(i <= k < j) :: IsSpace(s[k])
    decreases |s|
  {
    assert TrimSpace(s) == TrimFront(s);
    if |s| > 0 && IsSpace(s[0]) {
      i, j := TrimCuts(s[1..]);
      i, j := i + 1, j + 1;
    } else if |s| > 0 && IsSpace(s[|s| - 1]) {
      assert TrimFront(s) == TrimBack(s) == TrimFront(s[..|s| - 1]);
      i, j := TrimCuts(s[..|s| - 1]);
      assert TrimSpace(s[..|s| - 1]) == TrimFront(s[..|s| - 1]);
    } else {
      i, j := 0, |s|;
      assert TrimFront(s) == TrimBack(s) == s;
    }
  }

  /** Blanks, tabs and line ends are spaces, and printable ASCII characters are not. */
  lemma {:induction false} AsciiSpaces(c: char)
    requires c <= '~'
    ensures IsSpace(c) <==> c in "\t\n\r " || c == '\U{000B}' || c == '\U{000C}'
  {
  }

  lemma {:induction false} TrimFixed(s: string)
    requires s == "" || (!IsSpace(s[0]) && !IsSpace(s[|s| - 1]))
    ensures TrimSpace(s) == s
  {
    assert TrimSpace(s) == TrimFront(s) == TrimBack(s);
  }

  // ---------------------------------------------------------------- lower case

  /** unicode.ToLower, exact wherever the result is ASCII: besides the ASCII capitals only the
      dotted capital I and the Kelvin sign have an ASCII lower case. Other characters stand
      for their own lower case, which is not ASCII either. */
  function Lower(c: char): char {
    if 'A' <= c <= 'Z' then c - 'A' + 'a'
    else if c == '\U{0130}' then 'i'
    else if c == '\U{212A}' then 'k'
    else c
  }

  function ToLower(s: string): (r: string)
    ensures |r| == |s|
  {
    if |s| == 0 then "" else [Lower(s[0])] + ToLower(s[1..])
  }

  lemma {:induction false} ToLowerAt(s: string, i: nat)
    requires i < |s|
    ensures ToLower(s)[i] == Lower(s[i])
  {
    if i > 0 {
      ToLowerAt(s[1..], i - 1);
    }
  }

  /** On ASCII it changes capitals to small letters and nothing else. */
  lemma {:induction false} AsciiLower(c: char)
    requires c <= '~'
    ensures 'A' <= c <= 'Z' ==> Lower(c) as int == c as int + 32
    ensures !('A' <= c <= 'Z') ==> Lower(c) == c
  {
  }

  // ---------------------------------------------------------------- numerals and joining

  function Digit(d: nat): char
    requires d < 10
  {
    "0123456789"[d]
  }

  /** Decimal numeral, as `%d` prints it. */
  function Itoa(n: int): string
    decreases n < 0, if n < 0 then -n else n
  {
    if n < 0 then "-" + Itoa(-n)
    else if n < 10 then [Digit(n)]
    else Itoa(n / 10) + [Digit(n % 10)]
  }

  lemma {:induction false} ItoaDigits(n: nat)
    ensures |Itoa(n)| > 0 && forall c | c in Itoa(n) :: '0' <= c <= '9'
  {
    if n >= 10 {
      ItoaDigits(n / 10);
    }
  }

  /** Reads a numeral without sign, from the left. */
  function Value(s: string): int {
    if |s| == 0 then 0 else Value(s[..|s| - 1]) * 10 + (s[|s| - 1] as int - '0' as int)
  }

  lemma {:induction false} ItoaReads(n: nat)
    ensures Value(Itoa(n)) == n
  {
    if n >= 10 {
      ItoaReads(n / 10);
      assert Itoa(n)[..|Itoa(n)| - 1] == Itoa(n / 10);
    } else {
      assert Itoa(n)[..0] == "";
    }
  }

  lemma {:induction false} ItoaSign(n: int)
    requires n < 0
    ensures Itoa(n) == "-" + Itoa(-n)
  {
  }

  lemma {:induction false} ItoaInjective(m: nat, n: nat)
    requires Itoa(m) == Itoa(n)
    ensures m == n
  {
    ItoaDigits(m / 10);
    ItoaDigits(n / 10);
    if m >= 10 && n >= 10 {
      var a, b := Itoa(m / 10), Itoa(n / 10);
      assert Itoa(m)[..|Itoa(m)| - 1] == a && Itoa(n)[..|Itoa(n)| - 1] == b;
      assert Itoa(m)[|a|] == Digit(m % 10) && Itoa(n)[|b|] == Digit(n % 10);
      ItoaInjective(m / 10, n / 10);
    }
  }

  lemma {:induction false} ItoaDistinct(m: int, n: int)
    ensures Itoa(m) == Itoa(n) <==> m == n
  {
    var a, b := if m < 0 then -m else m, if n < 0 then -n else n;
    ItoaDigits(a);
    ItoaDigits(b);
    assert Itoa(a)[0] in Itoa(a) && Itoa(b)[0] in Itoa(b);
    if Itoa(m) == Itoa(n) {
      if m < 0 && n < 0 {
        assert Itoa(m)[1..] == Itoa(a) && Itoa(n)[1..] == Itoa(b);
      }
      ItoaInjective(a, b);
    }
  }

  /** strings.Join. */
  function Join(parts: seq<string>, sep: string): string {
    if |parts| == 0 then ""
    else if |parts| == 1 then parts[0]
    else parts[0] + sep + Join(parts[1..], sep)
  }

  /** A single part stands alone, and separators stand between parts only. */
  lemma {:induction false} JoinAppend(a: seq<string>, b: seq<string>, sep: string)
    requires |a| > 0 && |b| > 0
    ensures Join(a + b, sep) == Join(a, sep) + sep + Join(b, sep)
    ensures |a| == 1 ==> Join(a, sep) == a[0]
  {
    if |a| > 1 {
      JoinAppend(a[1..], b, sep);
      assert (a + b)[1..] == a[1..] + b;
    } else {
      assert (a + b)[1..] == b;
    }
  }
}
