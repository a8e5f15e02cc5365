/** The handful of Python `str` operations the scripts rely on: `strip`, `lower`,
    `replace`, `rfind`, `count`, `ljust`, and the decimal rendering of integers
    used by f-strings and `strftime`. */
module PyStr {

  /** `c.isspace()` in Python: the Unicode whitespace characters. */
  predicate IsSpace(c: char) {
    var k := c as int;
    || 9 <= k <= 13 || 28 <= k <= 32 || k == 0x85 || k == 0xA0 || k == 0x1680
    || 0x2000 <= k <= 0x200A || k == 0x2028 || k == 0x2029 || k == 0x202F
    || k == 0x205F || k == 0x3000
  }

  /** Drops leading whitespace: the result is a suffix of `s`, everything cut off
      is whitespace, and the result does not start with whitespace. */
  function TrimStart(s: string): (r: string)
    ensures |r| <= |s| && r == s[|s| - |r|..]
    ensures forall k :: 0 <= k < |s| - |r| ==> IsSpace(s[k])
    ensures r == [] || !IsSpace(r[0])
  {
    if |s| > 0 && IsSpace(s[0]) then TrimStart(s[1..]) else s
  }

  /** Drops trailing whitespace: the result is a prefix of `s`, everything cut off
      is whitespace, and the result does not end with whitespace. */
  function TrimEnd(s: string): (r: string)
    ensures |r| <= |s| && r == s[..|r|]
    ensures forall k :: |r| <= k < |s| ==> IsSpace(s[k])
    ensures r == [] || !IsSpace(r[|r| - 1])
  {
    if |s| > 0 && IsSpace(s[|s| - 1]) then TrimEnd(s[..|s| - 1]) else s
  }

  /** `s.strip()`: neither end of the result is whitespace. */
  function Strip(s: string): (r: string)
    ensures |r| <= |s|
    ensures r == [] || (!IsSpace(r[0]) && !IsSpace(r[|r| - 1]))
  {
    var t := TrimStart(s);
    var r := TrimEnd(t);
    assert r == [] || r[0] == t[0];
    r
  }

  /** The string `s` has no whitespace at either end. */
  predicate Stripped(s: string) {
    s == [] || (!IsSpace(s[0]) && !IsSpace(s[|s| - 1]))
  }

  /** Stripping a string that has no whitespace at either end changes nothing. */
  lemma StripOfStripped(s: string)
    requires Stripped(s)
    ensures Strip(s) == s
  {
    assert TrimStart(s) == s;
    assert TrimEnd(s) == s;
  }

  /** `strip` is idempotent. */
  lemma StripIdempotent(s: string)
    ensures Strip(Strip(s)) == Strip(s)
  {
    StripOfStripped(Strip(s));
  }

  /** A word padded with one space on each side strips to the word. */
  lemma StripPadded(t: string)
    requires t != [] && Stripped(t)
    ensures Strip(" " + t + " ") == t
  {
    var p := " " + t + " ";
    assert p[1..] == t + " ";
    assert TrimStart(p) == TrimStart(t + " ");
    assert (t + " ")[0] == t[0];
    assert TrimStart(t + " ") == t + " ";
    assert (t + " ")[..|t|] == t;
    assert TrimEnd(t + " ") == TrimEnd(t);
    StripOfStripped(t);
    assert TrimStart(t) == t;
  }

  /** Leading whitespace in front of a string that starts with something
      else is exactly what `TrimStart` drops. */
  lemma {:induction false} TrimStartSpaces(pre: string, t: string)
    requires forall k :: 0 <= k < |pre| ==> IsSpace(pre[k])
    requires t != [] && !IsSpace(t[0])
    ensures TrimStart(pre + t) == t
  {
    if pre != [] {
      assert (pre + t)[1..] == pre[1..] + t;
      TrimStartSpaces(pre[1..], t);
    } else {
      assert pre + t == t;
    }
  }

  /** Trailing whitespace after a string that ends in something else is
      exactly what `TrimEnd` drops. */
  lemma {:induction false} TrimEndSpaces(t: string, post: string)
    requires forall k :: 0 <= k < |post| ==> IsSpace(post[k])
    requires t != [] && !IsSpace(t[|t| - 1])
    ensures TrimEnd(t + post) == t
  {
    if post != [] {
      var post' := post[..|post| - 1];
      assert (t + post)[..|t + post| - 1] == t + post';
      TrimEndSpaces(t, post');
    } else {
      assert t + post == t;
    }
  }

  /** A string without whitespace at its ends, surrounded by whitespace,
      strips to itself. */
  lemma StripSurrounded(pre: string, t: string, post: string)
    requires forall k :: 0 <= k < |pre| ==> IsSpace(pre[k])
    requires forall k :: 0 <= k < |post| ==> IsSpace(post[k])
    requires t != [] && Stripped(t)
    ensures Strip(pre + t + post) == t
  {
    assert pre + t + post == pre + (t + post);
    assert (t + post)[0] == t[0];
    TrimStartSpaces(pre, t + post);
    TrimEndSpaces(t, post);
  }

  /** A string made only of whitespace strips to the empty string. */
  lemma {:induction false} StripAllSpace(s: string)
    requires forall k :: 0 <= k < |s| ==> IsSpace(s[k])
    ensures Strip(s) == ""
  {
    if |s| > 0 {
      StripAllSpace(s[1..]);
      assert TrimStart(s) == TrimStart(s[1..]);
    }
  }

  /** Python's `str.lower()` on one character; only the ASCII letters are mapped. */
  function LowerChar(c: char): char {
    if 'A' <= c <= 'Z' then (c as int + 32) as char else c
  }

  /** `s.lower()`, character by character. */
  function Lower(s: string): (r: string)
    ensures |r| == |s|
  {
    seq(|s|, i requires 0 <= i < |s| => LowerChar(s[i]))
  }

  /** `lower` is idempotent, and it never turns whitespace into non-whitespace or
      the other way round. */
  lemma LowerFacts(s: string)
    ensures Lower(Lower(s)) == Lower(s)
    ensures forall i :: 0 <= i < |s| ==> (IsSpace(Lower(s)[i]) <==> IsSpace(s[i]))
  {
  }

  /** Lowering a string without surrounding whitespace keeps it that way. */
  lemma LowerKeepsStripped(s: string)
    requires Stripped(s)
    ensures Stripped(Lower(s))
  {
    LowerFacts(s);
  }

  /** A string without ASCII capitals is its own lower case. */
  lemma LowerOfLower(s: string)
    requires forall k :: 0 <= k < |s| ==> !('A' <= s[k] <= 'Z')
    ensures Lower(s) == s
  {
  }

  /** Lowering and dropping leading whitespace commute. */
  lemma {:induction false} LowerTrimStart(s: string)
    ensures Lower(TrimStart(s)) == TrimStart(Lower(s))
  {
    if |s| > 0 && IsSpace(s[0]) {
      LowerFacts(s);
      assert Lower(s)[1..] == Lower(s[1..]);
      LowerTrimStart(s[1..]);
    }
  }

  /** Lowering and dropping trailing whitespace commute. */
  lemma {:induction false} LowerTrimEnd(s: string)
    ensures Lower(TrimEnd(s)) == TrimEnd(Lower(s))
  {
    if |s| > 0 && IsSpace(s[|s| - 1]) {
      LowerFacts(s);
      assert Lower(s)[..|s| - 1] == Lower(s[..|s| - 1]);
      LowerTrimEnd(s[..|s| - 1]);
    }
  }

  /** `s.strip().lower() == s.lower().strip()`. */
  lemma LowerStrip(s: string)
    ensures Lower(Strip(s)) == Strip(Lower(s))
  {
    LowerTrimStart(s);
    LowerTrimEnd(TrimStart(s));
  }

  /** `s.count(c)` for a single character. */
  function Count(s: string, c: char): nat {
    if s == [] then 0 else (if s[0] == c then 1 else 0) + Count(s[1..], c)
  }

  /** A character that occurs in `s` is counted at least once, and the other way round. */
  lemma {:induction false} CountPositive(s: string, c: char)
    ensures Count(s, c) > 0 <==> c in s
  {
    if s != [] {
      CountPositive(s[1..], c);
      assert c in s <==> s[0] == c || c in s[1..];
    }
  }

  /** `s.replace(c, by)` for a one-character pattern `c`. */
  function Replace(s: string, c: char, repl: string): string {
    if s == [] then [] else (if s[0] == c then repl else [s[0]]) + Replace(s[1..], c, repl)
  }

  lemma {:induction false} CountConcat(a: string, b: string, c: char)
    ensures Count(a + b, c) == Count(a, c) + Count(b, c)
  {
    if a == [] {
      assert a + b == b;
    } else {
      assert (a + b)[0] == a[0];
      assert (a + b)[1..] == a[1..] + b;
      CountConcat(a[1..], b, c);
    }
  }

  /** After `s.replace(c, by)`, a character `x` occurs once for each `x` of `s`
      other than `c`, plus `Count(repl, x)` times per replaced `c`. */
  lemma {:induction false} ReplaceCount(s: string, c: char, repl: string, x: char)
    ensures Count(Replace(s, c, repl), x)
         == (if x == c then 0 else Count(s, x)) + Count(s, c) * Count(repl, x)
  {
    if s != [] {
      var head: string := if s[0] == c then repl else [s[0]];
      var n, m := Count(s[1..], c), Count(repl, x);
      ReplaceCount(s[1..], c, repl, x);
      CountConcat(head, Replace(s[1..], c, repl), x);
      assert Count(s, x) == (if s[0] == x then 1 else 0) + Count(s[1..], x);
      if s[0] == c {
        assert Count(s, c) == n + 1 && Count(head, x) == m;
        MulSucc(n, m);
      } else {
        assert Count(s, c) == n && Count(head, x) == if s[0] == x then 1 else 0;
      }
    }
  }

  lemma MulSucc(n: nat, m: nat)
    ensures (n + 1) * m == n * m + m
  {
  }

  /** `replace` works piece by piece: it commutes with concatenation. */
  lemma {:induction false} ReplaceConcat(a: string, b: string, c: char, repl: string)
    ensures Replace(a + b, c, repl) == Replace(a, c, repl) + Replace(b, c, repl)
  {
    if a == [] {
      assert a + b == b;
    } else {
      assert (a + b)[0] == a[0];
      assert (a + b)[1..] == a[1..] + b;
      ReplaceConcat(a[1..], b, c, repl);
    }
  }

  /** Removing a character shortens the string by its number of
      occurrences. */
  lemma {:induction false} ReplaceLength(s: string, c: char)
    ensures |Replace(s, c, "")| == |s| - Count(s, c)
  {
    if s != [] {
      ReplaceLength(s[1..], c);
    }
  }

  /** Replacing a character that does not occur changes nothing. */
  lemma {:induction false} ReplaceAbsent(s: string, c: char, repl: string)
    requires c !in s
    ensures Replace(s, c, repl) == s
  {
    if s != [] {
      ReplaceAbsent(s[1..], c, repl);
    }
  }

  /** `s.rfind(c)`: the index of the last `c` in `s`, or -1 when there is none. */
  function RFind(s: string, c: char): (r: int)
    ensures -1 <= r < |s|
    ensures r >= 0 ==> s[r] == c
    ensures forall k :: r < k < |s| ==> s[k] != c
  {
    if s == [] then -1
    else if s[|s| - 1] == c then |s| - 1
    else RFind(s[..|s| - 1], c)
  }

  /** `c * n` for a one-character string `c`. */
  function Repeat(c: char, n: nat): (r: string)
    ensures |r| == n && forall k :: 0 <= k < n ==> r[k] == c
  {
    seq(n, _ => c)
  }

  /** `s.ljust(w)`: pads with spaces on the right up to width `w`; never truncates. */
  function LJust(s: string, w: nat): (r: string)
    ensures |r| == if |s| < w then w else |s|
    ensures r[..|s|] == s
    ensures forall k :: |s| <= k < |r| ==> r[k] == ' '
  {
    if |s| >= w then s else s + Repeat(' ', w - |s|)
  }

  // ---------------------------------------------------------------------------
  // Decimal digits: `str(n)` / f"{n}" for a natural number, and its inverse.

  predicate IsDigit(c: char) { '0' <= c <= '9' }

  predicate AllDigits(s: string) { forall k :: 0 <= k < |s| ==> IsDigit(s[k]) }

  function DigitChar(d: nat): char
    requires d < 10
  {
    ('0' as int + d) as char
  }

  /** The value of a string of decimal digits (leading zeros allowed). */
  function DigitsValue(s: string): nat
    requires AllDigits(s)
  {
    if s == [] then 0
    else DigitsValue(s[..|s| - 1]) * 10 + (s[|s| - 1] as int - '0' as int)
  }

  /** `str(n)`: the shortest decimal rendering of `n`. */
  function Decimal(n: nat): (r: string)
    ensures |r| >= 1 && AllDigits(r)
    ensures |r| > 1 ==> r[0] != '0'
  {
    if n < 10 then [DigitChar(n)] else Decimal(n / 10) + [DigitChar(n % 10)]
  }

  /** Reading back the rendering of `n` gives `n`. */
  lemma {:induction false} DecimalValue(n: nat)
    ensures DigitsValue(Decimal(n)) == n
  {
    if n >= 10 {
      DecimalValue(n / 10);
      var r := Decimal(n);
      assert r[..|r| - 1] == Decimal(n / 10);
    }
  }

  /** Different numbers render differently. */
  lemma DecimalInjective(m: nat, n: nat)
    requires Decimal(m) == Decimal(n)
    ensures m == n
  {
    DecimalValue(m);
    DecimalValue(n);
  }

  function Pow10(w: nat): (r: nat)
    ensures r >= 1
  {
    if w == 0 then 1 else 10 * Pow10(w - 1)
  }

  /** A number below 10^w needs at most `w` digits (zero still takes one). */
  lemma {:induction false} DecimalLength(n: nat, w: nat)
    requires 1 <= w && n < Pow10(w)
    ensures |Decimal(n)| <= w
  {
    if n >= 10 {
      assert w >= 2;
      assert n / 10 < Pow10(w - 1);
      DecimalLength(n / 10, w - 1);
      assert Decimal(n) == Decimal(n / 10) + [DigitChar(n % 10)];
    }
  }

  /** `f"{n:0{w}d}"`: `n` in decimal, left-padded with zeros to width `w`. */
  function ZeroPad(n: nat, w: nat): (r: string)
    ensures AllDigits(r)
    ensures |r| == if |Decimal(n)| < w then w else |Decimal(n)|
  {
    var d := Decimal(n);
    if |d| < w then Repeat('0', w - |d|) + d else d
  }

  /** Leading zeros do not change the value of a digit string. */
  lemma {:induction false} LeadingZerosValue(z: nat, s: string)
    requires AllDigits(s)
    ensures DigitsValue(Repeat('0', z) + s) == DigitsValue(s)
  {
    if s == [] {
      var t := Repeat('0', z) + s;
      assert t == Repeat('0', z);
      if z > 0 {
        assert t[..z - 1] == Repeat('0', z - 1) + [];
        LeadingZerosValue(z - 1, []);
        assert t[z - 1] == '0';
      }
    } else {
      var t := Repeat('0', z) + s;
      assert t[..|t| - 1] == Repeat('0', z) + s[..|s| - 1];
      LeadingZerosValue(z, s[..|s| - 1]);
    }
  }

  /** Reading back a zero-padded rendering gives the number. */
  lemma ZeroPadValue(n: nat, w: nat)
    ensures DigitsValue(ZeroPad(n, w)) == n
  {
    DecimalValue(n);
    var d := Decimal(n);
    if |d| < w {
      LeadingZerosValue(w - |d|, d);
    }
  }
}
