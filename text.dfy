/**
 * String helpers shared by the request models, the name searches and the clock
 * displays: .NET trimming, letter-case folding and decimal rendering.
 */
module Text {

  /** The characters .NET's `char.IsWhiteSpace` accepts, which `string.Trim()` removes. */
  predicate IsWhiteSpace(c: char)
  {
    c == ' ' || ('\t' <= c <= '\r') || c == '\U{85}' || c == '\U{A0}' || c == '\U{1680}'
    || ('\U{2000}' <= c <= '\U{200A}') || c == '\U{2028}' || c == '\U{2029}'
    || c == '\U{202F}' || c == '\U{205F}' || c == '\U{3000}'
  }

  predicate AllWhiteSpace(s: string)
  {
    forall i :: 0 <= i < |s| ==> IsWhiteSpace(s[i])
  }

  /** Drops the leading white space. */
  function TrimStart(s: string): (r: string)
    ensures |r| <= |s| && r == s[|s| - |r|..]
    ensures AllWhiteSpace(s[..|s| - |r|])
    ensures r == [] || !IsWhiteSpace(r[0])
    decreases |s|
  {
    if |s| > 0 && IsWhiteSpace(s[0]) then
      var r := TrimStart(s[1..]);
      assert s[1..][|s| - 1 - |r|..] == s[|s| - |r|..];
      assert s[..|s| - |r|] == [s[0]] + s[1..][..|s| - 1 - |r|];
      r
    else s
  }

  /** Drops the trailing white space. */
  function TrimEnd(s: string): (r: string)
    ensures |r| <= |s| && r == s[..|r|]
    ensures AllWhiteSpace(s[|r|..])
    ensures r == [] || !IsWhiteSpace(r[|r| - 1])
    decreases |s|
  {
    if |s| > 0 && IsWhiteSpace(s[|s| - 1]) then TrimEnd(s[..|s| - 1]) else s
  }

  /** `string.Trim()`: both ends. */
  function Trim(s: string): string
  {
    TrimEnd(TrimStart(s))
  }

  lemma TrimEndKeepsHead(s: string)
    requires s != [] && !IsWhiteSpace(s[0])
    ensures TrimEnd(s) != [] && TrimEnd(s)[0] == s[0]
  {
  }

  /** A trimmed string has no white space at either end, and only all-white input trims to "". */
  lemma TrimEnds(s: string)
    ensures var r := Trim(s);
      |r| <= |s| && (r == [] || (!IsWhiteSpace(r[0]) && !IsWhiteSpace(r[|r| - 1])))
    ensures Trim(s) == [] <==> AllWhiteSpace(s)
  {
    var t := TrimStart(s);
    if t != [] {
      TrimEndKeepsHead(t);
      assert !AllWhiteSpace(s) by { assert s[|s| - |t|] == t[0]; }
    } else {
      assert s[..|s|] == s;
    }
  }

  /** Trimming twice is trimming once, so a trimming setter fed its own value keeps it. */
  lemma TrimIdempotent(s: string)
    ensures Trim(Trim(s)) == Trim(s)
  {
    var r := Trim(s);
    TrimEnds(s);
    if r != [] {
      assert TrimStart(r) == r;
      assert TrimEnd(r) == r;
    }
  }

  lemma {:induction false} TrimStartSkips(pre: string, x: string)
    requires AllWhiteSpace(pre)
    ensures TrimStart(pre + x) == TrimStart(x)
    decreases |pre|
  {
    if pre != [] {
      assert (pre + x)[0] == pre[0];
      assert (pre + x)[1..] == pre[1..] + x;
      TrimStartSkips(pre[1..], x);
    } else {
      assert pre + x == x;
    }
  }

  lemma {:induction false} TrimEndSkips(x: string, post: string)
    requires AllWhiteSpace(post)
    ensures TrimEnd(x + post) == TrimEnd(x)
    decreases |post|
  {
    if post != [] {
      assert (x + post)[..|x + post| - 1] == x + post[..|post| - 1];
      TrimEndSkips(x, post[..|post| - 1]);
    } else {
      assert x + post == x;
    }
  }

  lemma {:induction false} TrimStartAppend(x: string, post: string)
    ensures TrimStart(x + post) == if AllWhiteSpace(x) then TrimStart(post) else TrimStart(x) + post
    decreases |x|
  {
    if x == [] {
      assert x + post == post;
    } else {
      assert (x + post)[0] == x[0];
      assert (x + post)[1..] == x[1..] + post;
      TrimStartAppend(x[1..], post);
      if IsWhiteSpace(x[0]) {
        assert AllWhiteSpace(x) <==> AllWhiteSpace(x[1..]) by {
          if AllWhiteSpace(x[1..]) {
            forall i | 0 <= i < |x| ensures IsWhiteSpace(x[i]) {
              if i > 0 { assert x[i] == x[1..][i - 1]; }
            }
          }
        }
      }
    }
  }

  /** Leading or trailing white space never changes what `Trim` returns. */
  lemma TrimIgnoresPadding(pre: string, s: string, post: string)
    requires AllWhiteSpace(pre) && AllWhiteSpace(post)
    ensures Trim(pre + s + post) == Trim(s)
  {
    assert pre + s + post == pre + (s + post);
    TrimStartSkips(pre, s + post);
    TrimStartAppend(s, post);
    if AllWhiteSpace(s) {
      TrimStartSkips(post, []);
      assert post + [] == post;
      TrimEnds(s);
    } else {
      TrimEndSkips(TrimStart(s), post);
    }
  }

  /** The UTF-16 code units a character takes: a surrogate pair from U+10000 on, one unit below. */
  function Utf16Units(c: char): (n: nat)
    ensures n == 1 <==> (c as int) < 0x1_0000
    ensures n == 2 <==> (c as int) >= 0x1_0000
  {
    if (c as int) < 0x1_0000 then 1 else 2
  }

  /** Every character of `s` lies below U+10000, so each takes a single code unit. */
  predicate InBasicPlane(s: string)
  {
    forall i :: 0 <= i < |s| ==> (s[i] as int) < 0x1_0000
  }

  /**
   * A string's length as .NET's `String.Length` and JavaScript's `length` give
   * it: in UTF-16 code units, where `|s|` counts characters.
   */
  function Utf16Length(s: string): (n: nat)
    ensures |s| <= n <= 2 * |s|
    ensures n == |s| <==> InBasicPlane(s)
  {
    if s == [] then 0
    else
      var n := Utf16Units(s[0]) + Utf16Length(s[1..]);
      assert InBasicPlane(s) <==> (s[0] as int) < 0x1_0000 && InBasicPlane(s[1..]) by {
        if (s[0] as int) < 0x1_0000 && InBasicPlane(s[1..]) {
          forall i | 0 <= i < |s| ensures (s[i] as int) < 0x1_0000 {
            if i > 0 { assert s[i] == s[1..][i - 1]; }
          }
        }
      }
      n
  }

  /** Lengths in code units add up over a concatenation. */
  lemma {:induction false} Utf16LengthAppend(a: string, b: string)
    ensures Utf16Length(a + b) == Utf16Length(a) + Utf16Length(b)
    decreases |a|
  {
    if a != [] {
      assert (a + b)[0] == a[0];
      assert (a + b)[1..] == a[1..] + b;
      Utf16LengthAppend(a[1..], b);
    } else {
      assert a + b == b;
    }
  }

  /** A string made only of characters beyond U+FFFF is twice as long in code units. */
  lemma {:induction false} Utf16LengthBeyondBasicPlane(s: string)
    requires forall i :: 0 <= i < |s| ==> (s[i] as int) >= 0x1_0000
    ensures Utf16Length(s) == 2 * |s|
    decreases |s|
  {
    if s != [] {
      assert forall i :: 0 <= i < |s[1..]| ==> s[1..][i] == s[i + 1];
      Utf16LengthBeyondBasicPlane(s[1..]);
    }
  }

  /** One character beyond U+FFFF, such as the emoji U+1F525, is two code units long. */
  lemma AstralCharacterIsTwoUnits()
    ensures Utf16Length("\U{1F525}") == 2
    ensures |"\U{1F525}"| == 1
  {
    assert "\U{1F525}"[1..] == [];
  }

  /** ASCII letter-case folding; other characters are kept. */
  function LowerChar(c: char): char
  {
    if 'A' <= c <= 'Z' then (c as int + 32) as char else c
  }

  function ToLower(s: string): (r: string)
    ensures |r| == |s| && forall i :: 0 <= i < |s| ==> r[i] == LowerChar(s[i])
  {
    seq(|s|, i requires 0 <= i < |s| => LowerChar(s[i]))
  }

  lemma ToLowerIdempotent(s: string)
    ensures ToLower(ToLower(s)) == ToLower(s)
  {
  }

  lemma ToLowerConcat(a: string, b: string)
    ensures ToLower(a + b) == ToLower(a) + ToLower(b)
  {
  }

  predicate IsPrefix(p: string, s: string)
  {
    |p| <= |s| && s[..|p|] == p
  }

  lemma ToLowerKeepsPrefix(p: string, s: string)
    requires IsPrefix(p, s)
    ensures IsPrefix(ToLower(p), ToLower(s))
  {
    assert forall i :: 0 <= i < |p| ==> p[i] == s[i];
  }

  predicate IsDigit(c: char)
  {
    '0' <= c <= '9'
  }

  predicate AllDigits(s: string)
  {
    forall i :: 0 <= i < |s| ==> IsDigit(s[i])
  }

  function DigitChar(d: int): (c: char)
    requires 0 <= d < 10
    ensures IsDigit(c)
  {
    ('0' as int + d) as char
  }

  function DigitValue(c: char): int
    requires IsDigit(c)
  {
    c as int - '0' as int
  }

  /** Decimal rendering of a whole number (`Number.prototype.toString`), without leading zeros. */
  function NatToString(n: nat): (r: string)
    ensures |r| >= 1 && AllDigits(r)
    ensures r[0] == '0' ==> n == 0
  {
    if n < 10 then [DigitChar(n)] else NatToString(n / 10) + [DigitChar(n % 10)]
  }

  /** Reads a string of decimal digits back as a number. */
  function ParseNat(s: string): nat
    requires AllDigits(s)
  {
    if s == [] then 0 else ParseNat(s[..|s| - 1]) * 10 + DigitValue(s[|s| - 1])
  }

  lemma {:induction false} ParseNatToString(n: nat)
    ensures ParseNat(NatToString(n)) == n
  {
    if n >= 10 {
      var r := NatToString(n);
      assert r[..|r| - 1] == NatToString(n / 10);
      ParseNatToString(n / 10);
    }
  }

  /** `padStart(2, '0')`. */
  function PadStart2(s: string): (r: string)
    ensures |r| == if |s| < 2 then 2 else |s|
    ensures AllDigits(s) ==> AllDigits(r)
  {
    if |s| >= 2 then s else if |s| == 1 then "0" + s else "00"
  }

  lemma {:induction false} ParseLeadingZero(s: string)
    requires AllDigits(s)
    ensures AllDigits("0" + s) && ParseNat("0" + s) == ParseNat(s)
    decreases |s|
  {
    var z := "0" + s;
    assert AllDigits(z) by {
      forall i | 0 <= i < |z| ensures IsDigit(z[i]) {
        if i > 0 { assert z[i] == s[i - 1]; }
      }
    }
    if s != [] {
      assert z[..|z| - 1] == "0" + s[..|s| - 1];
      ParseLeadingZero(s[..|s| - 1]);
    }
  }

  /** Padding never changes the value that is read back. */
  lemma ParsePadStart2(s: string)
    requires AllDigits(s)
    ensures ParseNat(PadStart2(s)) == ParseNat(s)
  {
    if |s| == 1 {
      ParseLeadingZero(s);
    } else if |s| == 0 {
      ParseLeadingZero("0");
    }
  }

  /** Rendering a number below 100 and padding it yields exactly two digits. */
  lemma PadStart2Small(n: nat)
    requires n < 100
    ensures |PadStart2(NatToString(n))| == 2
  {
    if n >= 10 {
      assert NatToString(n) == NatToString(n / 10) + [DigitChar(n % 10)];
    }
  }

  /**
   * The sessions' `formatTime`: `${mins}:${secs.toString().padStart(2, '0')}`
   * with mins = ⌊t / 60⌋ and secs = t % 60.
   */
  function MinSec(t: nat): string
  {
    NatToString(t / 60) + ":" + PadStart2(NatToString(t % 60))
  }

  /**
   * An `m:ss` display is a run of digits, a colon and exactly two digits; the
   * colon is the first non-digit, and the two numbers read back give `t`.
   */
  lemma MinSecReadsBack(t: nat)
    ensures var r, m := MinSec(t), |NatToString(t / 60)|;
      |r| == m + 3 && r[m] == ':' && AllDigits(r[..m]) && AllDigits(r[m + 1..])
      && ParseNat(r[m + 1..]) < 60 && ParseNat(r[..m]) * 60 + ParseNat(r[m + 1..]) == t
  {
    var mins, secs := NatToString(t / 60), PadStart2(NatToString(t % 60));
    var r := MinSec(t);
    PadStart2Small(t % 60);
    assert r[..|mins|] == mins;
    assert r[|mins| + 1..] == secs;
    ParseNatToString(t / 60);
    ParseNatToString(t % 60);
    ParsePadStart2(NatToString(t % 60));
  }
}
