/**
 * String operations the JavaScript source relies on: String.prototype.trim,
 * Array.prototype.join, String.prototype.split with a one-character separator,
 * Buffer.toString('hex'), and a first-occurrence substring search used by the
 * reference parser of the renderer's output.
 */
module Text {
  import opened Wrappers

  /** The characters trim removes: WhiteSpace and LineTerminator of ECMA-262. */
  const JsWhitespace: set<char> := {
    '\t', '\n', '\U{000B}', '\U{000C}', '\r', ' ', '\U{00A0}', '\U{1680}',
    '\U{2000}', '\U{2001}', '\U{2002}', '\U{2003}', '\U{2004}', '\U{2005}',
    '\U{2006}', '\U{2007}', '\U{2008}', '\U{2009}', '\U{200A}',
    '\U{2028}', '\U{2029}', '\U{202F}', '\U{205F}', '\U{3000}', '\U{FEFF}'
  }

  predicate IsJsWhitespace(c: char) {
    c in JsWhitespace
  }

  predicate AllWhitespace(s: string) {
    forall i :: 0 <= i < |s| ==> IsJsWhitespace(s[i])
  }

  /** The length of the whitespace run s starts with. */
  function LeadingWhitespace(s: string): (n: nat)
    ensures n <= |s| && AllWhitespace(s[..n])
    ensures n == |s| || !IsJsWhitespace(s[n])
  {
    if s != [] && IsJsWhitespace(s[0]) then
      var n := 1 + LeadingWhitespace(s[1..]);
      assert s[..n] == [s[0]] + s[1..][..n - 1];
      n
    else 0
  }

  /** The length of the whitespace run s ends with. */
  function TrailingWhitespace(s: string): (n: nat)
    ensures n <= |s| && AllWhitespace(s[|s| - n..])
    ensures n == |s| || !IsJsWhitespace(s[|s| - n - 1])
  {
    if s != [] && IsJsWhitespace(s[|s| - 1]) then
      var n := 1 + TrailingWhitespace(s[..|s| - 1]);
      assert s[|s| - n..] == s[..|s| - 1][|s| - n..] + [s[|s| - 1]];
      n
    else 0
  }

  /**
   * String.prototype.trim: s is a whitespace run, then the result, then a
   * whitespace run; the result neither starts nor ends with whitespace, and it
   * is empty exactly when s is all whitespace.
   */
  function Trim(s: string): (r: string)
    ensures var k := LeadingWhitespace(s);
      && k + |r| <= |s| && r == s[k..k + |r|]
      && AllWhitespace(s[..k]) && AllWhitespace(s[k + |r|..])
    ensures r != [] ==> !IsJsWhitespace(r[0]) && !IsJsWhitespace(r[|r| - 1])
    ensures r == [] <==> AllWhitespace(s)
  {
    var k := LeadingWhitespace(s);
    var t := s[k..];
    var m := TrailingWhitespace(t);
    TrimFacts(s, k, m);
    t[..|t| - m]
  }

  lemma TrimFacts(s: string, k: nat, m: nat)
    requires k <= |s| && AllWhitespace(s[..k]) && (k == |s| || !IsJsWhitespace(s[k]))
    requires m <= |s| - k && AllWhitespace(s[k..][|s| - k - m..])
    requires m == |s| - k || !IsJsWhitespace(s[k..][|s| - k - m - 1])
    ensures var r := s[k..][..|s| - k - m];
      && k + |r| <= |s| && r == s[k..k + |r|]
      && AllWhitespace(s[..k]) && AllWhitespace(s[k + |r|..])
      && (r != [] ==> !IsJsWhitespace(r[0]) && !IsJsWhitespace(r[|r| - 1]))
      && (r == [] <==> AllWhitespace(s))
  {
    var t := s[k..];
    var r := t[..|t| - m];
    assert s[k + |r|..] == t[|t| - m..];
    if r == [] {
      assert s == s[..k] + t;
    }
  }

  /** Trimming a string that neither starts nor ends with whitespace leaves it as it is. */
  lemma TrimUnpadded(s: string)
    requires s != [] && !IsJsWhitespace(s[0]) && !IsJsWhitespace(s[|s| - 1])
    ensures Trim(s) == s
  {
    assert LeadingWhitespace(s) == 0;
  }

  /** Array.prototype.join over strings. */
  function Join(parts: seq<string>, sep: string): string
  {
    if |parts| == 0 then ""
    else if |parts| == 1 then parts[0]
    else parts[0] + sep + Join(parts[1..], sep)
  }

  /** A join with a whitespace separator is all whitespace exactly when every part is. */
  lemma {:induction false} JoinAllWhitespace(parts: seq<string>, sep: string)
    requires AllWhitespace(sep)
    ensures AllWhitespace(Join(parts, sep)) <==> forall i :: 0 <= i < |parts| ==> AllWhitespace(parts[i])
  {
    if |parts| >= 2 {
      var rest := Join(parts[1..], sep);
      JoinAllWhitespace(parts[1..], sep);
      var s := parts[0] + sep + rest;
      if AllWhitespace(s) {
        assert AllWhitespace(parts[0]) by {
          forall i | 0 <= i < |parts[0]| ensures IsJsWhitespace(parts[0][i]) {
            assert s[i] == parts[0][i];
          }
        }
        assert AllWhitespace(rest) by {
          forall i | 0 <= i < |rest| ensures IsJsWhitespace(rest[i]) {
            assert s[|parts[0]| + |sep| + i] == rest[i];
          }
        }
        forall i | 0 <= i < |parts| ensures AllWhitespace(parts[i]) {
          if i > 0 { assert parts[i] == parts[1..][i - 1]; }
        }
      }
      if forall i :: 0 <= i < |parts| ==> AllWhitespace(parts[i]) {
        assert forall i :: 0 <= i < |parts[1..]| ==> AllWhitespace(parts[1..][i]) by {
          forall i | 0 <= i < |parts[1..]| ensures AllWhitespace(parts[1..][i]) {
            assert parts[1..][i] == parts[i + 1];
          }
        }
        assert AllWhitespace(parts[0]);
        forall i | 0 <= i < |s| ensures IsJsWhitespace(s[i]) {
          if i < |parts[0]| {
            assert s[i] == parts[0][i];
          } else if i < |parts[0]| + |sep| {
            assert s[i] == sep[i - |parts[0]|];
          } else {
            assert s[i] == rest[i - |parts[0]| - |sep|];
          }
        }
      }
    }
  }

  /** A character that occurs in no part and not in the separator does not occur in the join. */
  lemma {:induction false} JoinAvoids(parts: seq<string>, sep: string, c: char)
    requires c !in sep
    requires forall i :: 0 <= i < |parts| ==> c !in parts[i]
    ensures c !in Join(parts, sep)
  {
    if |parts| >= 2 {
      JoinAvoids(parts[1..], sep, c);
      assert c !in parts[0];
    }
  }

  /** String.prototype.split with a one-character separator and no limit. */
  function Split(s: string, sep: char): (r: seq<string>)
    ensures |r| >= 1
  {
    if s == [] then [""]
    else
      var rest := Split(s[1..], sep);
      if s[0] == sep then [""] + rest
      else [[s[0]] + rest[0]] + rest[1..]
  }

  lemma {:induction false} SplitWithout(s: string, sep: char)
    requires sep !in s
    ensures Split(s, sep) == [s]
  {
    if s != [] {
      SplitWithout(s[1..], sep);
      assert [s[0]] + s[1..] == s;
    }
  }

  lemma {:induction false} SplitAtFirst(a: string, sep: char, b: string)
    requires sep !in a
    ensures Split(a + [sep] + b, sep) == [a] + Split(b, sep)
  {
    if a == [] {
      assert a + [sep] + b == [sep] + b;
      assert ([sep] + b)[1..] == b;
    } else {
      SplitAtFirst(a[1..], sep, b);
      assert (a + [sep] + b)[1..] == a[1..] + [sep] + b;
      assert [a[0]] + a[1..] == a;
    }
  }

  /** Splitting a join on its one-character separator gives the parts back. */
  lemma {:induction false} SplitJoin(parts: seq<string>, sep: char)
    requires |parts| >= 1
    requires forall i :: 0 <= i < |parts| ==> sep !in parts[i]
    ensures Split(Join(parts, [sep]), sep) == parts
  {
    if |parts| == 1 {
      SplitWithout(parts[0], sep);
    } else {
      SplitJoin(parts[1..], sep);
      assert sep !in parts[0];
      SplitAtFirst(parts[0], sep, Join(parts[1..], [sep]));
      assert [parts[0]] + parts[1..] == parts;
    }
  }

  /** pat occurs in s starting at index i. */
  predicate OccursAt(s: string, pat: string, i: nat) {
    i + |pat| <= |s| && s[i..i + |pat|] == pat
  }

  predicate Contains(s: string, pat: string) {
    exists i: nat | i <= |s| :: OccursAt(s, pat, i)
  }

  /** The index of the first occurrence of pat in s, if there is one. */
  function IndexOf(s: string, pat: string): (r: Option<nat>)
    ensures r.Some? ==> OccursAt(s, pat, r.value)
    ensures r.Some? ==> forall j: nat :: j < r.value ==> !OccursAt(s, pat, j)
    ensures r.None? ==> forall j: nat :: !OccursAt(s, pat, j)
    decreases |s|
  {
    if |s| < |pat| then None
    else if s[..|pat|] == pat then Some(0)
    else
      OccursShift(s, pat);
      match IndexOf(s[1..], pat)
      case None => None
      case Some(k) => Some(k + 1)
  }

  lemma OccursShift(s: string, pat: string)
    requires s != []
    ensures forall j: nat :: 1 <= j ==> (OccursAt(s, pat, j) <==> OccursAt(s[1..], pat, j - 1))
  {
    forall j: nat | 1 <= j ensures OccursAt(s, pat, j) <==> OccursAt(s[1..], pat, j - 1) {
      if j + |pat| <= |s| {
        assert s[j..j + |pat|] == s[1..][j - 1..j - 1 + |pat|];
      }
    }
  }

  /**
   * A pattern whose first character does not recur in it is found right after
   * a prefix that does not contain it.
   */
  lemma {:induction false} IndexOfAfter(a: string, pat: string, b: string)
    requires |pat| >= 1
    requires forall j :: 1 <= j < |pat| ==> pat[j] != pat[0]
    requires !Contains(a, pat)
    ensures IndexOf(a + pat + b, pat) == Some(|a|)
    decreases |a|
  {
    var s := a + pat + b;
    if a == [] {
      assert s[..|pat|] == pat;
    } else {
      if |a| >= |pat| {
        assert !OccursAt(a, pat, 0);
        assert a[..|pat|] == s[..|pat|];
      } else {
        assert s[..|pat|][|a|] == pat[0];
      }
      assert !Contains(a[1..], pat) by {
        OccursShift(a, pat);
        forall j: nat | j <= |a[1..]| ensures !OccursAt(a[1..], pat, j) {
          assert !OccursAt(a, pat, j + 1);
        }
      }
      IndexOfAfter(a[1..], pat, b);
      assert s[1..] == a[1..] + pat + b;
    }
  }

  /** A pattern whose first character is missing from s does not occur in s. */
  lemma FirstCharAbsent(s: string, pat: string)
    requires |pat| >= 1 && pat[0] !in s
    ensures !Contains(s, pat)
  {
    forall i: nat | i <= |s| ensures !OccursAt(s, pat, i) {
      if i + |pat| <= |s| {
        assert s[i..i + |pat|][0] == s[i];
      }
    }
  }

  /** Byte values, as crypto.randomBytes yields them. */
  type byte = x: int | 0 <= x < 256

  predicate IsHexDigit(c: char) {
    '0' <= c <= '9' || 'a' <= c <= 'f'
  }

  predicate IsLowerHex(s: string) {
    forall i :: 0 <= i < |s| ==> IsHexDigit(s[i])
  }

  /** The lower-case hex digit of a nibble. */
  function HexDigit(n: nat): (c: char)
    requires n < 16
    ensures IsHexDigit(c)
  {
    if n < 10 then ('0' as int + n) as char else ('a' as int + n - 10) as char
  }

  /** The nibble of a hex digit: HexDigit and HexValue are inverse. */
  function HexValue(c: char): (n: nat)
    requires IsHexDigit(c)
    ensures n < 16 && HexDigit(n) == c
  {
    if c <= '9' then (c as int - '0' as int) else (c as int - 'a' as int + 10)
  }

  /** Buffer.toString('hex'): two lower-case hex digits per byte, high nibble first. */
  function Hex(bytes: seq<byte>): (r: string)
    ensures |r| == 2 * |bytes|
    ensures IsLowerHex(r)
  {
    if bytes == [] then ""
    else [HexDigit(bytes[0] / 16), HexDigit(bytes[0] % 16)] + Hex(bytes[1..])
  }

  /** The inverse of Hex: decodes pairs of hex digits. */
  function Unhex(s: string): (r: seq<byte>)
    requires |s| % 2 == 0 && IsLowerHex(s)
  {
    if s == [] then []
    else [(HexValue(s[0]) * 16 + HexValue(s[1])) as byte] + Unhex(s[2..])
  }

  lemma HexValueOfDigit(n: nat)
    requires n < 16
    ensures HexValue(HexDigit(n)) == n
  {
  }

  /** Hex loses nothing: decoding it gives the bytes back, so distinct bytes give distinct ids. */
  lemma {:induction false} UnhexHex(bytes: seq<byte>)
    ensures Unhex(Hex(bytes)) == bytes
  {
    if bytes != [] {
      var b := bytes[0];
      var h := Hex(bytes);
      assert h[2..] == Hex(bytes[1..]);
      HexValueOfDigit(b / 16);
      HexValueOfDigit(b % 16);
      UnhexHex(bytes[1..]);
      assert [b] + bytes[1..] == bytes;
    }
  }

  lemma HexInjective(a: seq<byte>, b: seq<byte>)
    requires Hex(a) == Hex(b)
    ensures a == b
  {
    UnhexHex(a);
    UnhexHex(b);
  }
}
