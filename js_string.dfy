/** The handful of JavaScript string built-ins the tier-list code relies on. */
module JsString {
  import opened Wrappers

  /** StrWhiteSpaceChar of ECMAScript: the characters `trim` removes and `parseInt` skips. */
  predicate IsSpace(c: char) {
    var n := c as int;
    n == 0x09 || n == 0x0A || n == 0x0B || n == 0x0C || n == 0x0D || n == 0x20 ||
    n == 0xA0 || n == 0x1680 || (0x2000 <= n <= 0x200A) || n == 0x2028 || n == 0x2029 ||
    n == 0x202F || n == 0x205F || n == 0x3000 || n == 0xFEFF
  }

  /** `s.trimStart()`: the longest suffix of `s` that does not start with white space. */
  function TrimStart(s: string): (r: string)
    ensures |r| <= |s| && r == s[|s| - |r|..]
    ensures forall i :: 0 <= i < |s| - |r| ==> IsSpace(s[i])
    ensures r != [] ==> !IsSpace(r[0])
  {
    if s != [] && IsSpace(s[0]) then TrimStart(s[1..]) else s
  }

  /** `s.trimEnd()`: the longest prefix of `s` that does not end with white space. */
  function TrimEnd(s: string): (r: string)
    ensures |r| <= |s| && r == s[..|r|]
    ensures forall i :: |r| <= i < |s| ==> IsSpace(s[i])
    ensures r != [] ==> !IsSpace(r[|r| - 1])
  {
    if s != [] && IsSpace(s[|s| - 1]) then TrimEnd(s[..|s| - 1]) else s
  }

  /** `s.trim()`. */
  function Trim(s: string): string {
    TrimEnd(TrimStart(s))
  }

  /** JavaScript truthiness of `s.trim()`: false exactly for the blank strings. */
  predicate IsBlank(s: string) {
    Trim(s) == ""
  }

  /** `s.trim() || null`. */
  function TrimmedOrNull(s: string): (r: Option<string>)
    ensures r.None? <==> IsBlank(s)
    ensures r.Some? ==> r.value == Trim(s) && r.value != ""
  {
    if IsBlank(s) then None else Some(Trim(s))
  }

  /** Trimming keeps the block of `s` that starts where the leading white space ends. */
  lemma {:induction false} TrimShape(s: string)
    ensures var k := |s| - |TrimStart(s)|; var t := Trim(s);
      k + |t| <= |s| && t == s[k..k + |t|]
    ensures Trim(s) != [] ==> !IsSpace(Trim(s)[0]) && !IsSpace(Trim(s)[|Trim(s)| - 1])
  {
    var a := TrimStart(s);
    var t := TrimEnd(a);
    var k := |s| - |a|;
    assert t == a[..|t|];
    assert a[..|t|] == s[k..k + |t|] by {
      assert a == s[k..];
    }
    if t != [] {
      assert t[0] == a[0];
    }
  }

  /** A string is blank exactly when every character in it is white space. */
  lemma {:induction false} BlankIffAllSpace(s: string)
    ensures IsBlank(s) <==> forall i :: 0 <= i < |s| ==> IsSpace(s[i])
  {
    var a := TrimStart(s);
    if a != [] {
      assert !IsSpace(a[0]);
      assert s[|s| - |a|] == a[0];
    }
  }

  /** Trimming twice is trimming once. */
  lemma TrimIdempotent(s: string)
    ensures Trim(Trim(s)) == Trim(s)
  {
    var t := Trim(s);
    TrimShape(s);
    assert TrimStart(t) == t;
    assert TrimEnd(t) == t;
  }

  /** `s.startsWith(p)`. */
  predicate StartsWith(s: string, p: string) {
    |p| <= |s| && s[..|p|] == p
  }

  /** Index of the first `c` in `s`. */
  function IndexOf(s: string, c: char): (k: nat)
    requires c in s
    ensures k < |s| && s[k] == c && c !in s[..k]
  {
    if s[0] == c then 0 else 1 + IndexOf(s[1..], c)
  }

  /** `s.replace(c, "")` with a one-character string pattern: only the first `c` is removed. */
  function RemoveFirst(s: string, c: char): (r: string)
    ensures c !in s ==> r == s
    ensures c in s ==> |r| == |s| - 1
    ensures c in s ==> exists i :: 0 <= i < |s| && s[i] == c && c !in s[..i] && r == s[..i] + s[i + 1..]
  {
    if c in s then s[..IndexOf(s, c)] + s[IndexOf(s, c) + 1..] else s
  }

  /**
   * `String(n)` for a natural number: decimal digits, without leading zeros, whose value
   * is `n`.
   */
  function NatToString(n: nat): (r: string)
    ensures r != [] && AllDigits(r)
    ensures |r| > 1 ==> r[0] != '0'
    ensures DecValue(r) == n
  {
    if n < 10 then [Digit(n)]
    else
      var r := NatToString(n / 10) + [Digit(n % 10)];
      assert r[..|r| - 1] == NatToString(n / 10);
      r
  }

  function Digit(d: nat): (c: char)
    requires d < 10
    ensures '0' <= c <= '9' && c as nat - '0' as nat == d
  {
    "0123456789"[d]
  }

  predicate AllDigits(s: string) {
    forall i :: 0 <= i < |s| ==> '0' <= s[i] <= '9'
  }

  /** The value of a string of decimal digits, most significant first. */
  function DecValue(s: string): nat {
    if s == [] then 0
    else
      var c := s[|s| - 1];
      DecValue(s[..|s| - 1]) * 10 + (if '0' <= c <= '9' then c as nat - '0' as nat else 0)
  }

  predicate IsHexDigit(c: char) {
    '0' <= c <= '9' || 'a' <= c <= 'f' || 'A' <= c <= 'F'
  }

  /** Value of a hex digit (0 for any other character, which the callers never pass). */
  function HexDigitValue(c: char): (v: nat)
    ensures v < 16
  {
    if '0' <= c <= '9' then c as nat - '0' as nat
    else if 'a' <= c <= 'f' then c as nat - 'a' as nat + 10
    else if 'A' <= c <= 'F' then c as nat - 'A' as nat + 10
    else 0
  }

  predicate AllHex(s: string) {
    forall i :: 0 <= i < |s| ==> IsHexDigit(s[i])
  }

  /** Number of leading hexadecimal digits of `s`. */
  function HexRun(s: string): (n: nat)
    ensures n <= |s| && AllHex(s[..n])
    ensures n < |s| ==> !IsHexDigit(s[n])
  {
    if s != [] && IsHexDigit(s[0]) then 1 + HexRun(s[1..]) else 0
  }

  /** Value of a string of hexadecimal digits, most significant first. */
  function HexValue(s: string): nat {
    if s == [] then 0 else HexValue(s[..|s| - 1]) * 16 + HexDigitValue(s[|s| - 1])
  }

  /**
   * `parseInt(s, 16)`, following the ECMAScript algorithm: skip leading white space,
   * take one optional sign, drop a `0x`/`0X` prefix, then read the longest run of hex
   * digits. `None` stands for NaN, the result when that run is empty.
   */
  function ParseIntHex(s: string): Option<int> {
    if s != [] && IsSpace(s[0]) then ParseIntHex(s[1..]) else ParseSigned(s)
  }

  /** Skipping the white space one character at a time is `trimStart`. */
  lemma {:induction false} ParseIntHexTrims(s: string)
    ensures ParseIntHex(s) == ParseSigned(TrimStart(s))
  {
    if s != [] && IsSpace(s[0]) {
      ParseIntHexTrims(s[1..]);
    }
  }

  /** `parseInt` after the white space: an optional sign, then the digits. */
  function ParseSigned(t: string): Option<int> {
    if t != [] && t[0] == '-' then
      (var m := ParseDigits(t[1..]); if m.Some? then Some(-m.value) else None)
    else if t != [] && t[0] == '+' then ParseDigits(t[1..])
    else ParseDigits(t)
  }

  /** `parseInt` after the sign: an optional `0x`/`0X`, then the longest run of hex digits. */
  function ParseDigits(u: string): Option<int> {
    var v := if |u| >= 2 && u[0] == '0' && (u[1] == 'x' || u[1] == 'X') then u[2..] else u;
    var n := HexRun(v);
    if n == 0 then None else Some(HexValue(v[..n]))
  }

  /** Two hex digits parse to their two-digit value. */
  lemma ParsePair(a: char, b: char)
    requires IsHexDigit(a) && IsHexDigit(b)
    ensures ParseIntHex([a, b]) == Some(16 * HexDigitValue(a) + HexDigitValue(b))
  {
    var s := [a, b];
    assert HexRun(s) == 2 by { assert HexRun(s[1..]) == 1; }
    assert s[..2] == s;
    assert s[..1] == [a];
    assert HexValue([a]) == HexDigitValue(a) by { assert [a][..0] == []; }
  }

  /** A character written twice parses to 17 times its digit value, or to NaN. */
  lemma ParseDoubled(c: char)
    ensures IsHexDigit(c) ==> ParseIntHex([c, c]) == Some(17 * HexDigitValue(c))
    ensures !IsHexDigit(c) ==> ParseIntHex([c, c]) == None
  {
    if IsHexDigit(c) {
      ParsePair(c, c);
    } else if IsSpace(c) {
      assert [c, c][1..] == [c] && [c][1..] == [];
      assert ParseIntHex([c]) == ParseIntHex([]) == None;
    } else {
      var s := [c, c];
      if c == '-' || c == '+' {
        assert s[1..] == [c];
        assert HexRun([c]) == 0;
        assert ParseDigits([c]) == None;
      } else {
        assert HexRun(s) == 0;
      }
    }
  }
}
