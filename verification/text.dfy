/**
 * String helpers with JavaScript semantics, on `string` = `seq<char>`:
 * the `\s` class, `trim`, `toLowerCase`, `startsWith`, `includes`,
 * `split` on a character or on `/\s+/`, and `join`.
 */
module Text {

  /** JavaScript's `\s`: ASCII whitespace plus the Unicode space separators. */
  predicate IsSpace(c: char) {
    c == ' ' || c == '\t' || c == '\n' || c == '\r' || c == '\U{000B}' || c == '\U{000C}'
    || c == '\U{00A0}' || c == '\U{1680}' || ('\U{2000}' <= c <= '\U{200A}')
    || c == '\U{2028}' || c == '\U{2029}' || c == '\U{202F}' || c == '\U{205F}'
    || c == '\U{3000}' || c == '\U{FEFF}'
  }

  predicate IsDigit(c: char) { '0' <= c <= '9' }

  predicate IsUpperAscii(c: char) { 'A' <= c <= 'Z' }

  /** A digit / a date separator `[\/\-]` at position `i`, which may lie outside `s`. */
  predicate DigitAt(s: string, i: int) { 0 <= i < |s| && IsDigit(s[i]) }
  predicate SepAt(s: string, i: int) { 0 <= i < |s| && (s[i] == '/' || s[i] == '-') }

  /** Number of consecutive digits from `i`, at most `cap`. */
  function DigitRun(s: string, i: nat, cap: nat): (n: nat)
    ensures n <= cap
    ensures forall k :: i <= k < i + n ==> DigitAt(s, k)
    ensures n < cap ==> !DigitAt(s, i + n)
    decreases cap
  {
    if cap == 0 || !DigitAt(s, i) then 0 else 1 + DigitRun(s, i + 1, cap - 1)
  }

  /** Number of whitespace characters from `i`. */
  function SpaceRun(s: string, i: nat): (n: nat)
    ensures i + n <= |s| || (i >= |s| && n == 0)
    ensures forall k :: i <= k < i + n ==> IsSpace(s[k])
    ensures i + n < |s| ==> !IsSpace(s[i + n])
    decreases |s| - i
  {
    if i < |s| && IsSpace(s[i]) then 1 + SpaceRun(s, i + 1) else 0
  }

  predicate AllSpace(s: string) {
    forall i :: 0 <= i < |s| ==> IsSpace(s[i])
  }

  /** `s.trimStart()` */
  function TrimStart(s: string): (r: string)
    ensures |r| <= |s| && r == s[|s| - |r|..]
    ensures AllSpace(s[..|s| - |r|])
    ensures r == [] || !IsSpace(r[0])
  {
    if |s| > 0 && IsSpace(s[0]) then
      var r := TrimStart(s[1..]);
      assert AllSpace(s[..|s| - |r|]) by {
        forall k | 0 < k < |s| - |r| ensures IsSpace(s[k]) {
          assert s[k] == s[1..][..|s| - 1 - |r|][k - 1];
        }
      }
      r
    else s
  }

  /** `s.trimEnd()` */
  function TrimEnd(s: string): (r: string)
    ensures |r| <= |s| && r == s[..|r|]
    ensures AllSpace(s[|r|..])
    ensures r == [] || !IsSpace(r[|r| - 1])
  {
    if |s| > 0 && IsSpace(s[|s| - 1]) then
      var r := TrimEnd(s[..|s| - 1]);
      assert AllSpace(s[|r|..]) by {
        forall k | |r| <= k < |s| - 1 ensures IsSpace(s[k]) {
          assert s[k] == s[..|s| - 1][|r|..][k - |r|];
        }
      }
      r
    else s
  }

  /** `s.trim()`: `s` without its leading and trailing whitespace. */
  function Trim(s: string): (r: string)
    ensures |r| <= |s|
    ensures r == [] || (!IsSpace(r[0]) && !IsSpace(r[|r| - 1]))
  {
    TrimEnd(TrimStart(s))
  }

  /** Trimming only removes characters. */
  lemma TrimInside(s: string)
    ensures forall c :: c in Trim(s) ==> c in s
  {
    var a := TrimStart(s);
    var r := TrimEnd(a);
    SliceInside(a, 0, |r|);
    SliceInside(s, |s| - |a|, |s|);
  }

  lemma SliceInside(s: string, i: int, j: int)
    requires 0 <= i <= j <= |s|
    ensures forall c :: c in s[i..j] ==> c in s
  {
    forall c | c in s[i..j] ensures c in s {
      var k :| 0 <= k < j - i && s[i..j][k] == c;
      assert s[i + k] == c;
    }
  }

  /** `!s || s.trim() === ''`: empty or made of whitespace only. */
  predicate IsBlank(s: string) {
    Trim(s) == []
  }

  lemma BlankIffAllSpace(s: string)
    ensures IsBlank(s) <==> AllSpace(s)
  {
    var a := TrimStart(s);
    if IsBlank(s) {
      assert AllSpace(a[0..]);
      assert a == [];
      forall i | 0 <= i < |s| ensures IsSpace(s[i]) {
        assert s[i] == s[..|s| - |a|][i];
      }
    }
  }

  lemma NotBlankAt(s: string, i: int)
    requires 0 <= i < |s| && !IsSpace(s[i])
    ensures !IsBlank(s)
  {
    BlankIffAllSpace(s);
  }

  /** `toLowerCase` restricted to ASCII and the upper-case letters of Spanish. */
  function LowerChar(c: char): (d: char)
    ensures IsSpace(c) <==> IsSpace(d)
  {
    if 'A' <= c <= 'Z' then (c as int + 32) as char
    else if c == 'Á' then 'á' else if c == 'É' then 'é' else if c == 'Í' then 'í'
    else if c == 'Ó' then 'ó' else if c == 'Ú' then 'ú' else if c == 'Ü' then 'ü'
    else if c == 'Ñ' then 'ñ'
    else c
  }

  function Lower(s: string): (r: string)
    ensures |r| == |s|
    ensures forall i :: 0 <= i < |s| ==> r[i] == LowerChar(s[i])
  {
    if s == [] then [] else [LowerChar(s[0])] + Lower(s[1..])
  }

  /** `s.startsWith(p)`, compared character by character. */
  predicate StartsWith(s: string, p: string)
    decreases p
  {
    p == [] || (s != [] && s[0] == p[0] && StartsWith(s[1..], p[1..]))
  }

  lemma {:induction false} StartsWithIff(s: string, p: string)
    ensures StartsWith(s, p) <==> |p| <= |s| && s[..|p|] == p
    decreases p
  {
    if p != [] && s != [] {
      StartsWithIff(s[1..], p[1..]);
      if |p| <= |s| {
        assert s[..|p|] == [s[0]] + s[1..][..|p| - 1];
        assert p == [p[0]] + p[1..];
      }
    }
  }

  /** `s.includes(p)` */
  predicate Contains(s: string, p: string)
    decreases |s|
  {
    StartsWith(s, p) || (|s| > 0 && Contains(s[1..], p))
  }

  /** `p` occurs in `s` at position `i`. */
  predicate OccursAt(s: string, p: string, i: int) {
    0 <= i <= |s| - |p| && s[i..i + |p|] == p
  }

  lemma {:induction false} ContainsIffOccurs(s: string, p: string)
    ensures Contains(s, p) <==> exists i :: OccursAt(s, p, i)
    decreases |s|
  {
    StartsWithIff(s, p);
    if |s| > 0 {
      ContainsIffOccurs(s[1..], p);
      if exists i :: OccursAt(s, p, i) {
        var i :| OccursAt(s, p, i);
        if i > 0 {
          assert OccursAt(s[1..], p, i - 1);
        }
      }
      if Contains(s[1..], p) && !StartsWith(s, p) {
        var j :| OccursAt(s[1..], p, j);
        assert s[j + 1..j + 1 + |p|] == s[1..][j..j + |p|];
        assert OccursAt(s, p, j + 1);
      }
      if StartsWith(s, p) {
        assert OccursAt(s, p, 0);
      }
    } else {
      if exists i :: OccursAt(s, p, i) {
        var i :| OccursAt(s, p, i);
        assert i == 0 && StartsWith(s, p);
      }
      if StartsWith(s, p) {
        assert OccursAt(s, p, 0);
      }
    }
  }

  /** `s.split(c)` for a one-character separator. */
  function SplitOn(s: string, c: char): (r: seq<string>)
    ensures |r| >= 1
    ensures forall i :: 0 <= i < |r| ==> c !in r[i]
    decreases |s|
  {
    SplitOnFrom(s, c, [])
  }

  function SplitOnFrom(s: string, c: char, cur: string): (r: seq<string>)
    requires c !in cur
    ensures |r| >= 1
    ensures forall i :: 0 <= i < |r| ==> c !in r[i]
    decreases |s|
  {
    if s == [] then [cur]
    else if s[0] == c then [cur] + SplitOnFrom(s[1..], c, [])
    else SplitOnFrom(s[1..], c, cur + [s[0]])
  }

  /** Drops the maximal run of whitespace at the front. */
  function DropSpaces(s: string): (r: string)
    ensures |r| <= |s| && r == s[|s| - |r|..]
    ensures AllSpace(s[..|s| - |r|])
    ensures r == [] || !IsSpace(r[0])
  {
    if |s| > 0 && IsSpace(s[0]) then DropSpaces(s[1..]) else s
  }

  /** `s.split(/\s+/)`: leading or trailing whitespace yields an empty first or last word. */
  function SplitWords(s: string): (r: seq<string>)
    ensures |r| >= 1
    ensures forall i :: 0 <= i < |r| ==> forall k :: 0 <= k < |r[i]| ==> !IsSpace(r[i][k])
  {
    SplitWordsFrom(s, [])
  }

  function SplitWordsFrom(s: string, cur: string): (r: seq<string>)
    requires forall k :: 0 <= k < |cur| ==> !IsSpace(cur[k])
    ensures |r| >= 1
    ensures forall i :: 0 <= i < |r| ==> forall k :: 0 <= k < |r[i]| ==> !IsSpace(r[i][k])
    decreases |s|
  {
    if s == [] then [cur]
    else if IsSpace(s[0]) then [cur] + SplitWordsFrom(DropSpaces(s), [])
    else SplitWordsFrom(s[1..], cur + [s[0]])
  }

  /** All parts glued together, `parts.join('')`. */
  function Concat(parts: seq<string>): string {
    if parts == [] then [] else parts[0] + Concat(parts[1..])
  }

  /** `parts.join(sep)` */
  function Join(parts: seq<string>, sep: string): string {
    if parts == [] then []
    else if |parts| == 1 then parts[0]
    else parts[0] + sep + Join(parts[1..], sep)
  }

  lemma JoinAppend(parts: seq<string>, last: string, sep: string)
    requires parts != []
    ensures Join(parts + [last], sep) == Join(parts, sep) + sep + last
  {
    if |parts| == 1 {
      assert parts + [last] == [parts[0], last];
    } else {
      assert (parts + [last])[1..] == parts[1..] + [last];
    }
  }

  /** Gluing a part onto its successor with `sep` leaves the joined string unchanged. */
  lemma JoinGlued(x: string, y: string, rest: seq<string>, sep: string)
    ensures Join([x + sep + y] + rest, sep) == x + sep + Join([y] + rest, sep)
  {
    if rest != [] {
      assert ([x + sep + y] + rest)[1..] == rest;
      assert ([y] + rest)[1..] == rest;
    }
  }

  function DigitChar(d: int): char
    requires 0 <= d < 10
  {
    ('0' as int + d) as char
  }

  /** `String(n)` for a natural number: its decimal digits, most significant first, no leading zeros. */
  function NatToString(n: nat): (r: string)
    ensures |r| >= 1
    ensures forall k :: 0 <= k < |r| ==> IsDigit(r[k])
    ensures n < 10 <==> |r| == 1
  {
    if n < 10 then [DigitChar(n)] else NatToString(n / 10) + [DigitChar(n % 10)]
  }

  function DigitValue(c: char): int
    requires IsDigit(c)
  {
    c as int - '0' as int
  }

  /** `parseInt(s, 10)` for a string made only of decimal digits. */
  function ParseDigits(s: string): (r: nat)
    requires forall k :: 0 <= k < |s| ==> IsDigit(s[k])
  {
    if s == [] then 0 else ParseDigits(s[..|s| - 1]) * 10 + DigitValue(s[|s| - 1])
  }

  /** Reading back the decimal text of a number gives the number. */
  lemma {:induction false} ParseNatToString(n: nat)
    ensures ParseDigits(NatToString(n)) == n
  {
    if n >= 10 {
      ParseNatToString(n / 10);
      var r := NatToString(n);
      assert r[..|r| - 1] == NatToString(n / 10);
    }
  }
}
