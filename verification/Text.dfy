/** The string operations of the Rust standard library that the modelled code relies on. */
module Text {

  predicate OccursAt(haystack: string, needle: string, k: nat) {
    k + |needle| <= |haystack| && haystack[k..k + |needle|] == needle
  }

  /** `haystack.contains(needle)`. */
  predicate Contains(haystack: string, needle: string) {
    exists k: nat | k <= |haystack| :: OccursAt(haystack, needle, k)
  }

  /** `s.replace(pattern, replacement)`: one left-to-right pass over non-overlapping matches. */
  function ReplaceAll(s: string, pattern: string, replacement: string): string
    requires pattern != ""
    decreases |s|
  {
    if |s| < |pattern| then s
    else if s[..|pattern|] == pattern then
      replacement + ReplaceAll(s[|pattern|..], pattern, replacement)
    else
      [s[0]] + ReplaceAll(s[1..], pattern, replacement)
  }

  /** `parts.join(separator)`. */
  function Join(parts: seq<string>, separator: string): string {
    if |parts| == 0 then ""
    else if |parts| == 1 then parts[0]
    else parts[0] + separator + Join(parts[1..], separator)
  }

  lemma OccursInTail(s: string, pattern: string, k: nat)
    requires s != ""
    ensures OccursAt(s[1..], pattern, k) == OccursAt(s, pattern, k + 1)
  {
    if k + 1 + |pattern| <= |s| {
      assert s[1..][k..k + |pattern|] == s[k + 1..k + 1 + |pattern|];
    }
  }

  lemma AbsentCharacter(s: string, pattern: string, j: nat)
    requires j < |pattern| && pattern[j] !in s
    ensures !Contains(s, pattern)
  {
    forall k: nat | k <= |s| ensures !OccursAt(s, pattern, k) {
      if k + |pattern| <= |s| {
        assert s[k..k + |pattern|][j] == s[k + j];
      }
    }
  }

  /** Replacing a pattern that does not occur changes nothing. */
  lemma {:induction false} ReplaceAbsent(s: string, pattern: string, replacement: string)
    requires pattern != ""
    requires !Contains(s, pattern)
    ensures ReplaceAll(s, pattern, replacement) == s
    decreases |s|
  {
    if |s| >= |pattern| {
      assert !OccursAt(s, pattern, 0);
      forall k: nat | k <= |s[1..]| ensures !OccursAt(s[1..], pattern, k) {
        OccursInTail(s, pattern, k);
      }
      ReplaceAbsent(s[1..], pattern, replacement);
    }
  }

  /** A pattern that occurs once is replaced where it stands, whatever the replacement contains. */
  lemma {:induction false} ReplaceSingle(pre: string, pattern: string, post: string, replacement: string)
    requires pattern != ""
    requires forall k: nat | k < |pre| :: !OccursAt(pre + pattern + post, pattern, k)
    requires !Contains(post, pattern)
    ensures ReplaceAll(pre + pattern + post, pattern, replacement) == pre + replacement + post
    decreases |pre|
  {
    var s := pre + pattern + post;
    if pre == "" {
      assert s[..|pattern|] == pattern && s[|pattern|..] == post;
      ReplaceAbsent(post, pattern, replacement);
      assert pre + replacement + post == replacement + post;
    } else {
      assert !OccursAt(s, pattern, 0);
      var rest := pre[1..] + pattern + post;
      assert s[1..] == rest;
      forall k: nat | k < |pre[1..]| ensures !OccursAt(rest, pattern, k) {
        OccursInTail(s, pattern, k);
      }
      ReplaceSingle(pre[1..], pattern, post, replacement);
      assert [s[0]] + (pre[1..] + replacement + post) == pre + replacement + post;
    }
  }

  /** Text that the pattern's first character does not occur in is passed over. */
  lemma {:induction false} ReplaceSkips(pre: string, rest: string, pattern: string, replacement: string)
    requires pattern != "" && pattern[0] !in pre
    ensures ReplaceAll(pre + rest, pattern, replacement) == pre + ReplaceAll(rest, pattern, replacement)
  {
    if pre == "" {
      assert pre + rest == rest;
    } else {
      hide ReplaceAll;
      var s := pre + rest;
      assert s[1..] == pre[1..] + rest;
      ReplaceSkips(pre[1..], rest, pattern, replacement);
      ReplaceFirst(s, pattern, replacement);
      assert pre == [pre[0]] + pre[1..];
    }
  }

  lemma ReplaceFirst(s: string, pattern: string, replacement: string)
    requires s != "" && pattern != "" && s[0] != pattern[0]
    ensures ReplaceAll(s, pattern, replacement) == [s[0]] + ReplaceAll(s[1..], pattern, replacement)
  {
    if |s| >= |pattern| {
      assert s[..|pattern|][0] == s[0];
    } else {
      assert s == [s[0]] + s[1..];
    }
  }

  /** Every one of the occurrences between the parts is replaced. */
  lemma {:induction false} ReplaceJoined(parts: seq<string>, pattern: string, replacement: string)
    requires pattern != "" && forall p | p in parts :: pattern[0] !in p
    ensures ReplaceAll(Join(parts, pattern), pattern, replacement) == Join(parts, replacement)
  {
    if |parts| == 1 {
      assert parts[0] + "" == parts[0];
      ReplaceSkips(parts[0], "", pattern, replacement);
    } else if |parts| > 1 {
      var rest := Join(parts[1..], pattern);
      ReplaceJoined(parts[1..], pattern, replacement);
      assert parts[0] + pattern + rest == parts[0] + (pattern + rest);
      ReplaceSkips(parts[0], pattern + rest, pattern, replacement);
      assert (pattern + rest)[..|pattern|] == pattern && (pattern + rest)[|pattern|..] == rest;
      assert parts[0] + replacement + Join(parts[1..], replacement) == parts[0] + (replacement + Join(parts[1..], replacement));
    }
  }

  // ---- Bytes ---------------------------------------------------------------------------------------------------------

  /** The UTF-8 form of a character (RFC 3629, section 3). */
  function Encode(c: char): (r: seq<nat>)
    ensures 1 <= |r| <= 4 && forall b | b in r :: b < 256
  {
    var n := c as nat;
    if n < 0x80 then [n]
    else if n < 0x800 then [0xC0 + n / 64, 0x80 + n % 64]
    else if n < 0x1_0000 then [0xE0 + n / 64 / 64, 0x80 + n / 64 % 64, 0x80 + n % 64]
    else [0xF0 + n / 64 / 64 / 64, 0x80 + n / 64 / 64 % 64, 0x80 + n / 64 % 64, 0x80 + n % 64]
  }

  function Utf8(s: string): seq<nat> {
    if s == "" then [] else Encode(s[0]) + Utf8(s[1..])
  }

  lemma FirstEncoded(c: char, d: char, x: seq<nat>, y: seq<nat>)
    requires Encode(c) + x == Encode(d) + y
    ensures c == d && x == y
  {
    var a, b := Encode(c), Encode(d);
    assert a[0] == (a + x)[0] == (b + y)[0] == b[0];
    assert |a| == |b|;
    assert a == (a + x)[..|a|] == (b + y)[..|a|] == b;
    assert x == (a + x)[|a|..] == (b + y)[|a|..] == y;
    SameCode(c, d);
  }

  lemma SameCode(c: char, d: char)
    requires Encode(c) == Encode(d)
    ensures c == d
  {
    var n, m := c as nat, d as nat;
    var a, b := Encode(c), Encode(d);
    assert a[0] == b[0] && a[|a| - 1] == b[|b| - 1];
    if |a| == 3 {
      assert a[1] == b[1];
      assert n / 64 == m / 64;
    } else if |a| == 4 {
      assert a[1] == b[1] && a[2] == b[2];
      assert n / 64 / 64 == m / 64 / 64;
      assert n / 64 == m / 64;
    }
    assert n == m;
  }

  /** The encoding loses nothing. */
  lemma {:induction false} Utf8Injective(a: string, b: string)
    requires Utf8(a) == Utf8(b)
    ensures a == b
  {
    if a != "" && b != "" {
      FirstEncoded(a[0], b[0], Utf8(a[1..]), Utf8(b[1..]));
      Utf8Injective(a[1..], b[1..]);
      assert a == [a[0]] + a[1..] && b == [b[0]] + b[1..];
    }
  }
}
