/**
 * The string operations the core relies on: Java's `String.trim()`, JavaScript's
 * `String.prototype.trim()` and `\s`, SQL `lower()` and `LIKE`.
 */
module Text {

  /** `String.trim()` in Java strips every code point up to U+0020. */
  predicate IsJavaSpace(c: char) {
    c as int <= 0x20
  }

  /** The JavaScript WhiteSpace and LineTerminator code points, which both `trim()` and `\s` use. */
  predicate IsJsSpace(c: char) {
    var n := c as int;
    n == 0x09 || n == 0x0A || n == 0x0B || n == 0x0C || n == 0x0D || n == 0x20
    || n == 0xA0 || n == 0x1680 || (0x2000 <= n <= 0x200A)
    || n == 0x2028 || n == 0x2029 || n == 0x202F || n == 0x205F || n == 0x3000 || n == 0xFEFF
  }

  /** Drops the leading characters that satisfy `space`. */
  function TrimStart(s: string, space: char -> bool): (r: string)
    ensures |r| <= |s|
    ensures forall i :: 0 <= i < |s| - |r| ==> space(s[i])
    ensures r == [] || !space(r[0])
  {
    if s != [] && space(s[0]) then TrimStart(s[1..], space) else s
  }

  /** What `TrimStart` keeps is a suffix of its input. */
  lemma {:induction false} TrimStartIsSuffix(s: string, space: char -> bool)
    ensures TrimStart(s, space) == s[|s| - |TrimStart(s, space)|..]
  {
    if s != [] && space(s[0]) {
      TrimStartIsSuffix(s[1..], space);
      assert s[1..][|s| - 1 - |TrimStart(s, space)|..] == s[|s| - |TrimStart(s, space)|..];
    }
  }

  /** Drops the trailing characters that satisfy `space`. */
  function TrimEnd(s: string, space: char -> bool): (r: string)
    ensures |r| <= |s|
    ensures forall i :: |r| <= i < |s| ==> space(s[i])
    ensures r == [] || !space(r[|r| - 1])
  {
    if s != [] && space(s[|s| - 1]) then TrimEnd(s[..|s| - 1], space) else s
  }

  /** What `TrimEnd` keeps is a prefix of its input. */
  lemma {:induction false} TrimEndIsPrefix(s: string, space: char -> bool)
    ensures TrimEnd(s, space) == s[..|TrimEnd(s, space)|]
  {
    if s != [] && space(s[|s| - 1]) {
      TrimEndIsPrefix(s[..|s| - 1], space);
      assert s[..|s| - 1][..|TrimEnd(s, space)|] == s[..|TrimEnd(s, space)|];
    }
  }

  /** Both ends stripped: neither end of the result is a space. */
  function Trim(s: string, space: char -> bool): (r: string)
    ensures |r| <= |s|
    ensures r == [] || (!space(r[0]) && !space(r[|r| - 1]))
  {
    var t := TrimStart(s, space);
    TrimEndIsPrefix(t, space);
    TrimEnd(t, space)
  }

  /** Only spaces are removed: the trimmed string occurs in the original. */
  lemma TrimInside(s: string, space: char -> bool)
    ensures ContainsSubstring(s, Trim(s, space))
  {
    var t := TrimStart(s, space);
    var r := TrimEnd(t, space);
    TrimStartIsSuffix(s, space);
    TrimEndIsPrefix(t, space);
    assert OccursAt(s, r, |s| - |t|);
  }

  /** The trimmed string is empty exactly when every character is a space. */
  lemma TrimEmpty(s: string, space: char -> bool)
    ensures Trim(s, space) == [] <==> forall i :: 0 <= i < |s| ==> space(s[i])
  {
    var t := TrimStart(s, space);
    TrimStartIsSuffix(s, space);
    if Trim(s, space) == [] {
      forall i | 0 <= i < |s|
        ensures space(s[i])
      {
        if i >= |s| - |t| {
          assert s[i] == t[i - (|s| - |t|)];
        }
      }
    }
  }

  /** SQL `lower()`, for the ASCII letters. */
  function Lower(s: string): (r: string)
    ensures |r| == |s|
    ensures forall i :: 0 <= i < |s| ==> r[i] == LowerChar(s[i])
  {
    seq(|s|, i requires 0 <= i < |s| => LowerChar(s[i]))
  }

  function LowerChar(c: char): char {
    if 'A' <= c <= 'Z' then (c as int + 32) as char else c
  }

  /** SQL `s LIKE p` without an ESCAPE clause: `%` matches any run of characters, `_` any one. */
  function Like(s: string, p: string): bool
    decreases |s| + |p|
  {
    if p == [] then s == []
    else if p[0] == '%' then Like(s, p[1..]) || (s != [] && Like(s[1..], p))
    else s != [] && (p[0] == '_' || p[0] == s[0]) && Like(s[1..], p[1..])
  }

  predicate NoWildcards(k: string) {
    forall i :: 0 <= i < |k| ==> k[i] != '%' && k[i] != '_'
  }

  /** `k` occurs in `s` starting at index `i`. */
  predicate OccursAt(s: string, k: string, i: nat) {
    i + |k| <= |s| && s[i..i + |k|] == k
  }

  ghost predicate ContainsSubstring(s: string, k: string) {
    exists i: nat :: OccursAt(s, k, i)
  }

  /** A trailing `%` matches whatever is left. */
  lemma {:induction false} LikeAnySuffix(s: string)
    ensures Like(s, "%")
  {
    assert "%"[1..] == [];
    if s != [] {
      LikeAnySuffix(s[1..]);
    }
  }

  /** A literal pattern prefix must match the string's prefix character for character. */
  lemma {:induction false} LikeLiteralPrefix(s: string, k: string, q: string)
    requires NoWildcards(k)
    ensures Like(s, k + q) <==> |k| <= |s| && s[..|k|] == k && Like(s[|k|..], q)
    decreases |k|
  {
    if k == [] {
      assert k + q == q;
      assert s[0..] == s;
    } else {
      assert (k + q)[0] == k[0];
      assert (k + q)[1..] == k[1..] + q;
      if s != [] {
        LikeLiteralPrefix(s[1..], k[1..], q);
        if |k| <= |s| {
          assert s[1..][|k| - 1..] == s[|k|..];
          assert s[..|k|] == [s[0]] + s[1..][..|k| - 1];
        }
      }
    }
  }

  /** A leading `%` lets the rest of the pattern match any suffix. */
  lemma {:induction false} LikeLeadingPercent(s: string, q: string)
    ensures Like(s, "%" + q) <==> exists i :: 0 <= i <= |s| && Like(s[i..], q)
    decreases |s|
  {
    var p := "%" + q;
    assert p[0] == '%' && p[1..] == q;
    if s == [] {
      assert s[0..] == s;
    } else {
      LikeLeadingPercent(s[1..], q);
      if Like(s, p) {
        if !Like(s, q) {
          var i :| 0 <= i <= |s[1..]| && Like(s[1..][i..], q);
          assert s[1..][i..] == s[i + 1..];
        } else {
          assert s[0..] == s;
        }
      } else {
        forall i | 0 <= i <= |s|
          ensures !Like(s[i..], q)
        {
          if i > 0 {
            assert s[i..] == s[1..][i - 1..];
          } else {
            assert s[0..] == s;
          }
        }
      }
    }
  }

  /** `s LIKE '%' || k || '%'` is substring search when `k` holds no wildcard. */
  lemma LikeContains(s: string, k: string)
    requires NoWildcards(k)
    ensures Like(s, "%" + k + "%") <==> ContainsSubstring(s, k)
  {
    assert "%" + k + "%" == "%" + (k + "%");
    LikeLeadingPercent(s, k + "%");
    if Like(s, "%" + k + "%") {
      var i :| 0 <= i <= |s| && Like(s[i..], k + "%");
      LikeLiteralPrefix(s[i..], k, "%");
      assert s[i..][..|k|] == s[i..i + |k|];
      assert OccursAt(s, k, i);
    }
    if ContainsSubstring(s, k) {
      var i: nat :| OccursAt(s, k, i);
      LikeLiteralPrefix(s[i..], k, "%");
      assert s[i..][..|k|] == s[i..i + |k|];
      LikeAnySuffix(s[i..][|k|..]);
    }
  }
}
