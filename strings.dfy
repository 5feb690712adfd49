/** String helpers shared by the model: the JavaScript string operations the
    application relies on (`startsWith`, `includes`, `trim`, `toLowerCase`,
    `replace` with a string pattern, `split`), over `seq<char>`. */
module Strings {

  /** `s.startsWith(p)` */
  predicate StartsWith(s: string, p: string)
  {
    |p| <= |s| && s[..|p|] == p
  }

  /** `p` occurs in `s` starting at index `i`. */
  predicate OccursAt(s: string, p: string, i: nat)
  {
    i + |p| <= |s| && s[i..i + |p|] == p
  }

  /** `s.includes(p)` */
  predicate Contains(s: string, p: string)
  {
    exists i: nat | i <= |s| :: OccursAt(s, p, i)
  }

  // ---------------------------------------------------------------------------
  // trim

  /** The characters `String.prototype.trim` removes: ECMAScript WhiteSpace and
      LineTerminator code points. */
  predicate IsJsWhitespace(c: char)
  {
    var n := c as int;
    (0x09 <= n <= 0x0D) || n == 0x20 || n == 0xA0 || n == 0x1680 ||
    (0x2000 <= n <= 0x200A) || n == 0x2028 || n == 0x2029 || n == 0x202F ||
    n == 0x205F || n == 0x3000 || n == 0xFEFF
  }

  predicate AllWhitespace(s: string)
  {
    forall i | 0 <= i < |s| :: IsJsWhitespace(s[i])
  }

  function TrimStart(s: string): (r: string)
    ensures |r| <= |s| && r == s[|s| - |r|..]
    ensures r == [] || !IsJsWhitespace(r[0])
  {
    if |s| > 0 && IsJsWhitespace(s[0]) then TrimStart(s[1..]) else s
  }

  function TrimEnd(s: string): (r: string)
    ensures |r| <= |s| && r == s[..|r|]
    ensures r == [] || !IsJsWhitespace(r[|r| - 1])
  {
    if |s| > 0 && IsJsWhitespace(s[|s| - 1]) then TrimEnd(s[..|s| - 1]) else s
  }

  /** What `TrimStart` removes is white space. */
  lemma {:induction false} TrimStartDropsWhitespace(s: string)
    ensures AllWhitespace(s[..|s| - |TrimStart(s)|])
  {
    if |s| > 0 && IsJsWhitespace(s[0]) {
      TrimStartDropsWhitespace(s[1..]);
      var k := |s| - |TrimStart(s)|;
      forall i | 0 <= i < k ensures IsJsWhitespace(s[i]) {
        if i > 0 {
          assert s[1..][..k - 1][i - 1] == s[i];
        }
      }
    }
  }

  /** What `TrimEnd` removes is white space. */
  lemma {:induction false} TrimEndDropsWhitespace(s: string)
    ensures AllWhitespace(s[|TrimEnd(s)|..])
  {
    if |s| > 0 && IsJsWhitespace(s[|s| - 1]) {
      var p := s[..|s| - 1];
      TrimEndDropsWhitespace(p);
      var k := |TrimEnd(s)|;
      forall i | k <= i < |s| ensures IsJsWhitespace(s[i]) {
        if i < |s| - 1 {
          assert p[k..][i - k] == s[i];
        }
      }
    }
  }

  /** `s.trim()` */
  function Trim(s: string): string
  {
    TrimEnd(TrimStart(s))
  }

  /** `!s.trim()`: the trimmed text is empty exactly when every character is
      white space. */
  lemma {:induction false} TrimEmptyIffBlank(s: string)
    ensures Trim(s) == [] <==> AllWhitespace(s)
  {
    var t := TrimStart(s);
    if Trim(s) == [] {
      TrimStartDropsWhitespace(s);
      TrimEndDropsWhitespace(t);
      assert t[|TrimEnd(t)|..] == t;
      assert t == [];
      assert s[..|s|] == s;
    } else if AllWhitespace(s) {
      BlankTrimsToEmpty(s);
    }
  }

  lemma {:induction false} BlankTrimsToEmpty(s: string)
    requires AllWhitespace(s)
    ensures TrimStart(s) == []
  {
    if s != [] {
      assert AllWhitespace(s[1..]) by {
        forall i | 0 <= i < |s| - 1 ensures IsJsWhitespace(s[1..][i]) {
          assert s[1..][i] == s[i + 1];
        }
      }
      BlankTrimsToEmpty(s[1..]);
    }
  }

  /** Trimming twice is trimming once. */
  lemma TrimIdempotent(s: string)
    ensures Trim(Trim(s)) == Trim(s)
  {
    var t := TrimStart(s);
    var r := TrimEnd(t);
    if r != [] {
      assert r[0] == t[0];
      assert TrimStart(r) == r;
    }
  }

  /** Trimming keeps the text between the first and last non-blank
      characters: the result is a contiguous slice of the input. */
  lemma TrimIsSlice(s: string)
    ensures exists i, j :: 0 <= i <= j <= |s| && Trim(s) == s[i..j]
  {
    var t := TrimStart(s);
    var k := |s| - |t|;
    assert Trim(s) == s[k..k + |TrimEnd(t)|];
  }

  // ---------------------------------------------------------------------------
  // toLowerCase

  /** `toLowerCase` restricted to ASCII letters; other characters are kept. */
  function LowerChar(c: char): char
  {
    if 'A' <= c <= 'Z' then (c as int + 32) as char else c
  }

  function ToLower(s: string): (r: string)
    ensures |r| == |s|
    ensures forall i | 0 <= i < |s| :: r[i] == LowerChar(s[i])
  {
    if s == [] then [] else [LowerChar(s[0])] + ToLower(s[1..])
  }

  predicate HasNoAsciiLetter(p: string)
  {
    forall i | 0 <= i < |p| :: !('A' <= p[i] <= 'Z') && !('a' <= p[i] <= 'z')
  }

  /** Lower-casing the haystack does not change whether a pattern without
      ASCII letters occurs in it. */
  lemma LowerKeepsCaselessMatch(s: string, p: string)
    requires HasNoAsciiLetter(p)
    ensures Contains(ToLower(s), p) <==> Contains(s, p)
  {
    var l := ToLower(s);
    forall i: nat | i <= |s| ensures OccursAt(l, p, i) <==> OccursAt(s, p, i) {
      if i + |p| <= |s| {
        if OccursAt(l, p, i) {
          forall k | 0 <= k < |p| ensures s[i + k] == p[k] {
            assert l[i + k] == p[k];
          }
          assert s[i..i + |p|] == p;
        }
        if OccursAt(s, p, i) {
          forall k | 0 <= k < |p| ensures l[i + k] == p[k] {
            assert s[i + k] == p[k];
          }
          assert l[i..i + |p|] == p;
        }
      }
    }
    if Contains(l, p) {
      var i: nat :| i <= |l| && OccursAt(l, p, i);
      assert OccursAt(s, p, i);
    }
    if Contains(s, p) {
      var i: nat :| i <= |s| && OccursAt(s, p, i);
      assert OccursAt(l, p, i);
    }
  }

  // ---------------------------------------------------------------------------
  // replace (string pattern) and split

  /** `s.replace(pat, rep)` with a string pattern: only the FIRST occurrence is
      replaced, wherever it is; without an occurrence `s` is returned. */
  function ReplaceFirst(s: string, pat: string, rep: string): string
    decreases |s|
  {
    if StartsWith(s, pat) then rep + s[|pat|..]
    else if s == [] then []
    else [s[0]] + ReplaceFirst(s[1..], pat, rep)
  }

  lemma {:induction false} ReplaceFirstWithoutOccurrence(s: string, pat: string, rep: string)
    requires !Contains(s, pat)
    ensures ReplaceFirst(s, pat, rep) == s
    decreases |s|
  {
    assert !OccursAt(s, pat, 0);
    if s != [] {
      if Contains(s[1..], pat) {
        var i: nat :| i <= |s[1..]| && OccursAt(s[1..], pat, i);
        assert s[1..][i..i + |pat|] == s[i + 1..i + 1 + |pat|];
        assert OccursAt(s, pat, i + 1);
      }
      ReplaceFirstWithoutOccurrence(s[1..], pat, rep);
    }
  }

  /** `s.split(sep)` for a one-character separator: never empty. */
  function Split(s: string, sep: char): (r: seq<string>)
    ensures |r| >= 1
  {
    if s == [] then [""]
    else
      var rest := Split(s[1..], sep);
      if s[0] == sep then [""] + rest else [[s[0]] + rest[0]] + rest[1..]
  }

  lemma {:induction false} SplitNoSeparator(s: string, sep: char)
    requires sep !in s
    ensures Split(s, sep) == [s]
  {
    if s != [] {
      assert sep !in s[1..];
      SplitNoSeparator(s[1..], sep);
      assert [s[0]] + s[1..] == s;
    }
  }

  /** Splitting `a + sep + b` gives back the two pieces when neither contains
      the separator. */
  lemma {:induction false} SplitJoin(a: string, b: string, sep: char)
    requires sep !in a && sep !in b
    ensures Split(a + [sep] + b, sep) == [a, b]
  {
    if a == [] {
      assert a + [sep] + b == [sep] + b;
      assert ([sep] + b)[1..] == b;
      SplitNoSeparator(b, sep);
    } else {
      assert (a + [sep] + b)[1..] == a[1..] + [sep] + b;
      assert sep !in a[1..];
      SplitJoin(a[1..], b, sep);
      assert [a[0]] + a[1..] == a;
    }
  }
}
