/**
 * The JavaScript string operations the pages rely on: `toLowerCase` (ASCII only),
 * `includes`, `startsWith`, `trim` and `replace(/\s+/g, '-')`.
 */
module Text {

  /**
   * The characters that JavaScript's `\s` class and `String.prototype.trim` treat as
   * white space: tab to carriage return, space, no-break space, ogham space mark, the
   * spaces U+2000 to U+200A, the line and paragraph separators, narrow no-break space,
   * medium mathematical space, ideographic space and the byte order mark.
   */
  predicate IsWhitespace(c: char)
  {
    || '\t' <= c <= '\r'
    || c == ' '
    || c == '\U{00A0}'
    || c == '\U{1680}'
    || '\U{2000}' <= c <= '\U{200A}'
    || c == '\U{2028}' || c == '\U{2029}'
    || c == '\U{202F}' || c == '\U{205F}'
    || c == '\U{3000}' || c == '\U{FEFF}'
  }

  predicate AllWhitespace(s: string)
  {
    forall i :: 0 <= i < |s| ==> IsWhitespace(s[i])
  }

  predicate NoWhitespace(s: string)
  {
    forall i :: 0 <= i < |s| ==> !IsWhitespace(s[i])
  }

  /** `toLowerCase` restricted to ASCII: 'A'..'Z' become 'a'..'z', every other character is kept. */
  function LowerChar(c: char): char
  {
    if 'A' <= c <= 'Z' then (c as int + 32) as char else c
  }

  function Lower(s: string): (r: string)
    ensures |r| == |s|
    ensures forall i :: 0 <= i < |s| ==> r[i] == LowerChar(s[i])
  {
    seq(|s|, i requires 0 <= i < |s| => LowerChar(s[i]))
  }

  /** `needle` occurs in `hay` starting at position `i`. */
  predicate OccursAt(hay: string, needle: string, i: int)
  {
    0 <= i && i + |needle| <= |hay| && hay[i..i + |needle|] == needle
  }

  /** `hay.includes(needle)`. */
  predicate Includes(hay: string, needle: string)
  {
    exists i :: 0 <= i <= |hay| - |needle| && OccursAt(hay, needle, i)
  }

  /** `s.startsWith(prefix)`. */
  predicate StartsWith(s: string, prefix: string)
  {
    |prefix| <= |s| && s[..|prefix|] == prefix
  }

  /** The first index at or after `i` that does not hold white space, or `|s|`. */
  function SkipLeading(s: string, i: nat): (r: nat)
    requires i <= |s|
    ensures i <= r <= |s|
    ensures forall k :: i <= k < r ==> IsWhitespace(s[k])
    ensures r < |s| ==> !IsWhitespace(s[r])
    decreases |s| - i
  {
    if i < |s| && IsWhitespace(s[i]) then SkipLeading(s, i + 1) else i
  }

  /** The end of `s[a..j]` once its trailing white space is cut off. */
  function SkipTrailing(s: string, a: nat, j: nat): (r: nat)
    requires a <= j <= |s|
    ensures a <= r <= j
    ensures forall k :: r <= k < j ==> IsWhitespace(s[k])
    ensures r > a ==> !IsWhitespace(s[r - 1])
  {
    if j > a && IsWhitespace(s[j - 1]) then SkipTrailing(s, a, j - 1) else j
  }

  /** `trim`: the text between the leading and the trailing white space. */
  function Trim(s: string): string
  {
    var a := SkipLeading(s, 0);
    s[a..SkipTrailing(s, a, |s|)]
  }

  /** `replace(/\s+/g, '-')`: every maximal run of white space becomes one '-'. */
  function ReplaceWhitespaceRuns(s: string): string
  {
    ReplaceRunsFrom(s, false)
  }

  /**
   * The same replacement, scanning left to right; `inRun` says whether the
   * character before `s` was white space (its run has already produced its '-').
   */
  function ReplaceRunsFrom(s: string, inRun: bool): (r: string)
    ensures |r| <= |s|
  {
    if s == [] then [] else Piece(s[0], inRun) + ReplaceRunsFrom(s[1..], IsWhitespace(s[0]))
  }

  /** What one character contributes: itself, or for white space a '-' unless its run has already begun. */
  function Piece(c: char, inRun: bool): string
  {
    if !IsWhitespace(c) then [c] else if inRun then [] else "-"
  }

  /** Whether the scan is inside a run of white space after reading `x`. */
  function EndsInRun(x: string, inRun: bool): bool
  {
    if x == [] then inRun else IsWhitespace(x[|x| - 1])
  }

  // ---------------------------------------------------------------------
  // Lemmas
  // ---------------------------------------------------------------------

  /** Lower-casing twice is lower-casing once. */
  lemma LowerIdempotent(s: string)
    ensures Lower(Lower(s)) == Lower(s)
  {
    assert forall i :: 0 <= i < |s| ==> LowerChar(LowerChar(s[i])) == LowerChar(s[i]);
  }

  /** Lower-casing commutes with taking a slice. */
  lemma LowerSlice(s: string, i: nat, j: nat)
    requires i <= j <= |s|
    ensures Lower(s)[i..j] == Lower(s[i..j])
  {
  }

  /** Every string includes the empty string. */
  lemma IncludesEmpty(hay: string)
    ensures Includes(hay, "")
  {
    assert OccursAt(hay, "", 0);
  }

  /** An exact occurrence is also an occurrence once both sides are lower-cased. */
  lemma IncludesLower(hay: string, needle: string)
    requires Includes(hay, needle)
    ensures Includes(Lower(hay), Lower(needle))
  {
    var i :| 0 <= i <= |hay| - |needle| && OccursAt(hay, needle, i);
    LowerSlice(hay, i, i + |needle|);
    assert OccursAt(Lower(hay), Lower(needle), i);
  }

  /** Trimming white space leaves nothing exactly when the text is all white space. */
  lemma TrimEmptyIffBlank(s: string)
    ensures Trim(s) == [] <==> AllWhitespace(s)
  {
    var a := SkipLeading(s, 0);
    var b := SkipTrailing(s, a, |s|);
    if Trim(s) == [] {
      assert a == b;
    }
  }

  /** The trimmed text is a contiguous part of the input with only white space cut off either side. */
  lemma TrimIsInnerSlice(s: string)
    ensures exists a, b :: 0 <= a <= b <= |s| && Trim(s) == s[a..b] &&
                           AllWhitespace(s[..a]) && AllWhitespace(s[b..])
    ensures Trim(s) == [] || (!IsWhitespace(Trim(s)[0]) && !IsWhitespace(Trim(s)[|Trim(s)| - 1]))
  {
    var a := SkipLeading(s, 0);
    var b := SkipTrailing(s, a, |s|);
    assert AllWhitespace(s[..a]) by {
      forall k | 0 <= k < a ensures IsWhitespace(s[..a][k]) {
        assert s[..a][k] == s[k];
      }
    }
    assert AllWhitespace(s[b..]) by {
      forall k | 0 <= k < |s| - b ensures IsWhitespace(s[b..][k]) {
        assert s[b..][k] == s[b + k];
      }
    }
    if a < b {
      assert Trim(s)[0] == s[a];
      assert Trim(s)[|Trim(s)| - 1] == s[b - 1];
    }
  }

  /** Trimming is idempotent. */
  lemma TrimIdempotent(s: string)
    ensures Trim(Trim(s)) == Trim(s)
  {
    var t := Trim(s);
    TrimIsInnerSlice(s);
    assert SkipLeading(t, 0) == 0;
    assert SkipTrailing(t, 0, |t|) == |t|;
    assert t[0..|t|] == t;
  }

  /** The scan of `x + y` is the scan of `x` followed by the scan of `y` from where `x` left off. */
  lemma {:induction false} ReplaceRunsAppend(x: string, y: string, inRun: bool)
    ensures ReplaceRunsFrom(x + y, inRun) == ReplaceRunsFrom(x, inRun) + ReplaceRunsFrom(y, EndsInRun(x, inRun))
  {
    if x == [] {
      assert x + y == y;
    } else {
      assert (x + y)[0] == x[0];
      assert (x + y)[1..] == x[1..] + y;
      var next := IsWhitespace(x[0]);
      ReplaceRunsAppend(x[1..], y, next);
      assert EndsInRun(x[1..], next) == EndsInRun(x, inRun);
      var p := Piece(x[0], inRun);
      calc {
        ReplaceRunsFrom(x + y, inRun);
        p + ReplaceRunsFrom(x[1..] + y, next);
        p + (ReplaceRunsFrom(x[1..], next) + ReplaceRunsFrom(y, EndsInRun(x, inRun)));
        { ConcatAssoc(p, ReplaceRunsFrom(x[1..], next), ReplaceRunsFrom(y, EndsInRun(x, inRun))); }
        (p + ReplaceRunsFrom(x[1..], next)) + ReplaceRunsFrom(y, EndsInRun(x, inRun));
      }
    }
  }

  lemma ConcatAssoc(a: string, b: string, c: string)
    ensures a + (b + c) == (a + b) + c
  {
  }

  /** The result has no white space, and each of its characters is a '-' or a character of the input. */
  lemma {:induction false} ReplaceRunsChars(s: string, inRun: bool)
    ensures NoWhitespace(ReplaceRunsFrom(s, inRun))
    ensures forall i :: 0 <= i < |ReplaceRunsFrom(s, inRun)| ==>
              ReplaceRunsFrom(s, inRun)[i] == '-' || ReplaceRunsFrom(s, inRun)[i] in s
  {
    if s != [] {
      ReplaceRunsChars(s[1..], IsWhitespace(s[0]));
      var rest := ReplaceRunsFrom(s[1..], IsWhitespace(s[0]));
      var head := Piece(s[0], inRun);
      forall i | 0 <= i < |head + rest|
        ensures !IsWhitespace((head + rest)[i]) && ((head + rest)[i] == '-' || (head + rest)[i] in s)
      {
        if i >= |head| {
          assert (head + rest)[i] == rest[i - |head|];
          assert rest[i - |head|] == '-' || rest[i - |head|] in s[1..];
        }
      }
    }
  }

  /** A non-empty run of white space yields one '-', or nothing if the run had already begun. */
  lemma {:induction false} ReplaceRunsBlank(w: string, inRun: bool)
    requires w != [] && AllWhitespace(w)
    ensures ReplaceRunsFrom(w, inRun) == if inRun then [] else "-"
  {
    if |w| > 1 {
      ReplaceRunsBlank(w[1..], true);
    }
  }

  /** Text without white space is kept as is. */
  lemma {:induction false} ReplaceRunsNoWhitespace(s: string)
    requires NoWhitespace(s)
    ensures ReplaceWhitespaceRuns(s) == s
  {
    if s != [] {
      ReplaceRunsNoWhitespace(s[1..]);
    }
  }

  /**
   * A maximal run `w` of white space between `a` and `b` becomes exactly one '-'
   * and the text on either side is handled independently.
   */
  lemma ReplaceRunsSplit(a: string, w: string, b: string)
    requires w != [] && AllWhitespace(w)
    requires a == [] || !IsWhitespace(a[|a| - 1])
    requires b == [] || !IsWhitespace(b[0])
    ensures ReplaceWhitespaceRuns(a + w + b) == ReplaceWhitespaceRuns(a) + "-" + ReplaceWhitespaceRuns(b)
  {
    ReplaceRunsAppend(a + w, b, false);
    ReplaceRunsAppend(a, w, false);
    ReplaceRunsBlank(w, false);
    assert (a + w)[|a + w| - 1] == w[|w| - 1];
    assert ReplaceRunsFrom(b, true) == ReplaceRunsFrom(b, false);
  }
}
