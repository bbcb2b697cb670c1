/**
 * String primitives with the semantics of the JavaScript calls the program
 * makes: `includes`, `indexOf`, `replace` with a string pattern (first
 * occurrence only), `replace` with a global literal regular expression
 * (every leftmost non-overlapping occurrence), `join`, `split(c)[0]` and
 * ASCII case mapping.
 */
module Text {
  import opened Wrappers

  /** `p` occurs in `s` starting at index `i`. */
  predicate OccursAt(s: string, p: string, i: int)
  {
    0 <= i && i + |p| <= |s| && s[i..i + |p|] == p
  }

  predicate StartsWith(s: string, p: string)
  {
    OccursAt(s, p, 0)
  }

  /** `s.includes(p)`. */
  predicate Contains(s: string, p: string)
  {
    exists i :: 0 <= i <= |s| - |p| && OccursAt(s, p, i)
  }

  /** The first occurrence of `p` in `s` at or after index `k`. */
  function IndexFrom(s: string, p: string, k: nat): (r: Option<nat>)
    ensures r.Some? ==> k <= r.value && OccursAt(s, p, r.value)
    ensures r.Some? ==> forall j :: k <= j < r.value ==> !OccursAt(s, p, j)
    ensures r.None? ==> forall j :: k <= j ==> !OccursAt(s, p, j)
    decreases |s| - k
  {
    if k + |p| > |s| then None
    else if s[k..k + |p|] == p then Some(k)
    else IndexFrom(s, p, k + 1)
  }

  /** `s.indexOf(p)`, with `None` for -1. */
  function IndexOf(s: string, p: string): (r: Option<nat>)
    ensures r.Some? <==> Contains(s, p)
    ensures r.Some? ==> OccursAt(s, p, r.value)
    ensures r.Some? ==> forall j :: 0 <= j < r.value ==> !OccursAt(s, p, j)
  {
    IndexFrom(s, p, 0)
  }

  /** `i` is the first index of `p` in `s`. */
  lemma FirstOccurrence(s: string, p: string, i: nat)
    requires OccursAt(s, p, i)
    requires forall m :: 0 <= m < i ==> !OccursAt(s, p, m)
    ensures IndexOf(s, p) == Some(i)
  {
    assert i <= |s| - |p| && OccursAt(s, p, i);
  }

  /** `s.replace(p, rep)` with a string pattern: only the first occurrence is replaced. */
  function ReplaceFirst(s: string, p: string, rep: string): (r: string)
    ensures !Contains(s, p) ==> r == s
    ensures Contains(s, p) ==>
      var i := IndexOf(s, p).value;
      r == s[..i] + rep + s[i + |p|..]
  {
    match IndexOf(s, p)
    case None => s
    case Some(i) => s[..i] + rep + s[i + |p|..]
  }

  /** Replacing a pattern by itself followed by `tail` inserts `tail` right after its first occurrence. */
  lemma ReplaceFirstAppendsAfter(s: string, p: string, tail: string)
    requires Contains(s, p)
    ensures var n := IndexOf(s, p).value + |p|;
      n <= |s| && ReplaceFirst(s, p, p + tail) == s[..n] + tail + s[n..]
  {
    SpliceAfterOccurrence(s, p, tail, IndexOf(s, p).value);
  }

  /** Splicing `p + tail` over an occurrence of `p` at `i` is inserting `tail` behind it. */
  lemma SpliceAfterOccurrence(s: string, p: string, tail: string, i: nat)
    requires OccursAt(s, p, i)
    ensures s[..i] + (p + tail) + s[i + |p|..] == s[..i + |p|] + tail + s[i + |p|..]
  {
    assert s[..i + |p|] == s[..i] + p by {
      assert s[i..i + |p|] == p;
    }
  }

  /**
   * `s.replace(/p/g, rep)` for a literal pattern: scanning left to right,
   * every occurrence that does not overlap an earlier replaced one is replaced.
   */
  function ReplaceAll(s: string, p: string, rep: string): string
    requires |p| > 0
    decreases |s|
  {
    if |s| == 0 then []
    else if StartsWith(s, p) then rep + ReplaceAll(s[|p|..], p, rep)
    else [s[0]] + ReplaceAll(s[1..], p, rep)
  }

  /** No occurrence of `p` can straddle the seam between `a` and `b`. */
  predicate Apart(a: string, b: string, p: string)
  {
    |a| == 0 || |b| == 0 || a[|a| - 1] !in p || b[0] !in p
  }

  lemma AbsentWithoutFirstChar(s: string, p: string)
    requires |p| > 0 && p[0] !in s
    ensures !Contains(s, p)
  {
    forall i | 0 <= i && i + |p| <= |s|
      ensures s[i..i + |p|][0] == s[i]
    {
    }
  }

  /** Replacing a pattern that does not occur changes nothing. */
  lemma {:induction false} ReplaceAllAbsent(s: string, p: string, rep: string)
    requires |p| > 0 && !Contains(s, p)
    ensures ReplaceAll(s, p, rep) == s
    decreases |s|
  {
    if |s| > 0 {
      assert !OccursAt(s, p, 0);
      forall j | OccursAt(s[1..], p, j)
        ensures OccursAt(s, p, j + 1)
      {
        assert s[1..][j..j + |p|] == s[j + 1..j + 1 + |p|];
      }
      ReplaceAllAbsent(s[1..], p, rep);
    }
  }

  /** A text that starts with the pattern gets the replacement in front. */
  lemma ReplaceAllLeading(p: string, b: string, rep: string)
    requires |p| > 0
    ensures ReplaceAll(p + b, p, rep) == rep + ReplaceAll(b, p, rep)
  {
    assert (p + b)[..|p|] == p;
    assert (p + b)[|p|..] == b;
  }

  /** An occurrence at the front of `a + b` either lies inside `a` or straddles the seam. */
  lemma LeadingOccurrence(a: string, b: string, p: string)
    requires |a| > 0 && |b| > 0
    ensures StartsWith(a + b, p) ==>
      (|p| <= |a| && StartsWith(a, p)) || (a[|a| - 1] in p && b[0] in p)
  {
    if StartsWith(a + b, p) {
      if |p| <= |a| {
        assert a[..|p|] == (a + b)[..|p|];
      } else {
        assert p[|a| - 1] == (a + b)[|a| - 1] == a[|a| - 1];
        assert p[|a|] == (a + b)[|a|] == b[0];
      }
    }
  }

  /** One step of replacement over `a + b` and over `a` when `a` starts with the pattern. */
  lemma ReplaceAllMatchStep(a: string, b: string, p: string, rep: string)
    requires 0 < |p| <= |a| && StartsWith(a, p)
    ensures ReplaceAll(a + b, p, rep) == rep + ReplaceAll(a[|p|..] + b, p, rep)
    ensures ReplaceAll(a, p, rep) == rep + ReplaceAll(a[|p|..], p, rep)
  {
    assert (a + b)[..|p|] == a[..|p|];
    assert (a + b)[|p|..] == a[|p|..] + b;
  }

  /** One step of replacement over `a + b` and over `a` when `a + b` does not start with the pattern. */
  lemma ReplaceAllSkipStep(a: string, b: string, p: string, rep: string)
    requires |p| > 0 && |a| > 0 && !StartsWith(a + b, p)
    ensures ReplaceAll(a + b, p, rep) == [a[0]] + ReplaceAll(a[1..] + b, p, rep)
    ensures ReplaceAll(a, p, rep) == [a[0]] + ReplaceAll(a[1..], p, rep)
  {
    assert (a + b)[0] == a[0];
    assert (a + b)[1..] == a[1..] + b;
    if |p| <= |a| {
      assert (a + b)[..|p|] == a[..|p|];
    }
  }

  /** Dropping a prefix of `a` keeps it apart from `b`. */
  lemma ApartSuffix(a: string, b: string, p: string, k: nat)
    requires Apart(a, b, p) && k <= |a|
    ensures Apart(a[k..], b, p)
  {
    if k < |a| {
      assert a[k..][|a[k..]| - 1] == a[|a| - 1];
    }
  }

  /** Replacement distributes over a seam that no occurrence can straddle. */
  lemma {:induction false} ReplaceAllAppend(a: string, b: string, p: string, rep: string)
    requires |p| > 0 && Apart(a, b, p)
    ensures ReplaceAll(a + b, p, rep) == ReplaceAll(a, p, rep) + ReplaceAll(b, p, rep)
    decreases |a|
  {
    if |a| == 0 {
      assert a + b == b;
    } else if |b| == 0 {
      assert a + b == a;
    } else if StartsWith(a + b, p) {
      LeadingOccurrence(a, b, p);
      var a' := a[|p|..];
      ApartSuffix(a, b, p, |p|);
      calc {
        ReplaceAll(a + b, p, rep);
        == { ReplaceAllMatchStep(a, b, p, rep); }
        rep + ReplaceAll(a' + b, p, rep);
        == { ReplaceAllAppend(a', b, p, rep); }
        rep + (ReplaceAll(a', p, rep) + ReplaceAll(b, p, rep));
        ==
        (rep + ReplaceAll(a', p, rep)) + ReplaceAll(b, p, rep);
        == { ReplaceAllMatchStep(a, b, p, rep); }
        ReplaceAll(a, p, rep) + ReplaceAll(b, p, rep);
      }
    } else {
      var a' := a[1..];
      ApartSuffix(a, b, p, 1);
      calc {
        ReplaceAll(a + b, p, rep);
        == { ReplaceAllSkipStep(a, b, p, rep); }
        [a[0]] + ReplaceAll(a' + b, p, rep);
        == { ReplaceAllAppend(a', b, p, rep); }
        [a[0]] + (ReplaceAll(a', p, rep) + ReplaceAll(b, p, rep));
        ==
        ([a[0]] + ReplaceAll(a', p, rep)) + ReplaceAll(b, p, rep);
        == { ReplaceAllSkipStep(a, b, p, rep); }
        ReplaceAll(a, p, rep) + ReplaceAll(b, p, rep);
      }
    }
  }

  /** A last character that is not part of the pattern survives replacement in place. */
  lemma {:induction false} ReplaceAllKeepsLast(s: string, p: string, rep: string)
    requires |p| > 0 && |s| > 0 && s[|s| - 1] !in p
    ensures var r := ReplaceAll(s, p, rep); |r| > 0 && r[|r| - 1] == s[|s| - 1]
    decreases |s|
  {
    if |p| <= |s| {
      assert s[..|p|][|p| - 1] == s[|p| - 1];
    }
    if StartsWith(s, p) {
      var s' := s[|p|..];
      assert s'[|s'| - 1] == s[|s| - 1];
      ReplaceAllKeepsLast(s', p, rep);
    } else if |s| > 1 {
      var s' := s[1..];
      assert s'[|s'| - 1] == s[|s| - 1];
      ReplaceAllKeepsLast(s', p, rep);
    }
  }

  /** A first character that is not part of the pattern survives replacement in place. */
  lemma ReplaceAllKeepsFirst(s: string, p: string, rep: string)
    requires |p| > 0 && |s| > 0 && s[0] !in p
    ensures var r := ReplaceAll(s, p, rep); |r| > 0 && r[0] == s[0]
  {
    assert s[0] != p[0];
    if |p| <= |s| {
      assert s[..|p|][0] == s[0];
    }
  }

  /** Replacing one character by another maps the text character by character. */
  lemma {:induction false} ReplaceAllChar(s: string, c: char, d: char)
    ensures var r := ReplaceAll(s, [c], [d]);
      |r| == |s| && forall i :: 0 <= i < |s| ==> r[i] == (if s[i] == c then d else s[i])
    decreases |s|
  {
    if |s| > 0 {
      ReplaceAllChar(s[1..], c, d);
      var r := ReplaceAll(s, [c], [d]);
      var t := ReplaceAll(s[1..], [c], [d]);
      if s[0] == c {
        assert s[..1] == [c];
        assert r == [d] + t;
      } else {
        assert s[..1][0] == s[0];
        assert r == [s[0]] + t;
      }
      forall i | 0 <= i < |s|
        ensures r[i] == (if s[i] == c then d else s[i])
      {
        if i > 0 {
          assert r[i] == t[i - 1];
          assert s[1..][i - 1] == s[i];
        }
      }
    }
  }

  /** `xs.join(sep)`. */
  function Join(xs: seq<string>, sep: string): string
  {
    if |xs| == 0 then ""
    else if |xs| == 1 then xs[0]
    else xs[0] + sep + Join(xs[1..], sep)
  }

  /** Appending an element to a non-empty list appends the separator and the element. */
  lemma {:induction false} JoinSnoc(xs: seq<string>, x: string, sep: string)
    requires |xs| > 0
    ensures Join(xs + [x], sep) == Join(xs, sep) + sep + x
    decreases |xs|
  {
    if |xs| == 1 {
      assert xs + [x] == [xs[0], x];
      assert [xs[0], x][1..] == [x];
    } else {
      assert (xs + [x])[1..] == xs[1..] + [x];
      JoinSnoc(xs[1..], x, sep);
    }
  }

  /** The concatenation of all the strings of `xs`, in order. */
  function Concat(xs: seq<string>): string
  {
    if |xs| == 0 then "" else xs[0] + Concat(xs[1..])
  }

  lemma {:induction false} ConcatSnoc(xs: seq<string>, x: string)
    ensures Concat(xs + [x]) == Concat(xs) + x
    decreases |xs|
  {
    if |xs| == 0 {
      assert xs + [x] == [x];
      assert [x][1..] == [];
    } else {
      assert (xs + [x])[1..] == xs[1..] + [x];
      ConcatSnoc(xs[1..], x);
    }
  }

  /** `s.split(c)[0]`: the text before the first `c`, or all of `s`. */
  function BeforeFirst(s: string, c: char): (r: string)
    ensures c !in r
    ensures r <= s
    ensures |r| < |s| ==> s[|r|] == c
  {
    if |s| == 0 || s[0] == c then "" else [s[0]] + BeforeFirst(s[1..], c)
  }

  /** The text before the first `c` is exactly the prefix that ends at the first `c`. */
  lemma {:induction false} BeforeFirstIs(s: string, c: char, k: nat)
    requires k <= |s| && c !in s[..k] && (k == |s| || s[k] == c)
    ensures BeforeFirst(s, c) == s[..k]
    decreases k
  {
    if k > 0 {
      assert s[0] == s[..k][0];
      assert s[1..][..k - 1] == s[1..k];
      assert forall j :: 0 <= j < k - 1 ==> s[1..k][j] == s[..k][j + 1];
      BeforeFirstIs(s[1..], c, k - 1);
      assert s[..k] == [s[0]] + s[1..k];
    }
  }

  /** A character beyond the Basic Multilingual Plane, which UTF-16 stores as a surrogate pair. */
  predicate Astral(c: char)
  {
    c as int >= 0x1_0000
  }

  /** The UTF-16 code units of one character. */
  function Utf16Units(c: char): nat
  {
    if Astral(c) then 2 else 1
  }

  /** `s.length`: the number of UTF-16 code units, one or two per character. */
  function Utf16Length(s: string): (n: nat)
    ensures |s| <= n <= 2 * |s|
  {
    if |s| == 0 then 0 else Utf16Length(s[..|s| - 1]) + Utf16Units(s[|s| - 1])
  }

  /** Without astral characters, the JavaScript length is the character count. */
  lemma {:induction false} Utf16LengthOfBmp(s: string)
    requires forall i :: 0 <= i < |s| ==> !Astral(s[i])
    ensures Utf16Length(s) == |s|
  {
    if |s| > 0 {
      Utf16LengthOfBmp(s[..|s| - 1]);
    }
  }

  /** A text of astral characters only has twice as many code units as characters. */
  lemma {:induction false} Utf16LengthOfAstral(s: string)
    requires forall i :: 0 <= i < |s| ==> Astral(s[i])
    ensures Utf16Length(s) == 2 * |s|
  {
    if |s| > 0 {
      Utf16LengthOfAstral(s[..|s| - 1]);
    }
  }

  /** `String.prototype.toLowerCase` restricted to ASCII letters. */
  function LowerChar(c: char): char
  {
    if 'A' <= c <= 'Z' then (c as int + 32) as char else c
  }

  /** `String.prototype.toUpperCase` restricted to ASCII letters. */
  function UpperChar(c: char): char
  {
    if 'a' <= c <= 'z' then (c as int - 32) as char else c
  }

  function ToLower(s: string): (r: string)
    ensures |r| == |s|
    ensures forall i :: 0 <= i < |s| ==> r[i] == LowerChar(s[i])
  {
    seq(|s|, i requires 0 <= i < |s| => LowerChar(s[i]))
  }

  /** `s.charAt(0).toUpperCase() + s.slice(1)`. */
  function Capitalize(s: string): (r: string)
    ensures |r| == |s|
    ensures |s| > 0 ==> r[0] == UpperChar(s[0]) && r[1..] == s[1..]
  {
    if |s| == 0 then "" else [UpperChar(s[0])] + s[1..]
  }
}
