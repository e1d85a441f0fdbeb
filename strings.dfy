/**
 * The JavaScript string operations the core relies on: `split` on a one-character
 * separator, `join`, and `replace` with a string pattern (which replaces the first
 * occurrence only).
 */
module Strings {
  import opened Wrappers

  /** No name occurs twice (the keys of an object, say). */
  predicate Distinct(s: seq<string>) {
    forall i, j :: 0 <= i < j < |s| ==> s[i] != s[j]
  }

  /** `s.split(c)`: the pieces between occurrences of `c`; `"".split(c)` is `[""]`. */
  function Split(s: string, c: char): (parts: seq<string>)
    ensures |parts| >= 1
    ensures forall i :: 0 <= i < |parts| ==> c !in parts[i]
    decreases |s|
  {
    if |s| == 0 then [""]
    else if s[0] == c then [""] + Split(s[1..], c)
    else
      var rest := Split(s[1..], c);
      [[s[0]] + rest[0]] + rest[1..]
  }

  /** `parts.join(sep)`. */
  function Join(parts: seq<string>, sep: string): string {
    if |parts| == 0 then ""
    else if |parts| == 1 then parts[0]
    else parts[0] + sep + Join(parts[1..], sep)
  }

  /** Joining the pieces of a split with the separator gives back the string. */
  lemma {:induction false} SplitJoin(s: string, c: char)
    ensures Join(Split(s, c), [c]) == s
    decreases |s|
  {
    if |s| > 0 {
      SplitJoin(s[1..], c);
      var rest := Split(s[1..], c);
      if s[0] == c {
        assert Split(s, c) == [""] + rest;
        assert s == [c] + s[1..];
      } else {
        assert s == [s[0]] + s[1..];
        if |rest| > 1 {
          assert Split(s, c)[1..] == rest[1..];
        }
      }
    }
  }

  /** A string without the separator splits into itself. */
  lemma {:induction false} SplitNoSeparator(s: string, c: char)
    requires c !in s
    ensures Split(s, c) == [s]
    decreases |s|
  {
    if |s| > 0 {
      assert c !in s[1..];
      SplitNoSeparator(s[1..], c);
      assert [s[0]] + s[1..] == s;
    }
  }

  /** The first piece ends at the first separator. */
  lemma {:induction false} SplitAtFirst(a: string, c: char, b: string)
    requires c !in a
    ensures Split(a + [c] + b, c) == [a] + Split(b, c)
    decreases |a|
  {
    if |a| == 0 {
      assert a + [c] + b == [c] + b;
      assert ([c] + b)[1..] == b;
    } else {
      assert (a + [c] + b)[1..] == a[1..] + [c] + b;
      assert c !in a[1..];
      SplitAtFirst(a[1..], c, b);
      assert [a[0]] + a[1..] == a;
    }
  }

  /** `pat` occurs in `s` at index `k`. */
  predicate OccursAt(s: string, pat: string, k: nat) {
    k + |pat| <= |s| && s[k..k + |pat|] == pat
  }

  /** `s.indexOf(pat)`, with `None` for -1. */
  function IndexOf(s: string, pat: string): (r: Option<nat>)
    ensures r.Some? ==> r.value + |pat| <= |s|
    decreases |s|
  {
    if |pat| > |s| then None
    else if s[..|pat|] == pat then Some(0)
    else
      match IndexOf(s[1..], pat)
      case None => None
      case Some(k) => Some(k + 1)
  }

  /** `indexOf` finds the first occurrence, and `None` means there is none. */
  lemma {:induction false} IndexOfFirst(s: string, pat: string)
    ensures IndexOf(s, pat).Some? ==> OccursAt(s, pat, IndexOf(s, pat).value)
    ensures IndexOf(s, pat).Some? ==> forall j: nat :: j < IndexOf(s, pat).value ==> !OccursAt(s, pat, j)
    ensures IndexOf(s, pat).None? ==> forall j: nat :: !OccursAt(s, pat, j)
    decreases |s|
  {
    assert |pat| <= |s| ==> s[0..|pat|] == s[..|pat|];
    if |pat| <= |s| && s[..|pat|] != pat {
      IndexOfFirst(s[1..], pat);
      forall j: nat | 0 < j ensures OccursAt(s, pat, j) <==> OccursAt(s[1..], pat, j - 1) {
        if j + |pat| <= |s| {
          assert s[1..][j - 1..j - 1 + |pat|] == s[j..j + |pat|];
        }
      }
    }
  }

  /** `s.replace(pat, rep)` for a string pattern: only the first occurrence is replaced. */
  function ReplaceFirst(s: string, pat: string, rep: string): string {
    match IndexOf(s, pat)
    case None => s
    case Some(k) => s[..k] + rep + s[k + |pat|..]
  }

  /** A pattern holding a character the string lacks is not found, so nothing is replaced. */
  lemma ReplaceAbsent(s: string, pat: string, rep: string, i: nat)
    requires i < |pat| && pat[i] !in s
    ensures IndexOf(s, pat).None?
    ensures ReplaceFirst(s, pat, rep) == s
  {
    IndexOfFirst(s, pat);
  }

  /** The first occurrence is the one `replace` rewrites. */
  lemma ReplaceAtFirst(s: string, pat: string, rep: string, k: nat)
    requires OccursAt(s, pat, k)
    requires forall j: nat :: j < k ==> !OccursAt(s, pat, j)
    ensures IndexOf(s, pat) == Some(k)
    ensures ReplaceFirst(s, pat, rep) == s[..k] + rep + s[k + |pat|..]
  {
    IndexOfFirst(s, pat);
  }

  /** Each piece with `p` in front. */
  function Prefixed(parts: seq<string>, p: string): (r: seq<string>)
    ensures |r| == |parts|
    ensures forall k :: 0 <= k < |parts| ==> r[k] == p + parts[k]
  {
    if |parts| == 0 then [] else [p + parts[0]] + Prefixed(parts[1..], p)
  }

  /**
   * `p + parts.join(c + p) + c + tail`, split at `c`, gives every piece behind its
   * prefix and then the pieces of `tail`, provided neither `p` nor a piece holds `c`.
   */
  lemma {:induction false} SplitPrefixedJoin(parts: seq<string>, p: string, c: char, tail: string)
    requires |parts| >= 1
    requires c !in p
    requires forall k :: 0 <= k < |parts| ==> c !in parts[k]
    ensures Split(p + Join(parts, [c] + p) + [c] + tail, c) == Prefixed(parts, p) + Split(tail, c)
    decreases |parts|
  {
    assert c !in p + parts[0];
    if |parts| == 1 {
      assert Join(parts, [c] + p) == parts[0];
      SplitAtFirst(p + parts[0], c, tail);
    } else {
      var j := Join(parts[1..], [c] + p);
      var rest := p + j + [c] + tail;
      assert Join(parts, [c] + p) == parts[0] + ([c] + p) + j;
      assert p + Join(parts, [c] + p) + [c] + tail == (p + parts[0]) + [c] + rest;
      SplitAtFirst(p + parts[0], c, rest);
      SplitPrefixedJoin(parts[1..], p, c, tail);
    }
  }

  /** Splitting a join at its one-character separator gives the pieces back. */
  lemma {:induction false} JoinSplit(parts: seq<string>, c: char)
    requires |parts| >= 1
    requires forall k :: 0 <= k < |parts| ==> c !in parts[k]
    ensures Split(Join(parts, [c]), c) == parts
    decreases |parts|
  {
    if |parts| == 1 {
      SplitNoSeparator(parts[0], c);
    } else {
      var j := Join(parts[1..], [c]);
      assert Join(parts, [c]) == parts[0] + [c] + j;
      SplitAtFirst(parts[0], c, j);
      JoinSplit(parts[1..], c);
      assert parts == [parts[0]] + parts[1..];
    }
  }
}
