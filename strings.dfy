/**
 * The Python string operations the core relies on: `in`, `find`, `split`, `join`,
 * `lstrip`/`rstrip` with one character, `lower` and `replace`.
 */
module Strings {
  import opened Wrappers

  /** `pat` occurs in `s` starting at index `i`. */
  predicate OccursAt(s: string, pat: string, i: nat)
  {
    i + |pat| <= |s| && s[i..i + |pat|] == pat
  }

  /** `s.find(pat, from)`: the leftmost occurrence of `pat` at or after `from`, if any. */
  function FindFrom(s: string, pat: string, from: nat): (r: Option<nat>)
    decreases |s| - from
    ensures r.Some? ==> from <= r.value && OccursAt(s, pat, r.value)
    ensures forall j: nat :: from <= j && (r.None? || j < r.value) ==> !OccursAt(s, pat, j)
  {
    if from + |pat| > |s| then None
    else if s[from..from + |pat|] == pat then Some(from)
    else FindFrom(s, pat, from + 1)
  }

  function Find(s: string, pat: string): Option<nat>
  {
    FindFrom(s, pat, 0)
  }

  /** Python's `pat in s`. */
  predicate Contains(s: string, pat: string)
  {
    Find(s, pat).Some?
  }

  /** `pat in s` holds exactly when `pat` occurs somewhere in `s`. */
  lemma ContainsIff(s: string, pat: string)
    ensures Contains(s, pat) <==> exists i: nat :: OccursAt(s, pat, i)
  {
    if i: nat :| OccursAt(s, pat, i) {
      assert Find(s, pat).Some?;
    }
  }

  /** A one-character pattern occurs exactly when some character of `s` is that character. */
  lemma ContainsChar(s: string, c: char)
    ensures Contains(s, [c]) <==> exists k :: 0 <= k < |s| && s[k] == c
  {
    ContainsIff(s, [c]);
    if k :| 0 <= k < |s| && s[k] == c {
      assert OccursAt(s, [c], k);
    }
    if i: nat :| OccursAt(s, [c], i) {
      assert s[i..i + 1][0] == s[i];
    }
  }

  /** The first `c` in `s` is at index `i`. */
  lemma FindFirstChar(s: string, c: char, i: nat)
    requires i < |s| && s[i] == c
    requires forall k :: 0 <= k < i ==> s[k] != c
    ensures Find(s, [c]) == Some(i)
  {
    assert OccursAt(s, [c], i);
    forall k: nat | k < i ensures !OccursAt(s, [c], k) {
      assert s[k..k + 1] == [s[k]];
    }
  }

  /** `s.find(c)` for one character: the index of its first occurrence, if any. */
  lemma FindChar(s: string, c: char)
    ensures Find(s, [c]).Some? ==> (Find(s, [c]).value < |s| && s[Find(s, [c]).value] == c &&
      forall k :: 0 <= k < Find(s, [c]).value ==> s[k] != c)
    ensures Find(s, [c]).None? ==> forall k :: 0 <= k < |s| ==> s[k] != c
  {
    var r := Find(s, [c]);
    forall k: nat | k < |s| && (r.None? || k <= r.value) ensures OccursAt(s, [c], k) <==> s[k] == c {
      assert s[k..k + 1] == [s[k]];
    }
  }

  /** Splitting at a character that `a` does not contain peels `a` off the front. */
  lemma SplitCons(a: string, b: string, c: char)
    requires forall k :: 0 <= k < |a| ==> a[k] != c
    ensures Split(a + [c] + b, [c]) == [a] + Split(b, [c])
  {
    var s := a + [c] + b;
    FindFirstChar(s, c, |a|);
    assert s[..|a|] == a;
    assert s[|a| + 1..] == b;
  }

  /** Round trip the other way: splitting the join of pieces without the separator gives them back. */
  lemma {:induction false} SplitJoin(parts: seq<string>, c: char)
    requires |parts| >= 1
    requires forall i, k :: 0 <= i < |parts| && 0 <= k < |parts[i]| ==> parts[i][k] != c
    ensures Split(Join(parts, [c]), [c]) == parts
  {
    if |parts| == 1 {
      SplitNone(parts[0], c);
    } else {
      SplitCons(parts[0], Join(parts[1..], [c]), c);
      SplitJoin(parts[1..], c);
      assert [parts[0]] + parts[1..] == parts;
    }
  }

  /** A string without the separator character splits into itself alone. */
  lemma SplitNone(a: string, c: char)
    requires forall k :: 0 <= k < |a| ==> a[k] != c
    ensures Split(a, [c]) == [a]
  {
    ContainsChar(a, c);
  }

  /** An occurrence inside a prefix of `s` is an occurrence in `s` that ends inside the prefix. */
  lemma OccursInPrefix(s: string, n: nat, pat: string, j: nat)
    requires n <= |s|
    requires OccursAt(s[..n], pat, j)
    ensures OccursAt(s, pat, j) && j + |pat| <= n
  {
    assert s[..n][j..j + |pat|] == s[j..j + |pat|];
  }

  /** `sep.join(parts)`. */
  function Join(parts: seq<string>, sep: string): string
  {
    if |parts| == 0 then ""
    else if |parts| == 1 then parts[0]
    else parts[0] + sep + Join(parts[1..], sep)
  }

  /**
   * `s.split(sep)` for a non-empty separator: the pieces between the non-overlapping
   * occurrences of `sep`, scanned from the left.
   */
  function Split(s: string, sep: string): (r: seq<string>)
    requires |sep| > 0
    decreases |s|
    ensures |r| >= 1
    ensures Join(r, sep) == s
    ensures forall k :: 0 <= k < |r| ==> !Contains(r[k], sep)
    ensures |r| > 1 <==> Contains(s, sep)
  {
    match Find(s, sep)
    case None => [s]
    case Some(i) =>
      var rest := Split(s[i + |sep|..], sep);
      var r := [s[..i]] + rest;
      assert r[1..] == rest;
      assert s[..i] + sep + s[i + |sep|..] == s by {
        assert s[i..i + |sep|] == sep;
        assert s == s[..i] + s[i..i + |sep|] + s[i + |sep|..];
      }
      assert !Contains(s[..i], sep) by {
        if Contains(s[..i], sep) {
          OccursInPrefix(s, i, sep, Find(s[..i], sep).value);
        }
      }
      r
  }

  /** The first piece of `s.split(sep)` is the text before the first `sep`. */
  lemma SplitHead(s: string, sep: string)
    requires |sep| > 0
    ensures Split(s, sep)[0] == if Contains(s, sep) then s[..Find(s, sep).value] else s
  {
  }

  /** The second piece of `s.split(sep)`, when there is one, is the text after the first `sep` cut at the next. */
  lemma SplitSecond(s: string, sep: string)
    requires |sep| > 0 && Contains(s, sep)
    ensures Split(s, sep)[1] == Split(s[Find(s, sep).value + |sep|..], sep)[0]
  {
  }

  /** `s.lstrip(c)`: drops every leading `c`. */
  function LStrip(s: string, c: char): (r: string)
    ensures |r| <= |s| && r == s[|s| - |r|..]
    ensures r == [] || r[0] != c
    ensures forall k :: 0 <= k < |s| - |r| ==> s[k] == c
  {
    if s != [] && s[0] == c then LStrip(s[1..], c) else s
  }

  /** `s.rstrip(c)`: drops every trailing `c`. */
  function RStrip(s: string, c: char): (r: string)
    ensures |r| <= |s| && r == s[..|r|]
    ensures r == [] || r[|r| - 1] != c
    ensures forall k :: |r| <= k < |s| ==> s[k] == c
  {
    if s != [] && s[|s| - 1] == c then RStrip(s[..|s| - 1], c) else s
  }

  /** `s.strip(c)`. */
  function Strip(s: string, c: char): string
  {
    RStrip(LStrip(s, c), c)
  }

  predicate IsUpper(c: char)
  {
    'A' <= c <= 'Z'
  }

  /** `c.lower()` on the ASCII letters; every other character is left as it is. */
  function LowerChar(c: char): (r: char)
    ensures !IsUpper(r)
  {
    if IsUpper(c) then (c as int + 32) as char else c
  }

  /** `s.lower()`, character by character. */
  function Lower(s: string): (r: string)
    ensures |r| == |s|
    ensures forall k :: 0 <= k < |s| ==> r[k] == LowerChar(s[k])
  {
    if s == [] then [] else [LowerChar(s[0])] + Lower(s[1..])
  }

  /** `s.replace(pat, rep)` for a non-empty `pat`: every non-overlapping occurrence, from the left. */
  function Replace(s: string, pat: string, rep: string): string
    requires |pat| > 0
  {
    Join(Split(s, pat), rep)
  }

  /** `replace` changes nothing in a string that does not contain the pattern. */
  lemma ReplaceAbsent(s: string, pat: string, rep: string)
    requires |pat| > 0 && !Contains(s, pat)
    ensures Replace(s, pat, rep) == s
  {
    var parts := Split(s, pat);
    assert |parts| == 1;
    assert Join(parts, pat) == parts[0];
  }

  /** Removing one occurrence at the front: `(pat + t).replace(pat, "") == t.replace(pat, "")`. */
  lemma {:induction false} ReplaceLeading(t: string, pat: string)
    requires |pat| > 0
    ensures Replace(pat + t, pat, "") == Replace(t, pat, "")
  {
    var s := pat + t;
    assert OccursAt(s, pat, 0) by { assert s[0..|pat|] == pat; }
    assert Find(s, pat) == Some(0);
    assert s[|pat|..] == t;
    var rest := Split(t, pat);
    assert Split(s, pat) == [""] + rest;
    JoinEmptyHead(rest);
  }

  lemma JoinEmptyHead(rest: seq<string>)
    requires |rest| >= 1
    ensures Join([""] + rest, "") == Join(rest, "")
  {
    assert ([""] + rest)[1..] == rest;
  }
}
