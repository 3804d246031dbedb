/** Character-level string operations with the semantics of the Python built-ins the
    script relies on: `str.isspace` (and so `line.strip() == ""`), `str.find` and `in`,
    `str.split("\n")` and slicing past the end of a string. */
module Text {
  import opened Wrappers

  /** Python's `str.isspace()` for a single character (the Unicode whitespace set). */
  predicate IsSpace(c: char) {
    || c == ' '
    || ('\t' <= c <= '\r')
    || ('\U{1C}' <= c <= '\U{1F}')
    || c == '\U{85}' || c == '\U{A0}' || c == '\U{1680}'
    || ('\U{2000}' <= c <= '\U{200A}')
    || c == '\U{2028}' || c == '\U{2029}' || c == '\U{202F}' || c == '\U{205F}' || c == '\U{3000}'
  }

  /** `line.strip() == ""`: the line holds nothing but whitespace. */
  predicate IsBlank(s: string) {
    forall i :: 0 <= i < |s| ==> IsSpace(s[i])
  }

  /** Python's `s[k:]`, which is empty rather than an error when `k` is past the end. */
  function Drop(s: string, k: nat): (r: string)
    ensures k <= |s| ==> r == s[k..]
    ensures k > |s| ==> r == []
  {
    if k <= |s| then s[k..] else []
  }

  /** `p` occurs in `s` starting at index `j`. */
  predicate OccursAt(s: string, p: string, j: int) {
    0 <= j && j + |p| <= |s| && s[j..j + |p|] == p
  }

  /** The first occurrence of `p` in `s` at index `from` or later. */
  function IndexFrom(s: string, p: string, from: nat): (r: Option<nat>)
    ensures r.Some? ==> from <= r.value && r.value + |p| <= |s|
    decreases |s| - from
  {
    if from + |p| > |s| then None
    else if s[from..from + |p|] == p then Some(from)
    else IndexFrom(s, p, from + 1)
  }

  /** `IndexFrom` finds the first occurrence at or after `from`, and finds nothing only
      when there is none. */
  lemma {:induction false} IndexFromFirst(s: string, p: string, from: nat)
    ensures IndexFrom(s, p, from).Some? ==>
              && from <= IndexFrom(s, p, from).value
              && OccursAt(s, p, IndexFrom(s, p, from).value)
              && forall j :: from <= j < IndexFrom(s, p, from).value ==> !OccursAt(s, p, j)
    ensures IndexFrom(s, p, from).None? ==> forall j :: from <= j ==> !OccursAt(s, p, j)
    decreases |s| - from
  {
    if from + |p| <= |s| && s[from..from + |p|] != p {
      IndexFromFirst(s, p, from + 1);
    }
  }

  /** Python's `s.find(p)`: the lowest index at which `p` occurs, `None` standing for -1. */
  function IndexOf(s: string, p: string): (r: Option<nat>)
    ensures r.Some? ==> r.value + |p| <= |s|
  {
    IndexFrom(s, p, 0)
  }

  /** `IndexOf` gives the lowest index at which `p` occurs, and nothing exactly when `p`
      does not occur. */
  lemma IndexOfFirst(s: string, p: string)
    ensures IndexOf(s, p).Some? ==> OccursAt(s, p, IndexOf(s, p).value)
    ensures IndexOf(s, p).Some? ==> forall j :: 0 <= j < IndexOf(s, p).value ==> !OccursAt(s, p, j)
    ensures IndexOf(s, p).None? <==> forall j :: !OccursAt(s, p, j)
  {
    IndexFromFirst(s, p, 0);
  }

  /** Python's `p in s`. */
  predicate Contains(s: string, p: string) {
    IndexOf(s, p).Some?
  }

  /** `p` is a prefix of `s`, so it is found at index 0. */
  lemma PrefixFound(s: string, p: string)
    requires |p| <= |s| && s[..|p|] == p
    ensures IndexOf(s, p) == Some(0)
  {
    assert s[0..|p|] == p;
  }

  /** If some character of `p` never appears in `s`, then `p` does not occur in `s`. */
  lemma AbsentCharNotContained(s: string, p: string, k: nat)
    requires k < |p| && p[k] !in s
    ensures !Contains(s, p)
  {
    IndexOfFirst(s, p);
    forall j ensures !OccursAt(s, p, j) {
      if 0 <= j && j + |p| <= |s| {
        assert s[j..j + |p|][k] == s[j + k];
      }
    }
  }

  /** An occurrence in either part is an occurrence in the concatenation. */
  lemma ContainsAppend(a: string, b: string, p: string)
    ensures Contains(a, p) ==> Contains(a + b, p)
    ensures Contains(b, p) ==> Contains(a + b, p)
  {
    IndexOfFirst(a, p);
    IndexOfFirst(b, p);
    IndexOfFirst(a + b, p);
    if Contains(a, p) {
      var k := IndexOf(a, p).value;
      assert (a + b)[k..k + |p|] == a[k..k + |p|];
      assert OccursAt(a + b, p, k);
    }
    if Contains(b, p) {
      var k := IndexOf(b, p).value;
      assert (a + b)[|a| + k..|a| + k + |p|] == b[k..k + |p|];
      assert OccursAt(a + b, p, |a| + k);
    }
  }

  /** When `key` occurs neither in `pre` nor across its end, its first occurrence in
      `pre + key + sub` is the one right after `pre`. */
  lemma FoundAfter(pre: string, key: string, sub: string)
    requires |key| > 0 && !Contains(pre + key[..|key| - 1], key)
    ensures IndexOf(pre + key + sub, key) == Some(|pre|)
  {
    var s := pre + key + sub;
    var t := pre + key[..|key| - 1];
    IndexOfFirst(t, key);
    IndexOfFirst(s, key);
    assert s[|pre|..|pre| + |key|] == key;
    assert OccursAt(s, key, |pre|);
    forall j | 0 <= j < |pre| ensures !OccursAt(s, key, j) {
      assert !OccursAt(t, key, j);
      if j + |key| <= |s| {
        assert s[j..j + |key|] == t[j..j + |key|];
      }
    }
  }

  /** A pattern longer than the text cannot occur in it. */
  lemma LongerNotContained(s: string, p: string)
    requires |p| > |s|
    ensures !Contains(s, p)
  {
  }

  /** Concatenation regrouped to the right. */
  lemma Rebracket(a: string, b: string, c: string, d: string)
    ensures a + b + c == a + (b + c)
    ensures a + b + c + d == a + (b + (c + d))
    ensures a + b + c + d == a + (b + c + d)
  {
  }

  /** Python's `"\n".join(parts)`. */
  function Join(parts: seq<string>): (r: string)
    decreases |parts|
  {
    if |parts| == 0 then []
    else if |parts| == 1 then parts[0]
    else parts[0] + "\n" + Join(parts[1..])
  }

  /** Python's `s.split("\n")`: never empty, and no piece contains a line break. */
  function Split(s: string): (r: seq<string>)
    ensures |r| >= 1
    ensures forall i :: 0 <= i < |r| ==> '\n' !in r[i]
    decreases |s|
  {
    if |s| == 0 then [[]]
    else
      var rest := Split(s[1..]);
      if s[0] == '\n' then [[]] + rest
      else [[s[0]] + rest[0]] + rest[1..]
  }

  /** Joining the pieces of a split gives back the text. */
  lemma {:induction false} JoinSplit(s: string)
    ensures Join(Split(s)) == s
    decreases |s|
  {
    if |s| > 0 {
      var rest := Split(s[1..]);
      JoinSplit(s[1..]);
      if s[0] == '\n' {
        assert Split(s) == [[]] + rest;
        assert s == [s[0]] + s[1..];
      } else {
        if |rest| == 1 {
          assert Split(s) == [[s[0]] + rest[0]];
        } else {
          assert Split(s) == [[s[0]] + rest[0]] + rest[1..];
          assert Join(rest) == rest[0] + "\n" + Join(rest[1..]);
        }
        assert s == [s[0]] + s[1..];
      }
    }
  }

  /** Splitting a join of line-break-free pieces gives back the pieces. */
  lemma {:induction false} SplitJoin(parts: seq<string>)
    requires |parts| >= 1
    requires forall i :: 0 <= i < |parts| ==> '\n' !in parts[i]
    ensures Split(Join(parts)) == parts
    decreases |parts|, |parts[0]|
  {
    var p := parts[0];
    if |p| > 0 {
      var parts' := [p[1..]] + parts[1..];
      JoinHead(parts);
      SplitJoin(parts');
      assert p == [p[0]] + p[1..];
    } else if |parts| > 1 {
      JoinEmptyHead(parts);
      SplitJoin(parts[1..]);
      assert parts == [[]] + parts[1..];
    }
  }

  /** The first character of a join whose first piece is not empty, and what follows it. */
  lemma JoinHead(parts: seq<string>)
    requires |parts| >= 1 && |parts[0]| > 0
    ensures |Join(parts)| > 0 && Join(parts)[0] == parts[0][0]
    ensures Join(parts)[1..] == Join([parts[0][1..]] + parts[1..])
  {
    var p := parts[0];
    var parts' := [p[1..]] + parts[1..];
    assert parts'[1..] == parts[1..];
    var j := Join(parts);
    if |parts| == 1 {
      assert j[1..] == Join(parts');
    } else {
      assert j == p + "\n" + Join(parts[1..]);
      assert j[1..] == p[1..] + "\n" + Join(parts[1..]);
    }
  }

  /** A join whose first piece is empty starts with the line break. */
  lemma JoinEmptyHead(parts: seq<string>)
    requires |parts| > 1 && |parts[0]| == 0
    ensures |Join(parts)| > 0 && Join(parts)[0] == '\n'
    ensures Join(parts)[1..] == Join(parts[1..])
  {
    assert Join(parts) == "\n" + Join(parts[1..]);
  }
}
