/** The JavaScript string operations the source relies on, on strings as
    sequences of characters: `trim`, `toLowerCase`, `startsWith`, `endsWith`,
    `includes`, `split`, `join`, `lastIndexOf`, `replace` with a string
    pattern, and the number of pieces `split` produces. */
module Text {
  import opened Wrappers
  import opened Sequences

  /** The characters `String.prototype.trim` removes: the white space and line
      terminator code points of ECMAScript (tab, vertical tab, form feed,
      space, no-break space, byte order mark, the Unicode space separators,
      line feed, carriage return, line and paragraph separators). */
  predicate IsWhitespace(c: char) {
    var n := c as int;
    n == 0x09 || n == 0x0A || n == 0x0B || n == 0x0C || n == 0x0D || n == 0x20 ||
    n == 0xA0 || n == 0x1680 || (0x2000 <= n <= 0x200A) || n == 0x2028 || n == 0x2029 ||
    n == 0x202F || n == 0x205F || n == 0x3000 || n == 0xFEFF
  }

  function TrimStart(s: string): (r: string)
    ensures |r| <= |s| && r == s[|s| - |r|..]
    ensures r == [] || !IsWhitespace(r[0])
    ensures forall i :: 0 <= i < |s| - |r| ==> IsWhitespace(s[i])
  {
    if s != [] && IsWhitespace(s[0]) then TrimStart(s[1..]) else s
  }

  function TrimEnd(s: string): (r: string)
    ensures |r| <= |s| && r == s[..|r|]
    ensures r == [] || !IsWhitespace(r[|r| - 1])
    ensures forall i :: |r| <= i < |s| ==> IsWhitespace(s[i])
  {
    if s != [] && IsWhitespace(s[|s| - 1]) then TrimEnd(s[..|s| - 1]) else s
  }

  /** r is s with white space only cut off before position i and after r. */
  predicate TrimmedAt(s: string, r: string, i: nat) {
    i + |r| <= |s| && r == s[i..i + |r|] &&
    (forall k :: 0 <= k < i ==> IsWhitespace(s[k])) &&
    (forall k :: i + |r| <= k < |s| ==> IsWhitespace(s[k]))
  }

  /** `s.trim()`: the longest slice of s with no white space at either end;
      everything cut off is white space. */
  function Trim(s: string): (r: string)
    ensures exists i :: TrimmedAt(s, r, i)
    ensures r == [] || (!IsWhitespace(r[0]) && !IsWhitespace(r[|r| - 1]))
    ensures r == [] <==> forall k :: 0 <= k < |s| ==> IsWhitespace(s[k])
  {
    var t := TrimStart(s);
    var r := TrimEnd(t);
    assert r == s[|s| - |t|..|s| - |t| + |r|];
    assert TrimmedAt(s, r, |s| - |t|);
    r
  }

  lemma TrimIdempotent(s: string)
    ensures Trim(Trim(s)) == Trim(s)
  {
    var r := Trim(s);
    if r != [] {
      assert TrimStart(r) == r;
      assert TrimEnd(r) == r;
    }
  }

  lemma {:induction false} TrimStartSkips(w: string, s: string)
    requires forall k :: 0 <= k < |w| ==> IsWhitespace(w[k])
    ensures TrimStart(w + s) == TrimStart(s)
  {
    if w != [] {
      assert (w + s)[0] == w[0] && (w + s)[1..] == w[1..] + s;
      TrimStartSkips(w[1..], s);
    } else {
      assert w + s == s;
    }
  }

  /** Leading white space never survives `trim`. */
  lemma TrimSkipsLeading(w: string, s: string)
    requires forall k :: 0 <= k < |w| ==> IsWhitespace(w[k])
    ensures Trim(w + s) == Trim(s)
  {
    TrimStartSkips(w, s);
  }

  /** `toLowerCase` on one character: ASCII upper-case letters only. */
  function LowerChar(c: char): char {
    if 'A' <= c <= 'Z' then (c as int - 'A' as int + 'a' as int) as char else c
  }

  function ToLower(s: string): (r: string)
    ensures |r| == |s|
    ensures forall i :: 0 <= i < |s| ==> r[i] == LowerChar(s[i])
  {
    seq(|s|, i requires 0 <= i < |s| => LowerChar(s[i]))
  }

  /** A string without ASCII capitals is its own lower case. */
  lemma ToLowerKeepsLower(s: string)
    requires forall i :: 0 <= i < |s| ==> !('A' <= s[i] <= 'Z')
    ensures ToLower(s) == s
  {
  }

  lemma ToLowerConcat(a: string, b: string)
    ensures ToLower(a + b) == ToLower(a) + ToLower(b)
  {
  }

  predicate StartsWith(s: string, prefix: string) {
    |prefix| <= |s| && s[..|prefix|] == prefix
  }

  predicate EndsWith(s: string, suffix: string) {
    |suffix| <= |s| && s[|s| - |suffix|..] == suffix
  }

  predicate OccursAt(s: string, pattern: string, i: nat) {
    i + |pattern| <= |s| && s[i..i + |pattern|] == pattern
  }

  /** `s.includes(pattern)`. */
  predicate Contains(s: string, pattern: string) {
    exists i :: 0 <= i <= |s| && OccursAt(s, pattern, i)
  }

  /** A pattern whose first character s does not hold is not in s. */
  lemma LacksFirstChar(s: string, pattern: string)
    requires pattern != [] && pattern[0] !in s
    ensures !Contains(s, pattern)
  {
    forall i | 0 <= i <= |s| ensures !OccursAt(s, pattern, i) {
      if i + |pattern| <= |s| {
        assert s[i..i + |pattern|][0] == s[i];
      }
    }
  }

  /** Whatever holds a + b holds a. */
  lemma ContainsShorter(s: string, a: string, b: string)
    requires Contains(s, a + b)
    ensures Contains(s, a)
  {
    var i :| 0 <= i <= |s| && OccursAt(s, a + b, i);
    assert s[i..i + |a|] == (a + b)[..|a|];
    assert OccursAt(s, a, i);
  }

  lemma ContainsSelf(s: string)
    ensures Contains(s, s)
  {
    assert OccursAt(s, s, 0);
  }

  lemma ContainsSuffix(a: string, b: string)
    ensures Contains(a + b, b)
  {
    assert OccursAt(a + b, b, |a|);
  }

  lemma ContainsPrefix(a: string, b: string)
    ensures Contains(a + b, a)
  {
    assert OccursAt(a + b, a, 0);
  }

  /** The three parts of a concatenation sit where they were put. */
  lemma Pieces(a: string, b: string, c: string)
    ensures StartsWith(a + b + c, a)
    ensures OccursAt(a + b + c, b, |a|)
    ensures EndsWith(a + b + c, c)
  {
    var s := a + b + c;
    assert s[..|a|] == a;
    assert s[|a|..|a| + |b|] == b;
    assert s[|s| - |c|..] == c;
  }

  lemma PrefixExtends(s: string, t: string, prefix: string)
    requires StartsWith(s, prefix)
    ensures StartsWith(s + t, prefix)
  {
    assert (s + t)[..|prefix|] == s[..|prefix|];
  }

  lemma SuffixAfterPrefix(s: string, t: string)
    ensures StartsWith(s + t, s)
  {
    assert (s + t)[..|s|] == s;
  }

  lemma SuffixOfConcat(s: string, t: string)
    ensures EndsWith(s + t, t)
  {
    assert (s + t)[|s|..] == t;
  }

  /** An occurrence inside a prefix or a suffix is an occurrence in the whole. */
  lemma OccursInPrefix(s: string, prefix: string, pattern: string, i: nat)
    requires StartsWith(s, prefix) && OccursAt(prefix, pattern, i)
    ensures OccursAt(s, pattern, i) && Contains(s, pattern)
  {
    assert s[i..i + |pattern|] == prefix[i..i + |pattern|];
    assert OccursAt(s, pattern, i);
  }

  lemma OccursInSuffix(s: string, suffix: string, pattern: string, i: nat)
    requires EndsWith(s, suffix) && OccursAt(suffix, pattern, i)
    ensures OccursAt(s, pattern, |s| - |suffix| + i) && Contains(s, pattern)
  {
    var k := |s| - |suffix|;
    assert s[k + i..k + i + |pattern|] == suffix[i..i + |pattern|];
    assert OccursAt(s, pattern, k + i);
  }

  lemma Regroup(a: string, b: string, c: string, d: string, e: string)
    ensures a + b + c + d + e == (a + b) + (c + d + e)
  {
  }

  /** Inserting a block at a cut point of a string. */
  lemma SpliceAt(head: string, block: string, rest: string)
    ensures var bare := head + rest;
            && |head| <= |bare|
            && head + block + rest == bare[..|head|] + block + bare[|head|..]
  {
    var bare := head + rest;
    assert bare[..|head|] == head && bare[|head|..] == rest;
  }

  lemma ContainsInside(a: string, b: string, c: string, pattern: string)
    requires Contains(b, pattern)
    ensures Contains(a + b + c, pattern)
  {
    var i :| 0 <= i <= |b| && OccursAt(b, pattern, i);
    assert (a + b + c)[|a| + i..|a| + i + |pattern|] == b[i..i + |pattern|];
    assert OccursAt(a + b + c, pattern, |a| + i);
  }

  /** An optional string that is truthy in JavaScript: present and not
      empty. */
  predicate Present(p: Option<string>) {
    p.Some? && p.value != ""
  }

  /** `patterns.some(p => s.includes(p))`. */
  function ContainsAny(s: string, patterns: seq<string>): (found: bool)
    ensures found <==> exists p :: p in patterns && Contains(s, p)
  {
    if patterns == [] then false
    else Contains(s, patterns[0]) || ContainsAny(s, patterns[1..])
  }

  lemma NoneContained(s: string, patterns: seq<string>)
    requires forall i :: 0 <= i < |patterns| ==> !Contains(s, patterns[i])
    ensures !ContainsAny(s, patterns)
  {
  }

  /** The first position at or after k where pattern occurs. */
  function FindFrom(s: string, pattern: string, k: nat): (r: Option<nat>)
    requires k <= |s|
    ensures r.Some? ==> k <= r.value && OccursAt(s, pattern, r.value) &&
                        forall j :: k <= j < r.value ==> !OccursAt(s, pattern, j)
    ensures r.None? ==> forall j :: k <= j <= |s| ==> !OccursAt(s, pattern, j)
    decreases |s| - k
  {
    if OccursAt(s, pattern, k) then Some(k)
    else if k == |s| then None
    else FindFrom(s, pattern, k + 1)
  }

  /** `s.replace(pattern, replacement)` with a string pattern: only the first
      occurrence is replaced; without one, s is returned unchanged. */
  function ReplaceFirst(s: string, pattern: string, replacement: string): (r: string)
    ensures !Contains(s, pattern) ==> r == s
    ensures Contains(s, pattern) ==>
              exists i :: 0 <= i <= |s| - |pattern| && OccursAt(s, pattern, i) &&
                          (forall j :: 0 <= j < i ==> !OccursAt(s, pattern, j)) &&
                          r == s[..i] + replacement + s[i + |pattern|..]
  {
    match FindFrom(s, pattern, 0)
    case None => s
    case Some(i) => s[..i] + replacement + s[i + |pattern|..]
  }

  /** `s.lastIndexOf(c)`: the last index holding c, or -1. */
  function LastIndexOf(s: string, c: char): (r: int)
    ensures -1 <= r < |s|
    ensures r >= 0 ==> s[r] == c
    ensures forall j :: r < j < |s| ==> s[j] != c
  {
    if s == [] then -1
    else if s[|s| - 1] == c then |s| - 1
    else LastIndexOf(s[..|s| - 1], c)
  }

  /** `xs.join(sep)`. */
  function Join(xs: seq<string>, sep: string): string {
    if |xs| == 0 then ""
    else if |xs| == 1 then xs[0]
    else xs[0] + sep + Join(xs[1..], sep)
  }

  /** Joining one more piece adds the separator and that piece at the end. */
  lemma {:induction false} JoinAppend(xs: seq<string>, y: string, sep: string)
    requires xs != []
    ensures Join(xs + [y], sep) == Join(xs, sep) + sep + y
  {
    if |xs| == 1 {
      assert (xs + [y])[1..] == [y];
    } else {
      assert (xs + [y])[1..] == xs[1..] + [y];
      JoinAppend(xs[1..], y, sep);
    }
  }

  lemma {:induction false} JoinEndsWith(xs: seq<string>, sep: string)
    requires |xs| > 0
    ensures EndsWith(Join(xs, sep), xs[|xs| - 1])
  {
    if |xs| > 1 {
      JoinEndsWith(xs[1..], sep);
      var j := Join(xs[1..], sep);
      assert (xs[0] + sep + j)[|xs[0] + sep + j| - |xs[|xs| - 1]|..] == j[|j| - |xs[|xs| - 1]|..];
    }
  }

  lemma JoinStartsWith(xs: seq<string>, sep: string)
    requires |xs| > 0
    ensures StartsWith(Join(xs, sep), xs[0])
  {
    if |xs| > 1 {
      assert (xs[0] + sep + Join(xs[1..], sep))[..|xs[0]|] == xs[0];
    }
  }

  lemma CountOfConcat(a: string, b: string, c: char)
    ensures multiset(a + b)[c] == multiset(a)[c] + multiset(b)[c]
  {
    assert multiset(a + b) == multiset(a) + multiset(b);
  }

  /** Joining pieces that do not contain c with the separator c puts exactly
      |xs| - 1 copies of c into the result. */
  lemma {:induction false} JoinCountsSeparators(xs: seq<string>, c: char)
    requires |xs| > 0
    requires forall i :: 0 <= i < |xs| ==> c !in xs[i]
    ensures multiset(Join(xs, [c]))[c] == |xs| - 1
  {
    if |xs| > 1 {
      JoinCountsSeparators(xs[1..], c);
      assert multiset(xs[0])[c] == 0;
      assert multiset(xs[0] + [c] + Join(xs[1..], [c])) ==
             multiset(xs[0]) + multiset([c]) + multiset(Join(xs[1..], [c]));
    } else {
      assert multiset(xs[0])[c] == 0;
    }
  }

  /** `s.split(c)` for a one-character separator. */
  function Split(s: string, c: char): (r: seq<string>)
    ensures |r| >= 1
    ensures forall i :: 0 <= i < |r| ==> c !in r[i]
  {
    if s == [] then [""]
    else
      var rest := Split(s[1..], c);
      if s[0] == c then [""] + rest else [[s[0]] + rest[0]] + rest[1..]
  }

  /** Every occurrence of the separator starts a new piece. */
  lemma {:induction false} SplitCountsPieces(s: string, c: char)
    ensures |Split(s, c)| == multiset(s)[c] + 1
  {
    if s != [] {
      SplitCountsPieces(s[1..], c);
      assert s == [s[0]] + s[1..];
      assert multiset(s) == multiset([s[0]]) + multiset(s[1..]);
    }
  }

  lemma JoinAfterEmptyPiece(rest: seq<string>, sep: string)
    requires |rest| > 0
    ensures Join([""] + rest, sep) == sep + Join(rest, sep)
  {
    assert ([""] + rest)[1..] == rest;
  }

  lemma JoinExtendsFirstPiece(x: char, rest: seq<string>, sep: string)
    requires |rest| > 0
    ensures Join([[x] + rest[0]] + rest[1..], sep) == [x] + Join(rest, sep)
  {
    var pieces := [[x] + rest[0]] + rest[1..];
    if |rest| > 1 {
      assert pieces[1..] == rest[1..];
    }
  }

  /** Splitting and re-joining with the same separator gives the input back. */
  lemma {:induction false} JoinSplit(s: string, c: char)
    ensures Join(Split(s, c), [c]) == s
  {
    if s != [] {
      JoinSplit(s[1..], c);
      JoinSplitStep(s, c);
    }
  }

  lemma JoinSplitStep(s: string, c: char)
    requires s != []
    requires Join(Split(s[1..], c), [c]) == s[1..]
    ensures Join(Split(s, c), [c]) == s
  {
    if s[0] == c {
      JoinSplitAtSeparator(s, c);
    } else {
      JoinSplitAtOther(s, c);
    }
  }

  lemma JoinSplitAtSeparator(s: string, c: char)
    requires s != [] && s[0] == c
    requires Join(Split(s[1..], c), [c]) == s[1..]
    ensures Join(Split(s, c), [c]) == s
  {
    var rest := Split(s[1..], c);
    assert Split(s, c) == [""] + rest;
    JoinAfterEmptyPiece(rest, [c]);
    assert s == [c] + s[1..];
  }

  lemma JoinSplitAtOther(s: string, c: char)
    requires s != [] && s[0] != c
    requires Join(Split(s[1..], c), [c]) == s[1..]
    ensures Join(Split(s, c), [c]) == s
  {
    var rest := Split(s[1..], c);
    assert Split(s, c) == [[s[0]] + rest[0]] + rest[1..];
    JoinExtendsFirstPiece(s[0], rest, [c]);
    assert Join(Split(s, c), [c]) == [s[0]] + s[1..];
    assert s == [s[0]] + s[1..];
  }

  /** `s.split(sep).length` for a non-empty separator: occurrences are found
      left to right without overlapping, and k of them give k + 1 pieces. */
  function SplitCount(s: string, sep: string): (n: nat)
    requires sep != []
    ensures n >= 1
    decreases |s|
  {
    if |s| < |sep| then 1
    else if s[..|sep|] == sep then 1 + SplitCount(s[|sep|..], sep)
    else SplitCount(s[1..], sep)
  }

  const BlankLine: string := "\n\n"

  /** Putting one more character in front never loses a blank-line separator. */
  lemma {:induction false} SplitCountConsChar(c: char, s: string)
    ensures SplitCount([c] + s, BlankLine) >= SplitCount(s, BlankLine)
    decreases |s|
  {
    var t := [c] + s;
    assert t[1..] == s;
    if |t| >= 2 && t[..2] == BlankLine {
      assert s[0] == '\n';
      if |s| >= 2 && s[..2] == BlankLine {
        assert s[1..] == [s[1]] + s[2..];
        SplitCountConsChar(s[1], s[2..]);
      }
    }
  }

  lemma {:induction false} SplitCountPrefix(x: string, s: string)
    ensures SplitCount(x + s, BlankLine) >= SplitCount(s, BlankLine)
  {
    if x != [] {
      SplitCountPrefix(x[1..], s);
      assert x + s == [x[0]] + (x[1..] + s);
      SplitCountConsChar(x[0], x[1..] + s);
    } else {
      assert x + s == s;
    }
  }

  /** A prefix without line feeds contributes no separator. */
  lemma {:induction false} SplitCountNoNewlinePrefix(x: string, s: string)
    requires '\n' !in x
    ensures SplitCount(x + s, BlankLine) == SplitCount(s, BlankLine)
  {
    if x != [] {
      SplitCountNoNewlinePrefix(x[1..], s);
      var t := x + s;
      assert t[1..] == x[1..] + s;
      assert t[0] == x[0];
    } else {
      assert x + s == s;
    }
  }

  /** `n.toString()` for a non-negative integer. */
  function NatToString(n: nat): (r: string)
    ensures |r| >= 1
    ensures forall i :: 0 <= i < |r| ==> '0' <= r[i] <= '9'
  {
    var d := [(n % 10 + '0' as int) as char];
    if n < 10 then d else NatToString(n / 10) + d
  }
}
