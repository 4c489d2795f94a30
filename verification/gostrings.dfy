/**
 * The parts of Go's `strings` package the services rely on: `Index`,
 * `Split`, `Join`, `Replace(s, pat, repl, -1)` and `ToLower`, on strings
 * viewed as sequences of runes.
 */
module GoStrings {
  import opened Wrappers

  /** `pat` occurs in `s` starting at position `i`. */
  predicate OccursAt(s: string, pat: string, i: int) {
    0 <= i && i + |pat| <= |s| && s[i..i + |pat|] == pat
  }

  lemma OccursAtTail(s: string, pat: string, j: int)
    requires |s| > 0 && 0 <= j
    ensures OccursAt(s, pat, j + 1) <==> OccursAt(s[1..], pat, j)
  {
    if 0 <= j && j + 1 + |pat| <= |s| {
      assert s[1..][j..j + |pat|] == s[j + 1..j + 1 + |pat|];
    }
  }

  /** `strings.Index`: the first position at which `pat` occurs, if any. */
  function Index(s: string, pat: string): (r: Option<nat>)
    ensures r.Some? ==> OccursAt(s, pat, r.value)
    ensures r.Some? ==> forall j :: 0 <= j < r.value ==> !OccursAt(s, pat, j)
    ensures r.None? ==> forall j :: !OccursAt(s, pat, j)
    decreases |s|
  {
    if |s| < |pat| then None
    else if s[..|pat|] == pat then Some(0)
    else
      var tail := Index(s[1..], pat);
      assert forall j :: 0 <= j ==> (OccursAt(s, pat, j + 1) <==> OccursAt(s[1..], pat, j)) by {
        forall j | 0 <= j ensures OccursAt(s, pat, j + 1) <==> OccursAt(s[1..], pat, j) {
          OccursAtTail(s, pat, j);
        }
      }
      assert !OccursAt(s, pat, 0);
      match tail
      case None =>
        assert forall j :: !OccursAt(s, pat, j) by {
          forall j ensures !OccursAt(s, pat, j) {
            if j > 0 { assert !OccursAt(s[1..], pat, j - 1); }
          }
        }
        None
      case Some(k) =>
        assert forall j :: 0 <= j < k + 1 ==> !OccursAt(s, pat, j) by {
          forall j | 0 <= j < k + 1 ensures !OccursAt(s, pat, j) {
            if j > 0 { assert !OccursAt(s[1..], pat, j - 1); }
          }
        }
        Some(k + 1)
  }

  /**
   * `strings.Split(s, sep)` for a non-empty separator: the pieces between
   * non-overlapping, left-to-right occurrences of `sep`. Never empty; the
   * split of "" is [""].
   */
  function Split(s: string, sep: string): (parts: seq<string>)
    requires |sep| > 0
    ensures |parts| >= 1
    decreases |s|, 1
  {
    match Index(s, sep)
    case None => [s]
    case Some(i) => SplitAt(s, sep, i)
  }

  /** The piece before the occurrence of `sep` at `i`, then the split of what follows it. */
  function SplitAt(s: string, sep: string, i: nat): (parts: seq<string>)
    requires |sep| > 0 && i + |sep| <= |s|
    ensures |parts| >= 2
    decreases |s|, 0
  {
    [s[..i]] + Split(s[i + |sep|..], sep)
  }

  /** `strings.Join(parts, sep)`. */
  function Join(parts: seq<string>, sep: string): string
  {
    if |parts| == 0 then ""
    else if |parts| == 1 then parts[0]
    else parts[0] + sep + Join(parts[1..], sep)
  }

  /**
   * `strings.Replace(s, pat, repl, -1)` for a non-empty `pat`: every
   * non-overlapping occurrence, left to right, is replaced.
   */
  function ReplaceAll(s: string, pat: string, repl: string): (r: string)
    requires |pat| > 0
    decreases |s|, 1
  {
    match Index(s, pat)
    case None => s
    case Some(i) => ReplaceAt(s, pat, repl, i)
  }

  /** The occurrence of `pat` at `i` replaced, and everything after it replaced in turn. */
  function ReplaceAt(s: string, pat: string, repl: string, i: nat): string
    requires |pat| > 0 && i + |pat| <= |s|
    decreases |s|, 0
  {
    s[..i] + repl + ReplaceAll(s[i + |pat|..], pat, repl)
  }

  /** Without an occurrence of `pat`, replacing leaves the string as it is. */
  lemma ReplaceAllAbsent(s: string, pat: string, repl: string)
    requires |pat| > 0
    requires forall j :: !OccursAt(s, pat, j)
    ensures ReplaceAll(s, pat, repl) == s
  {
  }

  lemma ReplaceAllEmpty(pat: string, repl: string)
    requires |pat| > 0
    ensures ReplaceAll("", pat, repl) == ""
  {
  }

  /** The number of occurrences `ReplaceAll` and `Split` act on. */
  function Count(s: string, sep: string): nat
    requires |sep| > 0
  {
    |Split(s, sep)| - 1
  }

  /** `ReplaceAll` unfolded at a known first occurrence `i`. */
  lemma ReplaceAllAtFirst(s: string, pat: string, repl: string, i: nat)
    requires |pat| > 0 && Index(s, pat) == Some(i)
    ensures i + |pat| <= |s|
    ensures ReplaceAll(s, pat, repl) == ReplaceAt(s, pat, repl, i)
  {
  }

  /** Joining the pieces of a split with the separator gives the string back. */
  lemma {:induction false} JoinSplit(s: string, sep: string)
    requires |sep| > 0
    ensures Join(Split(s, sep), sep) == s
    decreases |s|
  {
    var idx := Index(s, sep);
    if idx.Some? {
      var i := idx.value;
      JoinSplit(s[i + |sep|..], sep);
      JoinSplitAt(s, sep, i);
    }
  }

  /** The inductive step of `JoinSplit`, at an occurrence `i` of `sep`. */
  lemma JoinSplitAt(s: string, sep: string, i: nat)
    requires |sep| > 0 && OccursAt(s, sep, i)
    requires Join(Split(s[i + |sep|..], sep), sep) == s[i + |sep|..]
    ensures Join(SplitAt(s, sep, i), sep) == s
  {
    var rest := s[i + |sep|..];
    var tail := Split(rest, sep);
    assert Join([s[..i]] + tail, sep) == s[..i] + sep + Join(tail, sep);
    assert s == s[..i] + s[i..i + |sep|] + rest;
  }

  /** Splitting on a one-rune separator undoes a join of pieces free of it. */
  lemma {:induction false} SplitJoin(parts: seq<string>, c: char)
    requires |parts| >= 1
    requires forall i :: 0 <= i < |parts| ==> c !in parts[i]
    ensures Split(Join(parts, [c]), [c]) == parts
    decreases |parts|
  {
    var p := parts[0];
    if |parts| == 1 {
      RuneAbsent(p, c);
      assert Join(parts, [c]) == p;
    } else {
      var rest := Join(parts[1..], [c]);
      assert Join(parts, [c]) == p + [c] + rest;
      SplitAtRune(p, c, rest);
      SplitJoin(parts[1..], c);
      assert [p] + parts[1..] == parts;
    }
  }

  /** A string without the rune `c` holds no occurrence of `[c]`. */
  lemma RuneAbsent(p: string, c: char)
    requires c !in p
    ensures forall j :: !OccursAt(p, [c], j)
  {
    forall j | 0 <= j < |p| ensures !OccursAt(p, [c], j) {
      assert p[j] != c;
      assert p[j..j + 1] == [p[j]];
    }
  }

  /** The first `c` after a piece free of it is where `Split` cuts. */
  lemma SplitAtRune(p: string, c: char, rest: string)
    requires c !in p
    ensures Split(p + [c] + rest, [c]) == [p] + Split(rest, [c])
  {
    var s := p + [c] + rest;
    RuneAbsent(p, c);
    assert OccursAt(s, [c], |p|) by { assert s[|p|..|p| + 1] == [c]; }
    forall j | 0 <= j < |p| ensures !OccursAt(s, [c], j) {
      assert s[j..j + 1] == p[j..j + 1];
      assert !OccursAt(p, [c], j);
    }
    assert Index(s, [c]) == Some(|p|);
    assert s[..|p|] == p;
    assert s[|p| + 1..] == rest;
  }

  /** `ReplaceAll` is the join of the split with the replacement. */
  lemma {:induction false} ReplaceAllIsJoinOfSplit(s: string, pat: string, repl: string)
    requires |pat| > 0
    ensures ReplaceAll(s, pat, repl) == Join(Split(s, pat), repl)
    decreases |s|
  {
    var idx := Index(s, pat);
    if idx.Some? {
      var i := idx.value;
      var rest := s[i + |pat|..];
      ReplaceAllIsJoinOfSplit(rest, pat, repl);
      var tail := Split(rest, pat);
      assert Split(s, pat) == [s[..i]] + tail;
      assert ReplaceAll(s, pat, repl) == s[..i] + repl + ReplaceAll(rest, pat, repl);
      assert Join([s[..i]] + tail, repl) == s[..i] + repl + Join(tail, repl);
    }
  }

  /** Total length of a sequence of strings. */
  function SumLengths(parts: seq<string>): nat
  {
    if |parts| == 0 then 0 else |parts[0]| + SumLengths(parts[1..])
  }

  lemma MulSucc(k: int, d: int)
    ensures (k + 1) * d == k * d + d
  {
  }

  lemma MulSub(k: int, a: int, b: int)
    ensures k * (a - b) == k * a - k * b
  {
  }

  /** A join is as long as its parts plus one separator between each two. */
  lemma {:induction false} JoinLength(parts: seq<string>, sep: string)
    requires |parts| >= 1
    ensures |Join(parts, sep)| == SumLengths(parts) + (|parts| - 1) * |sep|
    decreases |parts|
  {
    if |parts| > 1 {
      JoinLength(parts[1..], sep);
      MulSucc(|parts| - 2, |sep|);
    }
  }

  /** Each replaced occurrence changes the length by `|repl| - |pat|`. */
  lemma ReplaceAllLength(s: string, pat: string, repl: string)
    requires |pat| > 0
    ensures |ReplaceAll(s, pat, repl)| == |s| + Count(s, pat) * (|repl| - |pat|)
  {
    var parts := Split(s, pat);
    ReplaceAllIsJoinOfSplit(s, pat, repl);
    JoinSplit(s, pat);
    JoinLength(parts, pat);
    JoinLength(parts, repl);
    MulSub(Count(s, pat), |repl|, |pat|);
  }

  /**
   * `unicode.ToLower` on one rune. Besides 'A'..'Z', U+0130 and U+212A are
   * the only runes whose lower case is ASCII; every other rune is kept,
   * which never turns a non-ASCII rune into an ASCII one.
   */
  function LowerRune(c: char): char
  {
    if 'A' <= c <= 'Z' then (c as int + 32) as char
    else if c == '\U{0130}' then 'i'
    else if c == '\U{212A}' then 'k'
    else c
  }

  predicate IsLowerAscii(s: string) {
    forall i :: 0 <= i < |s| ==> 'a' <= s[i] <= 'z'
  }

  /** `strings.ToLower`, rune by rune. */
  function ToLower(s: string): (r: string)
    ensures |r| == |s|
    ensures forall i :: 0 <= i < |s| ==> r[i] == LowerRune(s[i])
    ensures IsLowerAscii(s) ==> r == s
  {
    seq(|s|, i requires 0 <= i < |s| => LowerRune(s[i]))
  }
}
