/**
 * The parts of Go's `strings` package the log converter relies on, over
 * strings modelled as sequences of characters. Positions are character
 * positions, where Go counts bytes: the two agree on text made of ASCII
 * characters only.
 */
module GoStrings {

  type String = seq<char>

  /** True when `sub` occurs in `s` starting at position `j`. */
  predicate OccursAt(s: String, sub: String, j: int) {
    0 <= j && j + |sub| <= |s| && s[j..j + |sub|] == sub
  }

  /** An occurrence fixes the characters it covers. */
  lemma OccursAtPos(s: String, sub: String, j: int, k: nat)
    requires k < |sub|
    ensures OccursAt(s, sub, j) ==> 0 <= j + k < |s| && s[j + k] == sub[k]
  {
    if OccursAt(s, sub, j) {
      assert s[j..j + |sub|][k] == s[j + k];
    }
  }

  /**
   * strings.Index: the position of the first occurrence of `sub` in `s`,
   * or -1 when there is none. The empty string occurs at position 0.
   */
  function Index(s: String, sub: String): (r: int)
    ensures -1 <= r
    ensures r >= 0 ==> OccursAt(s, sub, r)
    ensures forall j :: 0 <= j < r ==> !OccursAt(s, sub, j)
    ensures r == -1 ==> forall j :: !OccursAt(s, sub, j)
  {
    IndexFrom(s, sub, 0)
  }

  /** The first occurrence of `sub` in `s` at or after position `i`, or -1. */
  function IndexFrom(s: String, sub: String, i: nat): (r: int)
    ensures r == -1 || i <= r
    ensures r >= 0 ==> OccursAt(s, sub, r)
    ensures forall j :: i <= j < r ==> !OccursAt(s, sub, j)
    ensures r == -1 ==> forall j :: i <= j ==> !OccursAt(s, sub, j)
    decreases |s| - i
  {
    if i + |sub| > |s| then -1
    else if s[i..i + |sub|] == sub then i
    else IndexFrom(s, sub, i + 1)
  }

  /** The first occurrence is the one with no occurrence before it. */
  lemma IndexIs(s: String, sub: String, k: int)
    requires OccursAt(s, sub, k)
    requires forall j :: 0 <= j < k ==> !OccursAt(s, sub, j)
    ensures Index(s, sub) == k
  {
  }

  /** strings.Contains: whether `sub` occurs anywhere in `s`. */
  function Contains(s: String, sub: String): (r: bool)
    ensures r <==> exists j :: OccursAt(s, sub, j)
  {
    Index(s, sub) >= 0
  }

  /** strings.HasSuffix. */
  predicate HasSuffix(s: String, suffix: String) {
    |suffix| <= |s| && s[|s| - |suffix|..] == suffix
  }

  /** strings.TrimSuffix: `s` without `suffix` when it ends with it, else `s` itself. */
  function TrimSuffix(s: String, suffix: String): (r: String)
    ensures r <= s
    ensures HasSuffix(s, suffix) ==> r + suffix == s
    ensures !HasSuffix(s, suffix) ==> r == s
  {
    if HasSuffix(s, suffix) then s[..|s| - |suffix|] else s
  }

  /** Trimming undoes appending: TrimSuffix is a left inverse of `x + suffix`. */
  lemma TrimSuffixOfAppend(x: String, suffix: String)
    ensures TrimSuffix(x + suffix, suffix) == x
  {
    assert (x + suffix)[|x|..] == suffix;
  }

  /** strings.Join with a one-character separator. */
  function Join(parts: seq<String>, sep: char): (r: String)
    decreases |parts|
  {
    if |parts| == 0 then []
    else if |parts| == 1 then parts[0]
    else parts[0] + [sep] + Join(parts[1..], sep)
  }

  /** An occurrence of the one-character string `[c]` is an occurrence of `c`. */
  lemma OccursAtChar(s: String, c: char, j: int)
    ensures OccursAt(s, [c], j) <==> 0 <= j < |s| && s[j] == c
  {
    if 0 <= j < |s| {
      assert s[j..j + 1] == [s[j]];
    }
  }

  /**
   * strings.Split with a one-character separator: the pieces between the
   * separators, always at least one; joining them back gives `s`.
   */
  function Split(s: String, sep: char): (r: seq<String>)
    ensures |r| >= 1
    ensures forall i :: 0 <= i < |r| ==> sep !in r[i]
    ensures Join(r, sep) == s
    decreases |s|
  {
    var i := Index(s, [sep]);
    if i < 0 then
      assert sep !in s by {
        forall j | 0 <= j < |s| ensures s[j] != sep { OccursAtChar(s, sep, j); }
      }
      [s]
    else
      OccursAtChar(s, sep, i);
      assert sep !in s[..i] by {
        forall j | 0 <= j < i ensures s[j] != sep { OccursAtChar(s, sep, j); }
      }
      var rest := Split(s[i + 1..], sep);
      assert s == s[..i] + [sep] + s[i + 1..];
      [s[..i]] + rest
  }

  /** Splitting is the inverse of joining pieces that hold no separator. */
  lemma {:induction false} SplitJoin(parts: seq<String>, sep: char)
    requires |parts| >= 1
    requires forall i :: 0 <= i < |parts| ==> sep !in parts[i]
    ensures Split(Join(parts, sep), sep) == parts
    decreases |parts|
  {
    var s := Join(parts, sep);
    var p := parts[0];
    var i := Index(s, [sep]);
    forall j | 0 <= j < |p| ensures !OccursAt(s, [sep], j) {
      OccursAtChar(s, sep, j);
      assert s[j] == p[j];
    }
    if |parts| == 1 {
      assert s == p;
      if i >= 0 {
        OccursAtChar(s, sep, i);
        assert false;
      }
    } else {
      var tail := Join(parts[1..], sep);
      assert s == p + [sep] + tail;
      OccursAtChar(s, sep, |p|);
      assert i == |p|;
      assert s[i + 1..] == tail;
      assert s[..i] == p;
      SplitJoin(parts[1..], sep);
      assert parts == [p] + parts[1..];
    }
  }
}
