/**
 * `trimSuffixes`: the channel name is the input file's base name with the
 * listed suffixes trimmed, each at most once, in list order.
 */
module ChannelName {
  import opened GoStrings

  /** The suffixes `main` trims from the input file's base name. */
  const LogSuffixes: seq<String> := [".txt", ".log"]

  /** The summed lengths of the suffixes: a bound on what trimming removes. */
  function TotalLength(suffixes: seq<String>): nat
    decreases |suffixes|
  {
    if |suffixes| == 0 then 0 else |suffixes[0]| + TotalLength(suffixes[1..])
  }

  /**
   * TrimSuffix applied with each suffix in turn. The result is a prefix of
   * `s`, shorter by at most the summed suffix lengths.
   */
  function TrimSuffixes(s: String, suffixes: seq<String>): (r: String)
    ensures r <= s
    ensures |s| - |r| <= TotalLength(suffixes)
    decreases |suffixes|
  {
    if |suffixes| == 0 then s
    else TrimSuffixes(TrimSuffix(s, suffixes[0]), suffixes[1..])
  }

  /**
   * The channel name `main` derives from the input file's base name: a
   * prefix of it, at most eight characters shorter, and the base name
   * itself when it ends in neither ".txt" nor ".log".
   */
  function ChannelNameOf(base: String): (name: String)
    ensures name <= base
    ensures |base| - |name| <= 8
    ensures !HasSuffix(base, ".txt") && !HasSuffix(base, ".log") ==> name == base
  {
    assert TotalLength(LogSuffixes) == 8 by {
      assert LogSuffixes[1..][1..] == [];
    }
    PlainNameUnchanged(base);
    TrimSuffixes(base, LogSuffixes)
  }

  /** A base name ending in neither ".txt" nor ".log" is its own channel name. */
  lemma PlainNameUnchanged(base: String)
    ensures !HasSuffix(base, ".txt") && !HasSuffix(base, ".log") ==> TrimSuffixes(base, LogSuffixes) == base
  {
    if !HasSuffix(base, ".txt") && !HasSuffix(base, ".log") {
      NoListedSuffixUnchanged(base, LogSuffixes);
    }
  }

  /** A name that ends with none of the suffixes is returned unchanged. */
  lemma {:induction false} NoListedSuffixUnchanged(s: String, suffixes: seq<String>)
    requires forall k :: 0 <= k < |suffixes| ==> !HasSuffix(s, suffixes[k])
    ensures TrimSuffixes(s, suffixes) == s
    decreases |suffixes|
  {
    if |suffixes| > 0 {
      NoListedSuffixUnchanged(s, suffixes[1..]);
    }
  }

  /** Trimming with a concatenated list trims with the first part, then the second. */
  lemma {:induction false} TrimSuffixesAppend(s: String, a: seq<String>, b: seq<String>)
    ensures TrimSuffixes(s, a + b) == TrimSuffixes(TrimSuffixes(s, a), b)
    decreases |a|
  {
    if |a| > 0 {
      assert (a + b)[0] == a[0];
      assert (a + b)[1..] == a[1..] + b;
      TrimSuffixesAppend(TrimSuffix(s, a[0]), a[1..], b);
    } else {
      assert a + b == b;
    }
  }

  /**
   * A name `x + suffixes[i]` loses exactly that suffix, provided `x` ends with
   * none of the suffixes and no earlier suffix already matches the whole name.
   */
  lemma ListedSuffixTrimmed(x: String, suffixes: seq<String>, i: nat)
    requires i < |suffixes|
    requires forall k :: 0 <= k < |suffixes| ==> !HasSuffix(x, suffixes[k])
    requires forall k :: 0 <= k < i ==> !HasSuffix(x + suffixes[i], suffixes[k])
    ensures TrimSuffixes(x + suffixes[i], suffixes) == x
  {
    var name := x + suffixes[i];
    var before, after := suffixes[..i], suffixes[i + 1..];
    assert suffixes == before + ([suffixes[i]] + after);
    TrimSuffixesAppend(name, before, [suffixes[i]] + after);
    NoListedSuffixUnchanged(name, before);
    TrimSuffixOfAppend(x, suffixes[i]);
    assert TrimSuffixes(name, [suffixes[i]] + after) == TrimSuffixes(x, after);
    NoListedSuffixUnchanged(x, after);
  }
}
