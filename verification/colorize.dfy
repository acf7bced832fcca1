/**
 * `Context.colorUsername`: a per-render memo table from sender to colour,
 * filled lazily from a fixed palette, and the HTML fragment for a sender.
 * The random choice `rand.Intn(len(Colors)-1)` is an explicit index.
 */
module Colorize {
  import opened Wrappers
  import opened GoStrings

  /** The palette `generateHTML` installs, in its order. */
  const Palette: seq<String> := [
    "red", "green", "blue", "violet", "turquoise",
    "coral", "brown", "crimson", "darkblue",
    "fuschia", "indigo", "maroon", "navy"
  ]

  /** The rendering context: the palette and the colours assigned so far. */
  datatype Context = Context(colors: seq<String>, users: map<String, String>)

  /** `rand.Intn(n)` panics when `n <= 0`, i.e. when the palette has fewer than two colours. */
  datatype Panic = IntnNonPositive

  /**
   * The context of one `generateHTML` call: thirteen colours ending in
   * "navy", and an empty table, which trivially holds only colours the
   * random choice can produce.
   */
  function NewContext(): (ctx: Context)
    ensures |ctx.colors| == 13 && ctx.colors[12] == "navy"
    ensures ctx.users == map[]
    ensures TableFromPalette(ctx)
  {
    Context(Palette, map[])
  }

  /** The colours `rand.Intn(len(colors)-1)` can select: all but the last. */
  predicate Assignable(colors: seq<String>, c: String) {
    exists k :: 0 <= k < |colors| - 1 && colors[k] == c
  }

  /** Every colour in the table is one the random choice can produce. */
  predicate TableFromPalette(ctx: Context) {
    forall u :: u in ctx.users ==> Assignable(ctx.colors, ctx.users[u])
  }

  const FragmentOpen: String := "&lt;<span style=\"color: "
  const FragmentMid: String := "; font-weight: bold;\">"
  const FragmentClose: String := "</span>&gt;"

  /**
   * The sender, in the palette colour, between escaped angle brackets. Both
   * are inserted verbatim, without escaping: the colour and the sender can
   * be read back from fixed offsets.
   */
  function Fragment(color: String, s: String): (html: String)
    ensures |html| == |FragmentOpen| + |color| + |FragmentMid| + |s| + |FragmentClose|
    ensures html[..|FragmentOpen|] == FragmentOpen
    ensures html[|FragmentOpen|..|FragmentOpen| + |color|] == color
    ensures html[|FragmentOpen| + |color|..|html| - |FragmentClose| - |s|] == FragmentMid
    ensures html[|html| - |FragmentClose| - |s|..|html| - |FragmentClose|] == s
    ensures html[|html| - |FragmentClose|..] == FragmentClose
  {
    FragmentOpen + color + FragmentMid + s + FragmentClose
  }

  /**
   * colorUsername(s) with `i` standing for the value of `rand.Intn`: a known
   * sender keeps its colour and the table is unchanged; a new sender is
   * given `colors[i]`, and nothing else in the table changes.
   */
  function ColorUsername(ctx: Context, s: String, i: nat): (r: Result<(String, Context), Panic>)
    requires s !in ctx.users && |ctx.colors| >= 2 ==> i < |ctx.colors| - 1
    ensures r.Failure? <==> s !in ctx.users && |ctx.colors| < 2
    ensures s in ctx.users ==> r == Success((Fragment(ctx.users[s], s), ctx))
    ensures r.Success? ==> var (html, next) := r.value;
      && next.colors == ctx.colors
      && s in next.users
      && html == Fragment(next.users[s], s)
      && next.users.Keys == ctx.users.Keys + {s}
      && (forall u :: u in ctx.users ==> next.users[u] == ctx.users[u])
      && (s !in ctx.users ==> next.users[s] == ctx.colors[i])
      && (s !in ctx.users ==> Assignable(ctx.colors, next.users[s]))
  {
    if s in ctx.users then Success((Fragment(ctx.users[s], s), ctx))
    else if |ctx.colors| < 2 then Failure(IntnNonPositive)
    else
      var color := ctx.colors[i];
      Success((Fragment(color, s), ctx.(users := ctx.users[s := color])))
  }

  /** colorUsername keeps every colour in the table within the assignable part of the palette. */
  lemma ColorUsernameKeepsTable(ctx: Context, s: String, i: nat)
    requires s !in ctx.users && |ctx.colors| >= 2 ==> i < |ctx.colors| - 1
    requires TableFromPalette(ctx)
    ensures ColorUsername(ctx, s, i).Success? ==> TableFromPalette(ColorUsername(ctx, s, i).value.1)
  {
  }

  /** `next` keeps the palette and every assignment of `ctx`. */
  predicate Extends(ctx: Context, next: Context) {
    && next.colors == ctx.colors
    && ctx.users.Keys <= next.users.Keys
    && forall u :: u in ctx.users ==> next.users[u] == ctx.users[u]
  }

  /**
   * The colour lookups of one render: colorUsername on each sender in turn,
   * `picks[k]` standing for the random value drawn at the k-th call. Every
   * fragment uses the colour the final table holds for its sender, so equal
   * senders get equal fragments.
   */
  function ColorAll(ctx: Context, senders: seq<String>, picks: seq<nat>): (r: Result<(seq<String>, Context), Panic>)
    requires |picks| == |senders|
    requires |ctx.colors| >= 2 ==> forall k :: 0 <= k < |picks| ==> picks[k] < |ctx.colors| - 1
    ensures |ctx.colors| >= 2 ==> r.Success?
    ensures r.Success? ==> var (htmls, final) := r.value;
      && |htmls| == |senders|
      && Extends(ctx, final)
      && final.users.Keys == ctx.users.Keys + (set u | u in senders)
      && (forall k :: 0 <= k < |senders| ==> senders[k] in final.users && htmls[k] == Fragment(final.users[senders[k]], senders[k]))
    decreases |senders|
  {
    if |senders| == 0 then Success(([], ctx))
    else
      match ColorUsername(ctx, senders[0], picks[0])
      case Failure(p) => Failure(p)
      case Success((html, next)) =>
        match ColorAll(next, senders[1..], picks[1..])
        case Failure(p) => Failure(p)
        case Success((htmls, final)) =>
          ColorAllStep(ctx, senders, html, next, htmls, final);
          Success(([html] + htmls, final))
  }

  /** The senders of a non-empty list: the first one and those of the rest. */
  lemma SendersOfCons(senders: seq<String>)
    requires |senders| > 0
    ensures (set u | u in senders) == {senders[0]} + (set u | u in senders[1..])
  {
    assert senders == [senders[0]] + senders[1..];
  }

  /** Joins the first lookup of a render with the lookups of the rest. */
  lemma ColorAllStep(ctx: Context, senders: seq<String>, html: String, next: Context, htmls: seq<String>, final: Context)
    requires |senders| > 0 && |htmls| == |senders| - 1
    requires Extends(ctx, next) && next.users.Keys == ctx.users.Keys + {senders[0]}
    requires senders[0] in next.users && html == Fragment(next.users[senders[0]], senders[0])
    requires Extends(next, final) && final.users.Keys == next.users.Keys + (set u | u in senders[1..])
    requires forall k :: 0 <= k < |senders[1..]| ==> senders[1..][k] in final.users && htmls[k] == Fragment(final.users[senders[1..][k]], senders[1..][k])
    ensures Extends(ctx, final)
    ensures final.users.Keys == ctx.users.Keys + (set u | u in senders)
    ensures var out := [html] + htmls;
      forall k :: 0 <= k < |senders| ==> senders[k] in final.users && out[k] == Fragment(final.users[senders[k]], senders[k])
  {
    SendersOfCons(senders);
    var out := [html] + htmls;
    var s0 := senders[0];
    assert final.users[s0] == next.users[s0];
    assert out[0] == Fragment(final.users[s0], s0);
    forall k | 1 <= k < |senders|
      ensures senders[k] in final.users && out[k] == Fragment(final.users[senders[k]], senders[k])
    {
      assert out[k] == htmls[k - 1];
      assert senders[k] == senders[1..][k - 1];
    }
  }

  /** Within one render a sender is always shown with the same fragment. */
  lemma SameSenderSameFragment(ctx: Context, senders: seq<String>, picks: seq<nat>, j: nat, k: nat)
    requires |picks| == |senders|
    requires |ctx.colors| >= 2 ==> forall m :: 0 <= m < |picks| ==> picks[m] < |ctx.colors| - 1
    requires j < |senders| && k < |senders| && senders[j] == senders[k]
    requires ColorAll(ctx, senders, picks).Success?
    ensures ColorAll(ctx, senders, picks).value.0[j] == ColorAll(ctx, senders, picks).value.0[k]
  {
  }

  /** The colour-table invariant holds throughout a render. */
  lemma {:induction false} ColorAllKeepsTable(ctx: Context, senders: seq<String>, picks: seq<nat>)
    requires |picks| == |senders|
    requires |ctx.colors| >= 2 ==> forall k :: 0 <= k < |picks| ==> picks[k] < |ctx.colors| - 1
    requires TableFromPalette(ctx)
    ensures ColorAll(ctx, senders, picks).Success? ==> TableFromPalette(ColorAll(ctx, senders, picks).value.1)
    decreases |senders|
  {
    if |senders| > 0 {
      ColorUsernameKeepsTable(ctx, senders[0], picks[0]);
      var first := ColorUsername(ctx, senders[0], picks[0]);
      if first.Success? {
        ColorAllKeepsTable(first.value.1, senders[1..], picks[1..]);
      }
    }
  }

  /**
   * With the palette of generateHTML, a render never assigns its last
   * colour, "navy": the random bound leaves it out.
   */
  lemma NavyNeverAssigned(senders: seq<String>, picks: seq<nat>)
    requires |picks| == |senders|
    requires forall k :: 0 <= k < |picks| ==> picks[k] < |Palette| - 1
    ensures ColorAll(NewContext(), senders, picks).Success?
    ensures "navy" !in ColorAll(NewContext(), senders, picks).value.1.users.Values
  {
    ColorAllKeepsTable(NewContext(), senders, picks);
    var final := ColorAll(NewContext(), senders, picks).value.1;
    NavyNotAssignable();
    forall u | u in final.users ensures final.users[u] != "navy" {
      assert Assignable(final.colors, final.users[u]);
    }
  }

  /** "navy" occurs in the palette only in its last place. */
  lemma NavyNotAssignable()
    ensures !Assignable(Palette, "navy")
  {
    forall k | 0 <= k < |Palette| - 1 ensures Palette[k] != "navy" {
      assert Palette[k][0] != 'n' || |Palette[k]| != 4;
    }
  }
}
