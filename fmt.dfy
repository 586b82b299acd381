/** `fmt.Sprintf` with a single `int` argument, as the path templates use it. */
module Fmt {
  import opened Decimal

  /**
   * `fmt.Sprintf(format, arg)`: the first `%d` takes the argument, a later
   * one has nothing left and is written `%!d(MISSING)`, `%%` is a literal
   * percent sign, a `%` at the very end is `%!(NOVERB)`, and an argument no
   * verb used is reported after the text as `%!(EXTRA int=N)`.
   */
  function Sprintf(format: string, arg: int): string
  {
    Format(format, arg, false)
  }

  function Format(f: string, arg: int, used: bool): string
    decreases |f|
  {
    if f == [] then (if used then "" else Extra(arg))
    else if f[0] != '%' then [f[0]] + Format(f[1..], arg, used)
    else if |f| == 1 then "%!(NOVERB)" + Format([], arg, used)
    else if f[1] == 'd' then (if used then "%!d(MISSING)" else IntToDecimal(arg)) + Format(f[2..], arg, true)
    else if f[1] == '%' then "%" + Format(f[2..], arg, used)
    else [f[0]] + Format(f[1..], arg, used)
  }

  predicate NoVerbs(s: string) { forall i :: 0 <= i < |s| ==> s[i] != '%' }

  /** Text without `%` is copied as it stands. */
  lemma {:induction false} FormatLiteral(pre: string, rest: string, arg: int, used: bool)
    requires NoVerbs(pre)
    ensures Format(pre + rest, arg, used) == pre + Format(rest, arg, used)
  {
    if pre != [] {
      var f := pre + rest;
      assert f[0] == pre[0] && f[0] != '%';
      assert f[1..] == pre[1..] + rest;
      assert Format(f, arg, used) == [pre[0]] + Format(pre[1..] + rest, arg, used);
      FormatLiteral(pre[1..], rest, arg, used);
      assert pre == [pre[0]] + pre[1..];
    } else {
      assert pre + rest == rest;
    }
  }

  /** A template with a single `%d` and no other verb gets the decimal argument in its place. */
  lemma SprintfOneVerb(pre: string, post: string, arg: int)
    requires NoVerbs(pre) && NoVerbs(post)
    ensures Sprintf(pre + "%d" + post, arg) == pre + IntToDecimal(arg) + post
  {
    assert pre + "%d" + post == pre + ("%d" + post);
    FormatLiteral(pre, "%d" + post, arg, false);
    var g := "%d" + post;
    assert g[0] == '%' && g[1] == 'd' && g[2..] == post;
    FormatLiteral(post, [], arg, true);
    assert post + [] == post;
  }

  /** The report Go appends for an argument no verb consumed. */
  function Extra(arg: int): (r: string)
    ensures |r| > 0 && r[0] == '%'
  {
    "%!(EXTRA int=" + IntToDecimal(arg) + ")"
  }

  /** A template without verbs is copied, and the unused argument is reported after it. */
  lemma SprintfExtra(s: string, arg: int)
    requires NoVerbs(s)
    ensures Sprintf(s, arg) == s + Extra(arg)
  {
    FormatLiteral(s, [], arg, false);
    assert s + [] == s;
  }

  /** A second `%d` finds no argument left and is written `%!d(MISSING)`; nothing is reported as extra. */
  lemma SprintfMissing(pre: string, mid: string, post: string, arg: int)
    requires NoVerbs(pre) && NoVerbs(mid) && NoVerbs(post)
    ensures Sprintf(pre + "%d" + mid + "%d" + post, arg) == pre + IntToDecimal(arg) + mid + "%!d(MISSING)" + post
  {
    var g := "%d" + post;
    var f := "%d" + mid + g;
    var d, missing := IntToDecimal(arg), "%!d(MISSING)";
    assert pre + "%d" + mid + "%d" + post == pre + f;
    FormatLiteral(pre, f, arg, false);
    assert f[0] == '%' && f[1] == 'd' && f[2..] == mid + g;
    assert Format(f, arg, false) == d + Format(mid + g, arg, true);
    FormatLiteral(mid, g, arg, true);
    assert g[0] == '%' && g[1] == 'd' && g[2..] == post;
    assert Format(g, arg, true) == missing + Format(post, arg, true);
    FormatLiteral(post, [], arg, true);
    assert post + [] == post;
    assert pre + (d + (mid + (missing + post))) == pre + d + mid + missing + post;
  }

  /** A `%` that ends the template is `%!(NOVERB)`, and the argument is then unused. */
  lemma SprintfNoVerb(pre: string, arg: int)
    requires NoVerbs(pre)
    ensures Sprintf(pre + "%", arg) == pre + "%!(NOVERB)" + Extra(arg)
  {
    FormatLiteral(pre, "%", arg, false);
  }

  /** `%%` is a literal percent sign and consumes no argument. */
  lemma SprintfPercent(pre: string, post: string, arg: int)
    requires NoVerbs(pre) && NoVerbs(post)
    ensures Sprintf(pre + "%%" + post, arg) == pre + "%" + post + Extra(arg)
  {
    var g := "%%" + post;
    assert pre + "%%" + post == pre + g;
    FormatLiteral(pre, g, arg, false);
    assert g[0] == '%' && g[1] == '%' && g[2..] == post;
    assert Format(g, arg, false) == "%" + Format(post, arg, false);
    FormatLiteral(post, [], arg, false);
    assert post + [] == post;
    assert Format(post, arg, false) == post + Extra(arg);
    assert pre + ("%" + (post + Extra(arg))) == pre + "%" + post + Extra(arg);
  }
}
