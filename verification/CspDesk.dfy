/** The middleware in the form the program has it: a dict filled in a loop, lists extended in place. */
module CspDesk {
  import opened CspText
  import opened CspModel
  import opened CspRewrite

  class Policy {
    var directives: Directives

    /** `_parse` */
    constructor (header: string)
      ensures directives == Parse(header)
    {
      directives := [];
      new;
      var parts := Parts(header);
      var i := 0;
      while i < |parts|
        invariant i <= |parts|
        invariant ParseParts(directives, parts[i..]) == Parse(header)
        modifies this
      {
        var pieces := Words(parts[i]);
        if pieces != [] {
          directives := Put(directives, pieces[0], pieces[1..]);
        }
        i := i + 1;
      }
    }

    /** `_append` */
    method Append(name: string, values: seq<string>)
      modifies this
      ensures directives == CspRewrite.Append(old(directives), name, values)
    {
      var current := if HasName(directives, name) then SourcesOf(directives, name) else [SELF];
      ghost var start := current;
      var i := 0;
      while i < |values|
        invariant i <= |values|
        invariant AddMissing(current, values[i..]) == AddMissing(start, values)
        invariant directives == old(directives)
      {
        if values[i] !in current { current := current + [values[i]]; }
        assert values[i..][1..] == values[i + 1..];
        i := i + 1;
      }
      directives := Put(directives, name, current);
    }

    /** The block of the middleware for a configured Google client. */
    method AllowGoogle()
      modifies this
      ensures directives == AppendAll(old(directives), Needs(Origins(true, false)))
    {
      ThreeNeeds(directives, Needs(Origins(true, false)));
      Append("script-src", [GOOGLE_ACCOUNTS]);
      Append("frame-src", [GOOGLE_ACCOUNTS]);
      Append("connect-src", [GOOGLE_ACCOUNTS, GOOGLE_OAUTH]);
    }

    /** The block of the middleware for a configured Apple service. */
    method AllowApple()
      modifies this
      ensures directives == AppendAll(old(directives), Needs(Origins(false, true)))
    {
      ThreeNeeds(directives, Needs(Origins(false, true)));
      Append("script-src", [APPLE_CDN]);
      Append("frame-src", [APPLE_ID]);
      Append("connect-src", [APPLE_ID]);
    }
  }

  /** The response header after the middleware, on a response that has one. */
  method RewriteHeader(header: string, html: bool, o: Origins) returns (r: string)
    ensures r == if html then Rewrite(header, o) else header
  {
    if header == "" || !html { return header; }
    if !o.google && !o.apple { return header; }
    var policy := new Policy(header);
    ghost var parsed := policy.directives;
    if o.google { policy.AllowGoogle(); }
    if o.apple { policy.AllowApple(); }
    InTurn(parsed, Needs(Origins(o.google, false)), Needs(Origins(false, o.apple)));
    NeedsSplit(o);
    return Render(policy.directives);
  }

  lemma NeedsSplit(o: Origins)
    ensures Needs(o) == Needs(Origins(o.google, false)) + Needs(Origins(false, o.apple))
    ensures Needs(Origins(false, false)) == []
  {
  }

  lemma ThreeNeeds(ds: Directives, n: seq<Need>)
    requires |n| == 3
    ensures AppendAll(ds, n) ==
      var d1 := CspRewrite.Append(ds, n[0].name, n[0].values);
      var d2 := CspRewrite.Append(d1, n[1].name, n[1].values);
      CspRewrite.Append(d2, n[2].name, n[2].values)
  {
    var d1 := CspRewrite.Append(ds, n[0].name, n[0].values);
    var d2 := CspRewrite.Append(d1, n[1].name, n[1].values);
    assert n[1..][1..] == n[2..] && n[2..][1..] == [];
    assert AppendAll(ds, n) == AppendAll(d1, n[1..]);
    assert AppendAll(d1, n[1..]) == AppendAll(d2, n[2..]);
    assert AppendAll(d2, n[2..]) == AppendAll(CspRewrite.Append(d2, n[2].name, n[2].values), []);
  }

  lemma {:induction false} InTurn(ds: Directives, a: seq<Need>, b: seq<Need>)
    ensures AppendAll(ds, a + b) == AppendAll(AppendAll(ds, a), b)
    decreases |a|
  {
    if a == [] {
      assert a + b == b;
    } else {
      assert (a + b)[1..] == a[1..] + b;
      InTurn(CspRewrite.Append(ds, a[0].name, a[0].values), a[1..], b);
    }
  }
}
