/** The rewriting of the header that lets the social login scripts load. */
module CspRewrite {
  import opened CspText
  import opened CspModel

  /** Which providers are configured. */
  datatype Origins = Origins(google: bool, apple: bool)

  const SELF: string := "'self'"
  const GOOGLE_ACCOUNTS: string := "https://accounts.google.com"
  const GOOGLE_OAUTH: string := "https://oauth2.googleapis.com"
  const APPLE_CDN: string := "https://appleid.cdn-apple.com"
  const APPLE_ID: string := "https://appleid.apple.com"

  /** The i-th directive is the first of this name, with these sources. */
  predicate FirstAt(ds: Directives, name: string, sources: seq<string>, i: int) {
    0 <= i < |ds| && ds[i] == Directive(name, sources) && forall j :: 0 <= j < i ==> ds[j].name != name
  }

  function SourcesOf(ds: Directives, name: string): (sources: seq<string>)
    requires HasName(ds, name)
    ensures exists i :: FirstAt(ds, name, sources, i)
  {
    if ds[0].name == name then
      assert FirstAt(ds, name, ds[0].sources, 0);
      ds[0].sources
    else
      assert HasName(ds[1..], name) by {
        var i :| 0 <= i < |ds| && ds[i].name == name;
        assert ds[1..][i - 1] == ds[i];
      }
      var sources := SourcesOf(ds[1..], name);
      assert exists i :: FirstAt(ds, name, sources, i) by {
        var i :| FirstAt(ds[1..], name, sources, i);
        forall j | 0 <= j < i + 1 ensures ds[j].name != name {
          if j > 0 { assert ds[j] == ds[1..][j - 1]; }
        }
        assert FirstAt(ds, name, sources, i + 1);
      }
      sources
  }

  function AddMissing(current: seq<string>, values: seq<string>): (r: seq<string>)
    ensures current <= r
    ensures forall v :: v in values ==> v in r
    ensures (forall v :: v in values ==> v in current) ==> r == current
    ensures forall v :: v in r ==> v in current || v in values
    decreases |values|
  {
    if values == [] then current
    else
      var next := if values[0] in current then current else current + [values[0]];
      assert values[0] in next && values == [values[0]] + values[1..];
      AddMissing(next, values[1..])
  }

  /** `_append` */
  function Append(ds: Directives, name: string, values: seq<string>): Directives {
    Put(ds, name, AddMissing(if HasName(ds, name) then SourcesOf(ds, name) else [SELF], values))
  }

  /** One requirement of a provider: these sources under this directive. */
  datatype Need = Need(name: string, values: seq<string>)

  function Needs(o: Origins): seq<Need> {
    (if o.google then [Need("script-src", [GOOGLE_ACCOUNTS]), Need("frame-src", [GOOGLE_ACCOUNTS]),
                       Need("connect-src", [GOOGLE_ACCOUNTS, GOOGLE_OAUTH])] else [])
    + (if o.apple then [Need("script-src", [APPLE_CDN]), Need("frame-src", [APPLE_ID]),
                        Need("connect-src", [APPLE_ID])] else [])
  }

  function AppendAll(ds: Directives, needs: seq<Need>): Directives
    decreases |needs|
  {
    if needs == [] then ds else AppendAll(Append(ds, needs[0].name, needs[0].values), needs[1..])
  }

  /** The middleware on an HTML response; without a header or providers the response is left as it is. */
  function Rewrite(header: string, o: Origins): string {
    if header == "" || o == Origins(false, false) then header
    else Render(AppendAll(Parse(header), Needs(o)))
  }

  // ---------------------------------------------------------------- what appending keeps

  /** Same directives in the same places, each with its sources as a prefix, perhaps more after them. */
  ghost predicate Extends(a: Directives, b: Directives) {
    |a| <= |b| && forall i :: 0 <= i < |a| ==> b[i].name == a[i].name && a[i].sources <= b[i].sources
  }

  predicate GoodNeed(n: Need) {
    IsToken(n.name) && forall k :: 0 <= k < |n.values| ==> IsToken(n.values[k])
  }

  predicate Satisfies(ds: Directives, n: Need) {
    exists i :: 0 <= i < |ds| && ds[i].name == n.name && forall v :: v in n.values ==> v in ds[i].sources
  }

  lemma AppendAtIs(ds: Directives, n: Need, i: nat)
    requires HasName(ds, n.name) && i < |ds| && ds[i] == Directive(n.name, SourcesOf(ds, n.name))
    requires forall j :: 0 <= j < i ==> ds[j].name != n.name
    ensures Append(ds, n.name, n.values) == ds[i := Directive(n.name, AddMissing(ds[i].sources, n.values))]
  {
    PutAt(ds, n.name, AddMissing(ds[i].sources, n.values), i);
  }

  lemma ExtendedAt(ds: Directives, n: Need, i: nat, sources: seq<string>)
    requires i < |ds| && ds[i].name == n.name && ds[i].sources <= sources && forall v :: v in n.values ==> v in sources
    ensures var r := ds[i := Directive(n.name, sources)];
      Extends(ds, r) && Satisfies(r, n)
  {
    assert ds[i := Directive(n.name, sources)][i] == Directive(n.name, sources);
  }

  lemma SatisfiedAt(ds: Directives, n: Need, i: nat)
    requires Distinct(ds) && i < |ds| && ds[i].name == n.name && Satisfies(ds, n)
    ensures forall v :: v in n.values ==> v in ds[i].sources
  {
    var k :| 0 <= k < |ds| && ds[k].name == n.name && forall v :: v in n.values ==> v in ds[k].sources;
    assert k == i;
  }

  lemma AppendDoes(ds: Directives, n: Need)
    requires WellFormed(ds) && GoodNeed(n)
    ensures WellFormed(Append(ds, n.name, n.values))
    ensures Extends(ds, Append(ds, n.name, n.values))
    ensures Satisfies(Append(ds, n.name, n.values), n)
    ensures Satisfies(ds, n) ==> Append(ds, n.name, n.values) == ds
  {
    if HasName(ds, n.name) {
      var current := SourcesOf(ds, n.name);
      var i :| FirstAt(ds, n.name, current, i);
      assert GoodDirective(ds[i]);
      AddedAreTokens(current, n.values);
      PutKeepsWellFormed(ds, n.name, AddMissing(current, n.values));
      AppendAtIs(ds, n, i);
      ExtendedAt(ds, n, i, AddMissing(current, n.values));
      if Satisfies(ds, n) { SatisfiedAt(ds, n, i); }
    } else {
      assert IsToken(SELF);
      AddedAreTokens([SELF], n.values);
      PutNew(ds, n.name, AddMissing([SELF], n.values));
      PutKeepsWellFormed(ds, n.name, AddMissing([SELF], n.values));
      assert Append(ds, n.name, n.values)[|ds|].name == n.name;
    }
  }

  lemma AddedAreTokens(current: seq<string>, values: seq<string>)
    requires forall k :: 0 <= k < |current| ==> IsToken(current[k])
    requires forall k :: 0 <= k < |values| ==> IsToken(values[k])
    ensures forall k :: 0 <= k < |AddMissing(current, values)| ==> IsToken(AddMissing(current, values)[k])
  {
    forall k | 0 <= k < |AddMissing(current, values)| ensures IsToken(AddMissing(current, values)[k]) {
      var v := AddMissing(current, values)[k];
      assert v in AddMissing(current, values);
    }
  }

  lemma ExtendsKeepsSatisfied(a: Directives, b: Directives, n: Need)
    requires Extends(a, b) && Satisfies(a, n)
    ensures Satisfies(b, n)
  {
    var i :| 0 <= i < |a| && a[i].name == n.name && forall v :: v in n.values ==> v in a[i].sources;
    assert b[i].name == n.name && forall v :: v in a[i].sources ==> v in b[i].sources;
  }

  lemma {:induction false} AppendAllDoes(ds: Directives, needs: seq<Need>)
    requires WellFormed(ds) && forall k :: 0 <= k < |needs| ==> GoodNeed(needs[k])
    ensures WellFormed(AppendAll(ds, needs))
    ensures Extends(ds, AppendAll(ds, needs))
    decreases |needs|
  {
    if needs != [] {
      AppendDoes(ds, needs[0]);
      AppendAllDoes(Append(ds, needs[0].name, needs[0].values), needs[1..]);
    }
  }

  lemma {:induction false} AppendAllSatisfies(ds: Directives, needs: seq<Need>, k: nat)
    requires WellFormed(ds) && forall k :: 0 <= k < |needs| ==> GoodNeed(needs[k])
    requires k < |needs|
    ensures Satisfies(AppendAll(ds, needs), needs[k])
    decreases |needs|
  {
    var next := Append(ds, needs[0].name, needs[0].values);
    var end := AppendAll(next, needs[1..]);
    AppendDoes(ds, needs[0]);
    assert AppendAll(ds, needs) == end;
    if k == 0 {
      assert Satisfies(end, needs[0]) by {
        AppendAllDoes(next, needs[1..]);
        ExtendsKeepsSatisfied(next, end, needs[0]);
      }
    } else {
      assert Satisfies(end, needs[1..][k - 1]) by { AppendAllSatisfies(next, needs[1..], k - 1); }
    }
  }

  lemma {:induction false} AppendAllWhenSatisfied(ds: Directives, needs: seq<Need>)
    requires WellFormed(ds) && forall k :: 0 <= k < |needs| ==> GoodNeed(needs[k])
    requires forall k :: 0 <= k < |needs| ==> Satisfies(ds, needs[k])
    ensures AppendAll(ds, needs) == ds
    decreases |needs|
  {
    if needs != [] {
      AppendDoes(ds, needs[0]);
      AppendAllWhenSatisfied(ds, needs[1..]);
    }
  }

  /** Where a source of the rewritten header may come from. */
  ghost predicate Accounted(from: Directives, needs: seq<Need>, name: string, source: string) {
    || (exists i :: 0 <= i < |from| && from[i].name == name && source in from[i].sources)
    || (source == SELF && !HasName(from, name))
    || (exists k :: 0 <= k < |needs| && needs[k].name == name && source in needs[k].values)
  }

  ghost predicate AllAccounted(from: Directives, needs: seq<Need>, ds: Directives) {
    forall i, v :: 0 <= i < |ds| && v in ds[i].sources ==> Accounted(from, needs, ds[i].name, v)
  }

  lemma AppendIsAccounted(from: Directives, needs: seq<Need>, ds: Directives, k: nat)
    requires AllAccounted(from, needs, ds) && Extends(from, ds) && k < |needs|
    ensures AllAccounted(from, needs, Append(ds, needs[k].name, needs[k].values))
  {
    var name := needs[k].name;
    var r := Append(ds, name, needs[k].values);
    if HasName(ds, name) {
      var current := SourcesOf(ds, name);
      var i :| FirstAt(ds, name, current, i);
      PutAt(ds, name, AddMissing(current, needs[k].values), i);
      forall j, v | 0 <= j < |r| && v in r[j].sources ensures Accounted(from, needs, r[j].name, v) {
        if j == i { assert v in ds[i].sources || v in needs[k].values; }
        else { assert r[j] == ds[j]; }
      }
    } else {
      PutNew(ds, name, AddMissing([SELF], needs[k].values));
      forall i | 0 <= i < |from| ensures from[i].name != name { assert ds[i].name == from[i].name; }
    }
  }

  lemma {:induction false} AppendAllIsAccounted(from: Directives, needs: seq<Need>, ds: Directives, k: nat)
    requires AllAccounted(from, needs, ds) && Extends(from, ds) && k <= |needs| && WellFormed(ds)
    requires forall k :: 0 <= k < |needs| ==> GoodNeed(needs[k])
    ensures AllAccounted(from, needs, AppendAll(ds, needs[k..]))
    decreases |needs| - k
  {
    if k < |needs| {
      AppendIsAccounted(from, needs, ds, k);
      AppendDoes(ds, needs[k]);
      assert needs[k..][1..] == needs[k + 1..];
      AppendAllIsAccounted(from, needs, Append(ds, needs[k].name, needs[k].values), k + 1);
    }
  }

  // ---------------------------------------------------------------- the header

  lemma ParseIsWellFormed(header: string)
    ensures WellFormed(Parse(header))
  {
    ParsePartsWellFormed([], Parts(header));
  }

  lemma GoogleConstants()
    ensures IsToken(GOOGLE_ACCOUNTS) && IsToken(GOOGLE_OAUTH)
  {
  }

  lemma NameConstants()
    ensures IsToken("script-src") && IsToken("frame-src") && IsToken("connect-src")
  {
  }

  lemma AppleCdnConstant()
    ensures IsToken(APPLE_CDN)
  {
  }

  lemma AppleIdConstant()
    ensures IsToken(APPLE_ID)
  {
  }

  lemma NeedsAreGood(o: Origins)
    ensures forall k :: 0 <= k < |Needs(o)| ==> GoodNeed(Needs(o)[k])
  {
    GoogleConstants();
    NameConstants();
    AppleCdnConstant();
    AppleIdConstant();
  }

  /**
   No parsed source is dropped or moved, every source the providers need is there, and nothing else
   is, except 'self' in a directive that the header did not have.
   */
  lemma RewriteKeepsSources(header: string, o: Origins)
    requires header != "" && o != Origins(false, false)
    ensures Extends(Parse(header), Parse(Rewrite(header, o)))
    ensures forall k :: 0 <= k < |Needs(o)| ==> Satisfies(Parse(Rewrite(header, o)), Needs(o)[k])
    ensures AllAccounted(Parse(header), Needs(o), Parse(Rewrite(header, o)))
  {
    ParseIsWellFormed(header);
    NeedsAreGood(o);
    assert Needs(o)[0..] == Needs(o);
    AppendAllIsAccounted(Parse(header), Needs(o), Parse(header), 0);
    AppendAllDoes(Parse(header), Needs(o));
    ParseRendersBack(AppendAll(Parse(header), Needs(o)));
    forall k | 0 <= k < |Needs(o)| ensures Satisfies(AppendAll(Parse(header), Needs(o)), Needs(o)[k]) {
      AppendAllSatisfies(Parse(header), Needs(o), k);
    }
  }

  /** Rewriting a rewritten header changes nothing, whatever the header was. */
  lemma RewriteIsIdempotent(header: string, o: Origins)
    ensures Rewrite(Rewrite(header, o), o) == Rewrite(header, o)
  {
    if header != "" && o != Origins(false, false) {
      RewriteKeepsSources(header, o);
      ParseIsWellFormed(header);
      NeedsAreGood(o);
      var ds := AppendAll(Parse(header), Needs(o));
      AppendAllDoes(Parse(header), Needs(o));
      ParseRendersBack(ds);
      AppendAllWhenSatisfied(ds, Needs(o));
    }
  }
}
