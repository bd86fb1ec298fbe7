/** What the rewriting of the header leaves under each directive name, in one formula. */
module CspClosedForm {
  import opened Options
  import opened CspText
  import opened CspModel
  import opened CspRewrite

  /** The sources under the name, if there is such a directive. */
  function At(ds: Directives, name: string): Option<seq<string>> {
    if ds == [] then None else if ds[0].name == name then Some(ds[0].sources) else At(ds[1..], name)
  }

  lemma {:induction false} AtIs(ds: Directives, name: string)
    ensures HasName(ds, name) <==> At(ds, name).Some?
    ensures HasName(ds, name) ==> At(ds, name) == Some(SourcesOf(ds, name))
  {
    if ds != [] && ds[0].name != name {
      AtIs(ds[1..], name);
      if HasName(ds, name) {
        var i :| 0 <= i < |ds| && ds[i].name == name;
        assert ds[1..][i - 1].name == name;
      }
      if HasName(ds[1..], name) {
        var i :| 0 <= i < |ds[1..]| && ds[1..][i].name == name;
        assert ds[i + 1].name == name;
      }
    }
  }

  lemma {:induction false} AtPut(ds: Directives, name: string, sources: seq<string>, other: string)
    ensures At(Put(ds, name, sources), other) == if other == name then Some(sources) else At(ds, other)
  {
    if ds != [] && ds[0].name != name {
      AtPut(ds[1..], name, sources, other);
      assert Put(ds, name, sources)[1..] == Put(ds[1..], name, sources);
    }
  }

  // ---------------------------------------------------------------- adding in several steps

  /** The values that are not among the sources. */
  function NotAmong(values: seq<string>, sources: seq<string>): seq<string> {
    if values == [] then []
    else (if values[0] in sources then [] else [values[0]]) + NotAmong(values[1..], sources)
  }

  predicate NoRepeats(values: seq<string>) {
    forall i, j :: 0 <= i < j < |values| ==> values[i] != values[j]
  }

  function WithOne(current: seq<string>, value: string): seq<string> {
    if value in current then current else current + [value]
  }

  /** The same additions, said from their end. */
  function Added(current: seq<string>, values: seq<string>): seq<string> {
    if values == [] then current
    else WithOne(Added(current, values[..|values| - 1]), values[|values| - 1])
  }

  lemma {:induction false} AddedFromFront(current: seq<string>, values: seq<string>)
    requires values != []
    ensures Added(current, values) == Added(WithOne(current, values[0]), values[1..])
  {
    var n := |values| - 1;
    if n > 0 {
      AddedFromFront(current, values[..n]);
      assert values[..n][1..] == values[1..][..n - 1];
    }
  }

  lemma {:induction false} AddMissingIsAdded(current: seq<string>, values: seq<string>)
    ensures AddMissing(current, values) == Added(current, values)
    decreases |values|
  {
    if values != [] {
      AddedFromFront(current, values);
      AddMissingIsAdded(WithOne(current, values[0]), values[1..]);
    }
  }

  lemma {:induction false} AddedTwice(current: seq<string>, a: seq<string>, b: seq<string>)
    ensures Added(Added(current, a), b) == Added(current, a + b)
  {
    if b == [] {
      assert a + b == a;
    } else {
      var n := |b| - 1;
      AddedTwice(current, a, b[..n]);
      assert (a + b)[..|a + b| - 1] == a + b[..n];
    }
  }

  lemma {:induction false} NotAmongSnoc(values: seq<string>, last: string, sources: seq<string>)
    ensures NotAmong(values + [last], sources)
         == NotAmong(values, sources) + if last in sources then [] else [last]
  {
    if values == [] {
      assert NotAmong([last], sources) == (if last in sources then [] else [last]) + NotAmong([], sources);
    } else {
      assert (values + [last])[1..] == values[1..] + [last];
      NotAmongSnoc(values[1..], last, sources);
    }
  }

  lemma {:induction false} NotAmongIff(values: seq<string>, sources: seq<string>, v: string)
    ensures v in NotAmong(values, sources) <==> v in values && v !in sources
  {
    if values != [] { NotAmongIff(values[1..], sources, v); }
  }

  /** Values without repetitions are added if they are not there yet, in their order. */
  lemma {:induction false} AddedIs(current: seq<string>, values: seq<string>)
    requires NoRepeats(values)
    ensures Added(current, values) == current + NotAmong(values, current)
  {
    if values != [] {
      var n := |values| - 1;
      AddedIs(current, values[..n]);
      NotAmongSnoc(values[..n], values[n], current);
      NotAmongIff(values[..n], current, values[n]);
      assert values == values[..n] + [values[n]];
    }
  }

  /** All values that the needs have for the name. */
  function Collected(needs: seq<Need>, name: string): seq<string> {
    if needs == [] then []
    else (if needs[0].name == name then needs[0].values else []) + Collected(needs[1..], name)
  }

  /** The sources to which missing ones are added. */
  function Start(sources: Option<seq<string>>): seq<string> {
    match sources case None => ["'self'"] case Some(s) => s
  }

  lemma AppendAt(ds: Directives, need: Need, name: string)
    ensures At(Append(ds, need.name, need.values), name) ==
      if need.name == name then Some(Added(Start(At(ds, name)), need.values)) else At(ds, name)
  {
    var start := Start(At(ds, need.name));
    AtIs(ds, need.name);
    AddMissingIsAdded(start, need.values);
    AtPut(ds, need.name, Added(start, need.values), name);
  }

  /** The sources under a name after some values have been added to them, if there are any to add. */
  function Grown(sources: Option<seq<string>>, values: seq<string>): Option<seq<string>> {
    if values == [] then sources else Some(Added(Start(sources), values))
  }

  lemma GrownTwice(sources: Option<seq<string>>, a: seq<string>, b: seq<string>)
    ensures Grown(Grown(sources, a), b) == Grown(sources, a + b)
  {
    AddedTwice(Start(sources), a, b);
    if a == [] { assert a + b == b; }
    if b == [] { assert a + b == a; }
  }

  lemma {:induction false} AppendedAt(ds: Directives, needs: seq<Need>, name: string)
    requires forall k :: 0 <= k < |needs| ==> needs[k].values != []
    ensures At(AppendAll(ds, needs), name) == Grown(At(ds, name), Collected(needs, name))
    decreases |needs|
  {
    if needs != [] {
      AppendAt(ds, needs[0], name);
      AppendedAt(Append(ds, needs[0].name, needs[0].values), needs[1..], name);
      GrownTwice(At(ds, name), if needs[0].name == name then needs[0].values else [], Collected(needs[1..], name));
    }
  }

  // ---------------------------------------------------------------- the providers

  /** The sources that the configured providers need under a directive name. */
  function Wanted(o: Origins, name: string): seq<string> {
    match name
    case "script-src" =>
      (if o.google then ["https://accounts.google.com"] else [])
      + (if o.apple then ["https://appleid.cdn-apple.com"] else [])
    case "frame-src" =>
      (if o.google then ["https://accounts.google.com"] else [])
      + (if o.apple then ["https://appleid.apple.com"] else [])
    case "connect-src" =>
      (if o.google then ["https://accounts.google.com", "https://oauth2.googleapis.com"] else [])
      + (if o.apple then ["https://appleid.apple.com"] else [])
    case _ => []
  }

  function Values(need: Need, name: string): seq<string> {
    if need.name == name then need.values else []
  }

  lemma OneCollected(need: Need, more: seq<Need>, name: string)
    ensures Collected([need] + more, name) == Values(need, name) + Collected(more, name)
  {
    assert ([need] + more)[1..] == more;
  }

  lemma ThreeCollected(a: Need, b: Need, c: Need, name: string)
    ensures Collected([a, b, c], name) == Values(a, name) + Values(b, name) + Values(c, name)
  {
    OneCollected(a, [b, c], name);
    OneCollected(b, [c], name);
    OneCollected(c, [], name);
    assert [a] + [b, c] == [a, b, c] && [b] + [c] == [b, c] && [c] + [] == [c];
  }

  /** The three directives that each provider needs. */
  lemma ThreeNames(name: string, x: seq<string>, y: seq<string>, z: seq<string>)
    ensures Collected([Need("script-src", x), Need("frame-src", y), Need("connect-src", z)], name) ==
      match name case "script-src" => x case "frame-src" => y case "connect-src" => z case _ => []
  {
    ThreeCollected(Need("script-src", x), Need("frame-src", y), Need("connect-src", z), name);
    assert |"script-src"| == 10 && |"frame-src"| == 9 && |"connect-src"| == 11;
  }

  lemma {:induction false} CollectedInTurn(a: seq<Need>, b: seq<Need>, name: string)
    ensures Collected(a + b, name) == Collected(a, name) + Collected(b, name)
  {
    if a == [] {
      assert a + b == b;
    } else {
      assert (a + b)[1..] == a[1..] + b;
      CollectedInTurn(a[1..], b, name);
    }
  }

  lemma GoogleNeeds(name: string)
    ensures Collected(Needs(Origins(true, false)), name) == Wanted(Origins(true, false), name)
  {
    var account, both := [GOOGLE_ACCOUNTS], [GOOGLE_ACCOUNTS, GOOGLE_OAUTH];
    ThreeNames(name, account, account, both);
    assert Needs(Origins(true, false))
      == [Need("script-src", account), Need("frame-src", account), Need("connect-src", both)];
  }

  lemma AppleNeeds(name: string)
    ensures Collected(Needs(Origins(false, true)), name) == Wanted(Origins(false, true), name)
  {
    ThreeNames(name, [APPLE_CDN], [APPLE_ID], [APPLE_ID]);
    assert Needs(Origins(false, true))
      == [Need("script-src", [APPLE_CDN]), Need("frame-src", [APPLE_ID]), Need("connect-src", [APPLE_ID])];
  }

  lemma CollectedIsWanted(o: Origins, name: string)
    ensures Collected(Needs(o), name) == Wanted(o, name)
    ensures forall k :: 0 <= k < |Needs(o)| ==> Needs(o)[k].values != []
  {
    GoogleNeeds(name);
    AppleNeeds(name);
    CollectedInTurn(Needs(Origins(o.google, false)), Needs(Origins(false, o.apple)), name);
    assert Needs(o) == Needs(Origins(o.google, false)) + Needs(Origins(false, o.apple));
  }

  lemma WantedHasNoRepeats(o: Origins, name: string)
    ensures NoRepeats(Wanted(o, name))
  {
    assert |"https://accounts.google.com"| == 27 && |"https://oauth2.googleapis.com"| == 29;
    assert |"https://appleid.cdn-apple.com"| == 29 && |"https://appleid.apple.com"| == 25;
  }

  /**
   Under each name the rewritten header has what the header had, or 'self' if it had no such directive and a
   provider needs one, followed by the needed sources that were missing, Google's before Apple's.
   */
  lemma RewrittenAt(header: string, o: Origins, name: string)
    requires header != ""
    ensures var before := At(Parse(header), name);
      At(Parse(Rewrite(header, o)), name) ==
        if Wanted(o, name) == [] then before
        else Some(Start(before) + NotAmong(Wanted(o, name), Start(before)))
  {
    CollectedIsWanted(o, name);
    if o != Origins(false, false) {
      ParseIsWellFormed(header);
      NeedsAreGood(o);
      AppendAllDoes(Parse(header), Needs(o));
      ParseRendersBack(AppendAll(Parse(header), Needs(o)));
      AppendedAt(Parse(header), Needs(o), name);
      WantedHasNoRepeats(o, name);
      AddedIs(Start(At(Parse(header), name)), Wanted(o, name));
    }
  }

  // ---------------------------------------------------------------- the order of the directives

  function NamesOf(ds: Directives): seq<string> {
    seq(|ds|, i requires 0 <= i < |ds| => ds[i].name)
  }

  function NeedNames(needs: seq<Need>): seq<string> {
    seq(|needs|, i requires 0 <= i < |needs| => needs[i].name)
  }

  lemma NamedIff(ds: Directives, name: string)
    ensures HasName(ds, name) <==> name in NamesOf(ds)
  {
    if HasName(ds, name) {
      var i :| 0 <= i < |ds| && ds[i].name == name;
      assert NamesOf(ds)[i] == name;
    }
  }

  lemma AppendNames(ds: Directives, need: Need)
    ensures NamesOf(Append(ds, need.name, need.values)) == WithOne(NamesOf(ds), need.name)
  {
    NamedIff(ds, need.name);
    if HasName(ds, need.name) {
      var i :| FirstAt(ds, need.name, SourcesOf(ds, need.name), i);
      AppendAtIs(ds, need, i);
    } else {
      PutNew(ds, need.name, AddMissing([SELF], need.values));
    }
  }

  lemma {:induction false} AppendAllNames(ds: Directives, needs: seq<Need>)
    ensures NamesOf(AppendAll(ds, needs)) == Added(NamesOf(ds), NeedNames(needs))
    decreases |needs|
  {
    if needs != [] {
      var next := Append(ds, needs[0].name, needs[0].values);
      AppendNames(ds, needs[0]);
      AppendAllNames(next, needs[1..]);
      FirstNeedName(needs);
      NamesInTurn(NamesOf(ds), needs[0].name, NamesOf(next), NeedNames(needs));
    }
  }

  lemma FirstNeedName(needs: seq<Need>)
    requires needs != []
    ensures NeedNames(needs) == [needs[0].name] + NeedNames(needs[1..])
  {
  }

  lemma NamesInTurn(names: seq<string>, first: string, next: seq<string>, all: seq<string>)
    requires all != [] && all[0] == first && next == WithOne(names, first)
    ensures Added(next, all[1..]) == Added(names, all)
  {
    AddedFromFront(names, all);
  }

  lemma {:induction false} AddedNothing(current: seq<string>, values: seq<string>)
    requires forall v :: v in values ==> v in current
    ensures Added(current, values) == current
  {
    if values != [] { AddedNothing(current, values[..|values| - 1]); }
  }

  lemma {:induction false} AddedAreThere(current: seq<string>, values: seq<string>)
    ensures forall v :: v in values ==> v in Added(current, values)
  {
    if values != [] { AddedAreThere(current, values[..|values| - 1]); }
  }

  const THREE_NAMES := ["script-src", "frame-src", "connect-src"]

  lemma NeedsNameThree(o: Origins)
    requires o.google || o.apple
    ensures NeedNames(Needs(o)) == THREE_NAMES + if o.google && o.apple then THREE_NAMES else []
  {
  }

  /** The directives of the header keep their order, and the missing ones among these three follow in this order. */
  lemma RewrittenNames(header: string, o: Origins)
    requires header != "" && (o.google || o.apple)
    ensures var before := NamesOf(Parse(header));
      NamesOf(Parse(Rewrite(header, o))) == before + NotAmong(["script-src", "frame-src", "connect-src"], before)
  {
    var before := NamesOf(Parse(header));
    ParseIsWellFormed(header);
    NeedsAreGood(o);
    AppendAllDoes(Parse(header), Needs(o));
    ParseRendersBack(AppendAll(Parse(header), Needs(o)));
    AppendAllNames(Parse(header), Needs(o));
    NeedsNameThree(o);
    AddedTwice(before, THREE_NAMES, if o.google && o.apple then THREE_NAMES else []);
    AddedAreThere(before, THREE_NAMES);
    AddedNothing(Added(before, THREE_NAMES), if o.google && o.apple then THREE_NAMES else []);
    ThreeNamesDiffer();
    AddedIs(before, THREE_NAMES);
  }

  lemma ThreeNamesDiffer()
    ensures NoRepeats(THREE_NAMES)
  {
    assert |"script-src"| == 10 && |"frame-src"| == 9 && |"connect-src"| == 11;
  }

  /** Nothing is rewritten without a header, or without a provider. */
  lemma UntouchedHeaders(header: string, o: Origins)
    requires header == "" || (!o.google && !o.apple)
    ensures Rewrite(header, o) == header
  {
  }
}
