/** The Content-Security-Policy header as an ordered table of directives. */
module CspModel {
  import opened CspText

  datatype Directive = Directive(name: string, sources: seq<string>)

  /** An insertion-ordered dict from directive name to its list of sources. */
  type Directives = seq<Directive>

  predicate HasName(ds: Directives, name: string) {
    exists i :: 0 <= i < |ds| && ds[i].name == name
  }

  predicate Distinct(ds: Directives) {
    forall i, j :: 0 <= i < j < |ds| ==> ds[i].name != ds[j].name
  }

  predicate GoodDirective(d: Directive) {
    IsToken(d.name) && forall k :: 0 <= k < |d.sources| ==> IsToken(d.sources[k])
  }

  predicate WellFormed(ds: Directives) {
    && Distinct(ds)
    && forall i :: 0 <= i < |ds| ==> GoodDirective(ds[i])
  }

  /** `d[name] = sources`: an existing key keeps its place. */
  function Put(ds: Directives, name: string, sources: seq<string>): Directives {
    if ds == [] then [Directive(name, sources)]
    else if ds[0].name == name then [Directive(name, sources)] + ds[1..]
    else [ds[0]] + Put(ds[1..], name, sources)
  }

  function ParsePart(ds: Directives, part: string): Directives {
    var pieces := Words(part);
    if pieces == [] then ds else Put(ds, pieces[0], pieces[1..])
  }

  function ParseParts(ds: Directives, parts: seq<string>): Directives
    decreases |parts|
  {
    if parts == [] then ds else ParseParts(ParsePart(ds, parts[0]), parts[1..])
  }

  function Parse(header: string): Directives {
    ParseParts([], Parts(header))
  }

  function RenderOne(d: Directive): string {
    d.name + " " + Join(" ", d.sources)
  }

  function RenderAll(ds: Directives): seq<string> {
    seq(|ds|, i requires 0 <= i < |ds| => RenderOne(ds[i]))
  }

  function Render(ds: Directives): string {
    Join("; ", RenderAll(ds))
  }

  // ---------------------------------------------------------------- every parse is well formed

  lemma {:induction false} PutNew(ds: Directives, name: string, sources: seq<string>)
    requires !HasName(ds, name)
    ensures Put(ds, name, sources) == ds + [Directive(name, sources)]
  {
    if ds != [] {
      forall i | 0 <= i < |ds[1..]| ensures ds[1..][i].name != name {
        assert ds[1..][i] == ds[i + 1];
      }
      PutNew(ds[1..], name, sources);
    }
  }

  lemma {:induction false} PutAt(ds: Directives, name: string, sources: seq<string>, i: nat)
    requires i < |ds| && ds[i].name == name && forall j :: 0 <= j < i ==> ds[j].name != name
    ensures Put(ds, name, sources) == ds[i := Directive(name, sources)]
  {
    if i > 0 { PutAt(ds[1..], name, sources, i - 1); }
  }

  lemma PutKeepsWellFormed(ds: Directives, name: string, sources: seq<string>)
    requires WellFormed(ds) && IsToken(name) && forall k :: 0 <= k < |sources| ==> IsToken(sources[k])
    ensures WellFormed(Put(ds, name, sources))
  {
    if HasName(ds, name) {
      var i :| 0 <= i < |ds| && ds[i].name == name;
      PutAt(ds, name, sources, i);
    } else {
      PutNew(ds, name, sources);
    }
  }

  lemma {:induction false} ParsePartsWellFormed(ds: Directives, parts: seq<string>)
    requires WellFormed(ds) && forall k :: 0 <= k < |parts| ==> NoSemicolon(parts[k])
    ensures WellFormed(ParseParts(ds, parts))
    decreases |parts|
  {
    if parts != [] {
      var pieces := Words(parts[0]);
      if pieces != [] { PutKeepsWellFormed(ds, pieces[0], pieces[1..]); }
      ParsePartsWellFormed(ParsePart(ds, parts[0]), parts[1..]);
    }
  }

  // ---------------------------------------------------------------- the round trip

  lemma WordsAfterSpace(s: string)
    ensures Words(" " + s) == Words(s)
  {
    assert (" " + s)[1..] == s;
  }

  lemma RenderOneHasNoSemicolon(d: Directive)
    requires GoodDirective(d)
    ensures NoSemicolon(RenderOne(d))
  {
    JoinHasNoSemicolon(d.sources);
  }

  lemma RenderedOneIsItsWords(lead: string, d: Directive)
    requires lead in {"", " "} && GoodDirective(d)
    ensures NoSemicolon(lead + RenderOne(d))
    ensures Words(lead + RenderOne(d)) == [d.name] + d.sources
  {
    RenderOneHasNoSemicolon(d);
    var body := Join(" ", d.sources);
    WordsOfJoin(d.sources);
    WordsOfMore(d.name, body);
    WordsAfterSpace(RenderOne(d));
    assert "" + RenderOne(d) == RenderOne(d);
  }

  lemma RenderedOneParses(ds: Directives, lead: string, d: Directive)
    requires lead in {"", " "} && !HasName(ds, d.name) && GoodDirective(d)
    ensures ParsePart(ds, lead + RenderOne(d)) == ds + [d]
  {
    RenderedOneIsItsWords(lead, d);
    PutNew(ds, d.name, d.sources);
  }

  lemma RenderUnfolds(lead: string, more: Directives)
    requires |more| > 1
    ensures lead + Render(more) == lead + RenderOne(more[0]) + ";" + (" " + Render(more[1..]))
  {
    assert RenderAll(more)[1..] == RenderAll(more[1..]);
    assert Render(more) == RenderOne(more[0]) + "; " + Render(more[1..]);
  }

  /** Parsing rendered directives on top of others appends them. */
  lemma {:induction false} RenderedParses(ds: Directives, lead: string, more: Directives)
    requires lead in {"", " "} && Distinct(ds + more) && more != []
    requires forall i :: 0 <= i < |more| ==> GoodDirective(more[i])
    ensures ParseParts(ds, Parts(lead + Render(more))) == ds + more
    decreases |more|
  {
    var first := lead + RenderOne(more[0]);
    HeadIsNew(ds, more);
    RenderedOneIsItsWords(lead, more[0]);
    RenderedOneParses(ds, lead, more[0]);
    if |more| == 1 {
      assert more == [more[0]];
      assert lead + Render(more) == first;
      PartsOfOne(first);
      OnePartParses(ds, first);
    } else {
      RenderUnfolds(lead, more);
      PartsOfMore(first, " " + Render(more[1..]));
      OneMorePartParses(ds, first, Parts(" " + Render(more[1..])));
      assert ds + more == ds + [more[0]] + more[1..];
      RenderedParses(ds + [more[0]], " ", more[1..]);
    }
  }

  lemma HeadIsNew(ds: Directives, more: Directives)
    requires Distinct(ds + more) && more != []
    ensures !HasName(ds, more[0].name)
  {
    assert (ds + more)[|ds|] == more[0];
    forall i | 0 <= i < |ds| ensures ds[i].name != more[0].name {
      assert (ds + more)[i] == ds[i];
    }
  }

  lemma OneMorePartParses(ds: Directives, part: string, rest: seq<string>)
    ensures ParseParts(ds, [part] + rest) == ParseParts(ParsePart(ds, part), rest)
  {
    assert ([part] + rest)[1..] == rest;
  }

  lemma OnePartParses(ds: Directives, part: string)
    ensures ParseParts(ds, [part]) == ParsePart(ds, part)
  {
    OneMorePartParses(ds, part, []);
    assert [part] + [] == [part];
  }

  /** Printing and parsing give back the table, in order. */
  lemma ParseRendersBack(ds: Directives)
    requires WellFormed(ds)
    ensures Parse(Render(ds)) == ds
  {
    if ds == [] {
      PartsOfOne("");
      assert ParseParts([], [""]) == ParseParts(ParsePart([], ""), []);
    } else {
      assert [] + ds == ds && "" + Render(ds) == Render(ds);
      RenderedParses([], "", ds);
    }
  }
}
