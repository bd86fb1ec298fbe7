/**
 "Parse a serialized CSP", section 2.2.1 of CSP Level 3: directive names are lowercased and the first
 occurrence of a name wins. The program keeps names as written and the last occurrence wins.
 */
module CspStandard {
  import opened CspText
  import opened CspModel

  /** ASCII whitespace of the Infra standard. */
  predicate IsAsciiSpace(c: char) {
    c as int in {9, 10, 12, 13, 32}
  }

  predicate IsAscii(s: string) {
    forall i :: 0 <= i < |s| ==> s[i] as int < 128
  }

  /** ASCII text whose only spaces are ASCII whitespace: where both ways of splitting see the same words. */
  predicate Plain(s: string) {
    IsAscii(s) && forall i :: 0 <= i < |s| && IsSpace(s[i]) ==> IsAsciiSpace(s[i])
  }

  function LowerChar(c: char): char {
    if 'A' <= c <= 'Z' then c - 'A' + 'a' else c
  }

  function Lower(s: string): (r: string)
    ensures |r| == |s|
  {
    seq(|s|, i requires 0 <= i < |s| => LowerChar(s[i]))
  }

  lemma LowerTwice(s: string)
    ensures Lower(Lower(s)) == Lower(s)
  {
  }

  function AsciiRun(s: string): (n: nat)
    ensures n <= |s|
    ensures s != [] && !IsAsciiSpace(s[0]) ==> n > 0
  {
    if s == [] || IsAsciiSpace(s[0]) then 0 else 1 + AsciiRun(s[1..])
  }

  /** Splitting on ASCII whitespace. */
  function AsciiWords(s: string): seq<string> {
    if s == [] then []
    else if IsAsciiSpace(s[0]) then AsciiWords(s[1..])
    else [s[..AsciiRun(s)]] + AsciiWords(s[AsciiRun(s)..])
  }

  function StandardPart(ds: Directives, part: string): Directives {
    var words := AsciiWords(part);
    if words == [] || !IsAscii(part) then ds
    else if HasName(ds, Lower(words[0])) then ds
    else ds + [Directive(Lower(words[0]), words[1..])]
  }

  function StandardParts(ds: Directives, parts: seq<string>): Directives
    decreases |parts|
  {
    if parts == [] then ds else StandardParts(StandardPart(ds, parts[0]), parts[1..])
  }

  function StandardParse(header: string): Directives {
    StandardParts([], Parts(header))
  }

  // ---------------------------------------------------------------- the same words

  lemma {:induction false} PlainRun(s: string)
    requires Plain(s)
    ensures AsciiRun(s) == RunLength(s)
  {
    if s != [] {
      assert IsAsciiSpace(s[0]) <==> IsSpace(s[0]);
      PlainRun(s[1..]);
    }
  }

  lemma {:induction false} PlainWords(s: string)
    requires Plain(s)
    ensures AsciiWords(s) == Words(s)
    decreases |s|
  {
    if s != [] {
      assert IsAsciiSpace(s[0]) <==> IsSpace(s[0]);
      if IsSpace(s[0]) {
        PlainWords(s[1..]);
      } else {
        PlainRun(s);
        PlainWords(s[RunLength(s)..]);
      }
    }
  }

  lemma {:induction false} PlainParts(s: string)
    requires Plain(s)
    ensures forall k :: 0 <= k < |Parts(s)| ==> Plain(Parts(s)[k])
    decreases |s|
  {
    var n := PartLength(s);
    assert Plain(s[..n]);
    if n < |s| {
      PlainParts(s[n + 1..]);
    }
  }

  // ---------------------------------------------------------------- both as folds over the pieces

  /** The nonempty directives of the header as written, repetitions included. */
  function Pieces(parts: seq<string>): seq<Directive> {
    if parts == [] then []
    else
      PieceOf(parts[0]) + Pieces(parts[1..])
  }

  function LastWins(ps: seq<Directive>): Directives {
    if ps == [] then []
    else Put(LastWins(ps[..|ps| - 1]), ps[|ps| - 1].name, ps[|ps| - 1].sources)
  }

  function FirstWins(ps: seq<Directive>): Directives {
    if ps == [] then []
    else
      var before := FirstWins(ps[..|ps| - 1]);
      var last := ps[|ps| - 1];
      if HasName(before, last.name) then before else before + [last]
  }

  function LowerNames(ps: seq<Directive>): (r: seq<Directive>)
    ensures |r| == |ps|
  {
    seq(|ps|, i requires 0 <= i < |ps| => Directive(Lower(ps[i].name), ps[i].sources))
  }

  lemma {:induction false} ParseIsLastWins(seen: seq<Directive>, parts: seq<string>)
    ensures ParseParts(LastWins(seen), parts) == LastWins(seen + Pieces(parts))
    decreases |parts|
  {
    if parts == [] {
      assert seen + Pieces(parts) == seen;
    } else {
      var more := seen + PieceOf(parts[0]);
      assert seen + (PieceOf(parts[0]) + Pieces(parts[1..])) == more + Pieces(parts[1..]);
      ParsePartIsPut(seen, parts[0]);
      ParseIsLastWins(more, parts[1..]);
    }
  }

  /** One part holds one piece at most. */
  function PieceOf(part: string): seq<Directive> {
    var words := Words(part);
    if words == [] then [] else [Directive(words[0], words[1..])]
  }

  lemma ParsePartIsPut(seen: seq<Directive>, part: string)
    ensures ParsePart(LastWins(seen), part) == LastWins(seen + PieceOf(part))
  {
    if PieceOf(part) == [] { assert seen + [] == seen; } else { LastWinsSnoc(seen, PieceOf(part)[0]); }
  }

  lemma LastWinsSnoc(ps: seq<Directive>, d: Directive)
    ensures LastWins(ps + [d]) == Put(LastWins(ps), d.name, d.sources)
  {
    assert (ps + [d])[..|ps + [d]| - 1] == ps;
  }

  /** The directive that the standard reads in a part: none unless the part is ASCII. */
  function StandardPieceOf(part: string): seq<Directive> {
    var words := AsciiWords(part);
    if words == [] || !IsAscii(part) then [] else [Directive(words[0], words[1..])]
  }

  function StandardPieces(parts: seq<string>): seq<Directive> {
    if parts == [] then [] else StandardPieceOf(parts[0]) + StandardPieces(parts[1..])
  }

  lemma {:induction false} StandardIsFirstWins(seen: seq<Directive>, parts: seq<string>)
    ensures StandardParts(FirstWins(LowerNames(seen)), parts) == FirstWins(LowerNames(seen + StandardPieces(parts)))
    decreases |parts|
  {
    if parts == [] {
      assert seen + StandardPieces(parts) == seen;
    } else {
      var more := seen + StandardPieceOf(parts[0]);
      assert seen + (StandardPieceOf(parts[0]) + StandardPieces(parts[1..])) == more + StandardPieces(parts[1..]);
      StandardPartIsFirst(seen, parts[0]);
      StandardIsFirstWins(more, parts[1..]);
    }
  }

  lemma StandardPartIsFirst(seen: seq<Directive>, part: string)
    ensures StandardPart(FirstWins(LowerNames(seen)), part) == FirstWins(LowerNames(seen + StandardPieceOf(part)))
  {
    if StandardPieceOf(part) == [] {
      assert seen + [] == seen;
    } else {
      var longer := LowerNames(seen + StandardPieceOf(part));
      assert longer[..|longer| - 1] == LowerNames(seen);
    }
  }

  // ---------------------------------------------------------------- names and sources of the folds

  function Names(ds: seq<Directive>): (r: seq<string>)
    ensures |r| == |ds|
  {
    seq(|ds|, i requires 0 <= i < |ds| => ds[i].name)
  }

  /** The names in order of their first occurrence. */
  function FirstOrder(ps: seq<Directive>): seq<string> {
    if ps == [] then []
    else
      var before := FirstOrder(ps[..|ps| - 1]);
      if ps[|ps| - 1].name in before then before else before + [ps[|ps| - 1].name]
  }

  lemma {:induction false} FirstOrderHasAll(ps: seq<Directive>)
    ensures forall n :: n in FirstOrder(ps) <==> exists i :: 0 <= i < |ps| && ps[i].name == n
  {
    if ps != [] {
      var init := ps[..|ps| - 1];
      FirstOrderHasAll(init);
      forall n ensures n in FirstOrder(ps) <==> exists i :: 0 <= i < |ps| && ps[i].name == n {
        if i :| 0 <= i < |init| && init[i].name == n { assert ps[i].name == n; }
        if i :| 0 <= i < |ps| && ps[i].name == n { assert i < |init| ==> init[i].name == n; }
      }
    }
  }

  function LastSources(ps: seq<Directive>, name: string): seq<string> {
    if ps == [] then []
    else if ps[|ps| - 1].name == name then ps[|ps| - 1].sources
    else LastSources(ps[..|ps| - 1], name)
  }

  function FirstSources(ps: seq<Directive>, name: string): seq<string> {
    if ps == [] then []
    else if ps[0].name == name then ps[0].sources
    else FirstSources(ps[1..], name)
  }

  lemma HasNameIsIn(ds: Directives, name: string)
    ensures HasName(ds, name) <==> name in Names(ds)
  {
    if HasName(ds, name) {
      var i :| 0 <= i < |ds| && ds[i].name == name;
      assert Names(ds)[i] == name;
    }
  }

  lemma {:induction false} LastWinsIs(ps: seq<Directive>)
    ensures var r := LastWins(ps);
      && Distinct(r)
      && Names(r) == FirstOrder(ps)
      && forall i :: 0 <= i < |r| ==> r[i].sources == LastSources(ps, r[i].name)
  {
    if ps != [] {
      var init := ps[..|ps| - 1];
      var last := ps[|ps| - 1];
      LastWinsIs(init);
      var before := LastWins(init);
      PutNames(before, last);
      HasNameIsIn(before, last.name);
      var r := LastWins(ps);
      forall i | 0 <= i < |r| ensures r[i].sources == LastSources(ps, r[i].name) {
        PutSources(before, last, i);
      }
    }
  }

  lemma PutNames(before: Directives, last: Directive)
    requires Distinct(before)
    ensures var r := Put(before, last.name, last.sources);
      Distinct(r) && Names(r) == if HasName(before, last.name) then Names(before) else Names(before) + [last.name]
  {
    if HasName(before, last.name) {
      var i :| 0 <= i < |before| && before[i].name == last.name;
      PutAt(before, last.name, last.sources, i);
    } else {
      PutNew(before, last.name, last.sources);
    }
  }

  /** A directive after the insertion is the inserted one or was there before. */
  lemma PutSources(before: Directives, last: Directive, i: nat)
    requires Distinct(before) && i < |Put(before, last.name, last.sources)|
    ensures var r := Put(before, last.name, last.sources);
      if r[i].name == last.name then r[i].sources == last.sources else i < |before| && r[i] == before[i]
  {
    if HasName(before, last.name) {
      var at :| 0 <= at < |before| && before[at].name == last.name;
      PutAt(before, last.name, last.sources, at);
    } else {
      PutNew(before, last.name, last.sources);
    }
  }

  lemma {:induction false} FirstSourcesSnoc(ps: seq<Directive>, last: Directive, name: string)
    ensures FirstSources(ps + [last], name) ==
      if exists i :: 0 <= i < |ps| && ps[i].name == name then FirstSources(ps, name)
      else if last.name == name then last.sources else []
  {
    if ps == [] {
      assert ps + [last] == [last];
    } else {
      assert (ps + [last])[1..] == ps[1..] + [last];
      FirstSourcesSnoc(ps[1..], last, name);
      if ps[0].name != name {
        if i :| 0 <= i < |ps| && ps[i].name == name { assert ps[1..][i - 1].name == name; }
        if i :| 0 <= i < |ps[1..]| && ps[1..][i].name == name { assert ps[i + 1].name == name; }
      }
    }
  }

  lemma {:induction false} FirstWinsIs(ps: seq<Directive>)
    ensures var r := FirstWins(ps);
      && Names(r) == FirstOrder(ps)
      && forall i :: 0 <= i < |r| ==> r[i].sources == FirstSources(ps, r[i].name)
  {
    if ps != [] {
      var init := ps[..|ps| - 1];
      var last := ps[|ps| - 1];
      FirstWinsIs(init);
      FirstOrderHasAll(init);
      var before := FirstWins(init);
      HasNameIsIn(before, last.name);
      assert ps == init + [last];
      var r := FirstWins(ps);
      assert Names(r) == if HasName(before, last.name) then Names(before) else Names(before) + [last.name];
      forall i | 0 <= i < |r| ensures r[i].sources == FirstSources(ps, r[i].name) {
        FirstSourcesSnoc(init, last, r[i].name);
        if i < |before| { assert Names(before)[i] in FirstOrder(init); }
      }
    }
  }

  // ---------------------------------------------------------------- agreement

  /**
   Between the directives as the program reads them and as the standard does: each name comes first at the
   same place among the names, and ends in `ps` with the sources it begins with in `qs`.
   */
  predicate SameReading(ps: seq<Directive>, qs: seq<Directive>) {
    && FirstOrder(ps) == FirstOrder(qs)
    && forall i :: 0 <= i < |qs| ==> LastSources(ps, qs[i].name) == FirstSources(qs, qs[i].name)
  }

  lemma FoldsAgreeIff(ps: seq<Directive>, qs: seq<Directive>)
    ensures LastWins(ps) == FirstWins(qs) <==> SameReading(ps, qs)
  {
    var a, b := LastWins(ps), FirstWins(qs);
    LastWinsIs(ps);
    FirstWinsIs(qs);
    FirstOrderHasAll(qs);
    if SameReading(ps, qs) {
      assert |Names(a)| == |Names(b)|;
      forall i | 0 <= i < |a| ensures a[i] == b[i] {
        assert Names(a)[i] == Names(b)[i] && Names(b)[i] in FirstOrder(qs);
      }
    }
    if a == b {
      forall i | 0 <= i < |qs| ensures LastSources(ps, qs[i].name) == FirstSources(qs, qs[i].name) {
        assert qs[i].name in Names(b);
        var k :| 0 <= k < |Names(b)| && Names(b)[k] == qs[i].name;
        assert b[k].name == qs[i].name;
      }
    }
  }

  lemma ParsesAreFolds(header: string)
    ensures Parse(header) == LastWins(Pieces(Parts(header)))
    ensures StandardParse(header) == FirstWins(LowerNames(StandardPieces(Parts(header))))
  {
    var ps, qs := Pieces(Parts(header)), StandardPieces(Parts(header));
    ParseIsLastWins([], Parts(header));
    StandardIsFirstWins([], Parts(header));
    assert [] + ps == ps && [] + qs == qs && LowerNames([]) == [];
  }

  /** The program agrees with the standard exactly when the two readings of the directives agree in this sense. */
  lemma AgreesWithStandardIff(header: string)
    ensures Parse(header) == StandardParse(header)
      <==> SameReading(Pieces(Parts(header)), LowerNames(StandardPieces(Parts(header))))
  {
    ParsesAreFolds(header);
    FoldsAgreeIff(Pieces(Parts(header)), LowerNames(StandardPieces(Parts(header))));
  }

  lemma {:induction false} PlainPieces(parts: seq<string>)
    requires forall k :: 0 <= k < |parts| ==> Plain(parts[k])
    ensures StandardPieces(parts) == Pieces(parts)
  {
    if parts != [] {
      PlainWords(parts[0]);
      PlainPieces(parts[1..]);
    }
  }

  /** Lowercase names, and repetitions of a name that end with the sources they began with. */
  predicate Unambiguous(ps: seq<Directive>) {
    forall i :: 0 <= i < |ps| ==>
      Lower(ps[i].name) == ps[i].name && LastSources(ps, ps[i].name) == FirstSources(ps, ps[i].name)
  }

  lemma LowercasePiecesStay(ps: seq<Directive>)
    requires forall i :: 0 <= i < |ps| ==> Lower(ps[i].name) == ps[i].name
    ensures LowerNames(ps) == ps
  {
  }

  lemma SameReadingIsLowercase(ps: seq<Directive>, i: nat)
    requires FirstOrder(ps) == FirstOrder(LowerNames(ps)) && i < |ps|
    ensures Lower(ps[i].name) == ps[i].name
  {
    FirstOrderHasAll(ps);
    FirstOrderHasAll(LowerNames(ps));
    assert ps[i].name in FirstOrder(ps) && ps[i].name in FirstOrder(LowerNames(ps));
    var k :| 0 <= k < |ps| && LowerNames(ps)[k].name == ps[i].name;
    LowerTwice(ps[k].name);
  }

  /** On plain headers that means: lowercase names, and repeated directives that end as they began. */
  lemma AgreesOnPlainIff(header: string)
    requires Plain(header)
    ensures Parse(header) == StandardParse(header) <==> Unambiguous(Pieces(Parts(header)))
  {
    var ps := Pieces(Parts(header));
    PlainParts(header);
    PlainPieces(Parts(header));
    AgreesWithStandardIff(header);
    if SameReading(ps, LowerNames(ps)) {
      forall i | 0 <= i < |ps| ensures Lower(ps[i].name) == ps[i].name { SameReadingIsLowercase(ps, i); }
      LowercasePiecesStay(ps);
    }
    if Unambiguous(ps) { LowercasePiecesStay(ps); }
  }
}
