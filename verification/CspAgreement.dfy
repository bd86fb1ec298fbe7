/** Headers with distinct lowercase directive names, and headers on which the program leaves the standard. */
module CspAgreement {
  import opened CspText
  import opened CspModel
  import opened CspStandard

  /** Plain parts, and parts that hold nothing but spaces, some of them not ASCII. */
  predicate ReadsAlike(part: string) {
    Plain(part) || (!IsAscii(part) && Words(part) == [])
  }

  /** No name comes twice, and none has an uppercase letter. */
  predicate DistinctLowercase(ps: seq<Directive>) {
    Distinct(ps) && forall i :: 0 <= i < |ps| ==> Lower(ps[i].name) == ps[i].name
  }

  predicate Spaceless(s: string) {
    forall i :: 0 <= i < |s| ==> !IsSpace(s[i])
  }

  // ---------------------------------------------------------------- one part

  lemma {:induction false} WordsAreSpaceless(s: string, w: string)
    requires w in Words(s)
    ensures Spaceless(w)
    decreases |s|
  {
    if IsSpace(s[0]) {
      WordsAreSpaceless(s[1..], w);
    } else if w != s[..RunLength(s)] {
      assert w in Words(s[RunLength(s)..]);
      WordsAreSpaceless(s[RunLength(s)..], w);
    }
  }

  lemma {:induction false} AsciiRunIs(s: string)
    ensures AsciiRun(s) < |s| ==> IsAsciiSpace(s[AsciiRun(s)])
    ensures forall i :: 0 <= i < AsciiRun(s) ==> !IsAsciiSpace(s[i])
  {
    if s != [] && !IsAsciiSpace(s[0]) { AsciiRunIs(s[1..]); }
  }

  /** A character that is not ASCII whitespace ends up in some word of the standard. */
  lemma {:induction false} CharactersAreInWords(s: string, i: nat) returns (w: string)
    requires i < |s| && !IsAsciiSpace(s[i])
    ensures w in AsciiWords(s) && s[i] in w
    decreases |s|
  {
    if IsAsciiSpace(s[0]) {
      w := CharactersAreInWords(s[1..], i - 1);
    } else if i < AsciiRun(s) {
      w := s[..AsciiRun(s)];
      assert w[i] == s[i];
    } else {
      w := CharactersAreInWords(s[AsciiRun(s)..], i - AsciiRun(s));
    }
  }

  lemma SameWordsArePlain(part: string)
    requires IsAscii(part) && AsciiWords(part) == Words(part)
    ensures Plain(part)
  {
    forall i | 0 <= i < |part| && IsSpace(part[i]) ensures IsAsciiSpace(part[i]) {
      if !IsAsciiSpace(part[i]) {
        var w := CharactersAreInWords(part, i);
        WordsAreSpaceless(part, w);
      }
    }
  }

  lemma AlikeIff(part: string)
    ensures StandardPieceOf(part) == PieceOf(part) <==> ReadsAlike(part)
  {
    var a, w := AsciiWords(part), Words(part);
    if Plain(part) {
      PlainWords(part);
    } else if IsAscii(part) && StandardPieceOf(part) == PieceOf(part) {
      if w != [] { assert a == [a[0]] + a[1..] && w == [w[0]] + w[1..]; }
      SameWordsArePlain(part);
    }
  }

  /** If the first word by ASCII whitespace holds no other space, it is the first word either way. */
  lemma {:induction false} SameFirstWord(s: string)
    requires AsciiWords(s) != [] && Spaceless(AsciiWords(s)[0])
    ensures Words(s) != [] && Words(s)[0] == AsciiWords(s)[0]
  {
    if IsAsciiSpace(s[0]) {
      SameFirstWord(s[1..]);
    } else {
      var n := AsciiRun(s);
      AsciiRunIs(s);
      assert s[..n] + s[n..] == s;
      assert !IsSpace(s[..n][0]);
      RunLengthIs(s[..n], s[n..]);
    }
  }

  lemma LowerKeepsSpaces(s: string)
    requires Spaceless(Lower(s))
    ensures Spaceless(s)
  {
    forall i | 0 <= i < |s| ensures !IsSpace(s[i]) {
      assert !IsSpace(Lower(s)[i]);
    }
  }

  // ---------------------------------------------------------------- all parts

  lemma {:induction false} PieceIsListed(parts: seq<string>, k: nat)
    requires k < |parts|
    ensures PieceOf(parts[k]) != [] ==> PieceOf(parts[k])[0] in Pieces(parts)
    ensures StandardPieceOf(parts[k]) != [] ==> StandardPieceOf(parts[k])[0] in StandardPieces(parts)
  {
    if k > 0 { PieceIsListed(parts[1..], k - 1); }
  }

  lemma {:induction false} ListedIsPiece(parts: seq<string>, d: Directive) returns (k: nat)
    requires d in StandardPieces(parts)
    ensures k < |parts| && StandardPieceOf(parts[k]) == [d]
  {
    if d in StandardPieceOf(parts[0]) {
      k := 0;
    } else {
      k := ListedIsPiece(parts[1..], d);
      k := k + 1;
    }
  }

  lemma {:induction false} PiecesAreSpaceless(parts: seq<string>, d: Directive)
    requires d in Pieces(parts)
    ensures Spaceless(d.name)
  {
    if d in PieceOf(parts[0]) {
      WordsAreSpaceless(parts[0], d.name);
    } else {
      PiecesAreSpaceless(parts[1..], d);
    }
  }

  lemma FirstWinsSnoc(init: seq<Directive>, last: Directive)
    ensures var before := FirstWins(init);
      FirstWins(init + [last]) == if HasName(before, last.name) then before else before + [last]
  {
    assert (init + [last])[..|init + [last]| - 1] == init;
  }

  /** Folding keeps at most every directive, and all of them only as they are. */
  ghost predicate Fits(qs: seq<Directive>) {
    |FirstWins(qs)| <= |qs| && (|FirstWins(qs)| == |qs| ==> FirstWins(qs) == qs)
  }

  lemma OneMoreFits(init: seq<Directive>, last: Directive)
    requires Fits(init)
    ensures Fits(init + [last])
  {
    FirstWinsSnoc(init, last);
  }

  lemma {:induction false} FirstWinsFits(qs: seq<Directive>)
    ensures Fits(qs)
  {
    if qs != [] {
      var init, last := qs[..|qs| - 1], qs[|qs| - 1];
      FirstWinsFits(init);
      OneMoreFits(init, last);
      assert init + [last] == qs;
    }
  }

  /** Wherever the standard reads a directive, the program reads one of the same name. */
  predicate SameNames(parts: seq<string>) {
    forall k :: 0 <= k < |parts| && StandardPieceOf(parts[k]) != [] ==>
      PieceOf(parts[k]) != [] && PieceOf(parts[k])[0].name == StandardPieceOf(parts[k])[0].name
  }

  lemma {:induction false} StandardReadsNoMore(parts: seq<string>)
    requires SameNames(parts)
    ensures |StandardPieces(parts)| <= |Pieces(parts)|
  {
    if parts != [] {
      assert SameNames(parts[1..]) by {
        forall k | 0 <= k < |parts[1..]| && StandardPieceOf(parts[1..][k]) != []
          ensures PieceOf(parts[1..][k]) != []
          ensures PieceOf(parts[1..][k])[0].name == StandardPieceOf(parts[1..][k])[0].name
        {
          assert parts[1..][k] == parts[k + 1];
        }
      }
      assert StandardPieceOf(parts[0]) != [] ==> PieceOf(parts[0]) != [];
      StandardReadsNoMore(parts[1..]);
    }
  }

  lemma TailKeepsNames(parts: seq<string>)
    requires parts != [] && SameNames(parts)
    ensures SameNames(parts[1..])
  {
    forall k | 0 <= k < |parts[1..]| && StandardPieceOf(parts[1..][k]) != []
      ensures PieceOf(parts[1..][k]) != [] && PieceOf(parts[1..][k])[0].name == StandardPieceOf(parts[1..][k])[0].name
    {
      assert parts[1..][k] == parts[k + 1];
    }
  }

  lemma SameHeads<T>(a: seq<T>, b: seq<T>, c: seq<T>, d: seq<T>)
    requires a + b == c + d && |b| <= |d| && |a| <= 1 && |c| <= 1 && (a != [] ==> c != [])
    ensures a == c && b == d
  {
    assert |a| == |c|;
    assert a == (a + b)[..|a|] && c == (c + d)[..|c|];
    assert b == (a + b)[|a|..] && d == (c + d)[|c|..];
  }

  /** Equal lists of directives come from equal parts. */
  lemma {:induction false} EqualPartByPart(parts: seq<string>, k: nat)
    requires SameNames(parts) && StandardPieces(parts) == Pieces(parts) && k < |parts|
    ensures StandardPieceOf(parts[k]) == PieceOf(parts[k])
  {
    var a, p := StandardPieceOf(parts[0]), PieceOf(parts[0]);
    TailKeepsNames(parts);
    StandardReadsNoMore(parts[1..]);
    assert a != [] ==> p != [];
    SameHeads(a, StandardPieces(parts[1..]), p, Pieces(parts[1..]));
    if k > 0 { EqualPartByPart(parts[1..], k - 1); }
  }

  lemma {:induction false} AlikePieces(parts: seq<string>)
    requires forall k :: 0 <= k < |parts| ==> StandardPieceOf(parts[k]) == PieceOf(parts[k])
    ensures StandardPieces(parts) == Pieces(parts)
  {
    if parts != [] { AlikePieces(parts[1..]); }
  }

  // ---------------------------------------------------------------- distinct lowercase names

  lemma {:induction false} DistinctLastWins(ps: seq<Directive>)
    requires Distinct(ps)
    ensures LastWins(ps) == ps
  {
    if ps != [] {
      var init, last := ps[..|ps| - 1], ps[|ps| - 1];
      assert Distinct(init) && !HasName(init, last.name);
      DistinctLastWins(init);
      PutNew(init, last.name, last.sources);
      assert ps == init + [last];
    }
  }

  lemma {:induction false} DistinctFirstWins(ps: seq<Directive>)
    requires Distinct(ps)
    ensures FirstWins(ps) == ps
  {
    if ps != [] {
      var init, last := ps[..|ps| - 1], ps[|ps| - 1];
      assert Distinct(init) && !HasName(init, last.name);
      DistinctFirstWins(init);
      assert ps == init + [last];
    }
  }

  lemma AgreementGivesSameNames(parts: seq<string>)
    requires DistinctLowercase(Pieces(parts))
    requires FirstWins(LowerNames(StandardPieces(parts))) == Pieces(parts)
    ensures SameNames(parts)
  {
    var ps, qs := Pieces(parts), StandardPieces(parts);
    FirstWinsIs(LowerNames(qs));
    FirstOrderHasAll(LowerNames(qs));
    forall k | 0 <= k < |parts| && StandardPieceOf(parts[k]) != []
      ensures PieceOf(parts[k]) != [] && PieceOf(parts[k])[0].name == StandardPieceOf(parts[k])[0].name
    {
      var d := StandardPieceOf(parts[k])[0];
      PieceIsListed(parts, k);
      var i :| 0 <= i < |qs| && qs[i] == d;
      assert LowerNames(qs)[i].name == Lower(d.name);
      assert Lower(d.name) in Names(ps);
      var j :| 0 <= j < |ps| && Names(ps)[j] == Lower(d.name);
      PiecesAreSpaceless(parts, ps[j]);
      LowerKeepsSpaces(d.name);
      SameFirstWord(parts[k]);
    }
  }

  lemma AgreementGivesSamePieces(parts: seq<string>)
    requires DistinctLowercase(Pieces(parts)) && SameNames(parts)
    requires FirstWins(LowerNames(StandardPieces(parts))) == Pieces(parts)
    ensures StandardPieces(parts) == Pieces(parts)
  {
    var qs := StandardPieces(parts);
    StandardReadsNoMore(parts);
    FirstWinsFits(LowerNames(qs));
    forall i | 0 <= i < |qs| ensures Lower(qs[i].name) == qs[i].name {
      var k := ListedIsPiece(parts, qs[i]);
      PieceIsListed(parts, k);
      var j :| 0 <= j < |Pieces(parts)| && Pieces(parts)[j] == PieceOf(parts[k])[0];
    }
    LowercasePiecesStay(qs);
  }

  predicate AllAlike(parts: seq<string>) {
    forall k :: 0 <= k < |parts| ==> ReadsAlike(parts[k])
  }

  lemma AgreeingPartsAreAlike(parts: seq<string>)
    requires DistinctLowercase(Pieces(parts))
    requires FirstWins(LowerNames(StandardPieces(parts))) == Pieces(parts)
    ensures AllAlike(parts)
  {
    AgreementGivesSameNames(parts);
    AgreementGivesSamePieces(parts);
    forall k | 0 <= k < |parts| ensures ReadsAlike(parts[k]) {
      EqualPartByPart(parts, k);
      AlikeIff(parts[k]);
    }
  }

  lemma AlikePartsAgree(parts: seq<string>)
    requires DistinctLowercase(Pieces(parts)) && AllAlike(parts)
    ensures FirstWins(LowerNames(StandardPieces(parts))) == Pieces(parts)
  {
    forall k | 0 <= k < |parts| ensures StandardPieceOf(parts[k]) == PieceOf(parts[k]) { AlikeIff(parts[k]); }
    AlikePieces(parts);
    LowercasePiecesStay(Pieces(parts));
    DistinctFirstWins(Pieces(parts));
  }

  /**
   On headers whose directive names are lowercase and distinct the program agrees with the standard exactly
   when every part is plain, or is blank without being ASCII.
   */
  lemma AgreesOnDistinctLowercaseIff(header: string)
    requires DistinctLowercase(Pieces(Parts(header)))
    ensures Parse(header) == StandardParse(header) <==> AllAlike(Parts(header))
  {
    ParsesAreFolds(header);
    DistinctLastWins(Pieces(Parts(header)));
    if Parse(header) == StandardParse(header) { AgreeingPartsAreAlike(Parts(header)); }
    if AllAlike(Parts(header)) { AlikePartsAgree(Parts(header)); }
  }

  /** In particular it agrees on plain headers with distinct lowercase names. */
  lemma AgreesOnDistinctLowercase(header: string)
    requires Plain(header) && DistinctLowercase(Pieces(Parts(header)))
    ensures Parse(header) == StandardParse(header)
  {
    PlainParts(header);
    AgreesOnDistinctLowercaseIff(header);
  }

  // ---------------------------------------------------------------- where they differ

  lemma TwoWords(a: string, b: string)
    requires IsToken(a) && IsToken(b)
    ensures PieceOf(a + " " + b) == [Directive(a, [b])]
  {
    WordsOfMore(a, b);
    WordsOfOne(b);
  }

  lemma TwoParts(x: string, y: string)
    requires NoSemicolon(x) && NoSemicolon(y)
    ensures Pieces(Parts(x + ";" + y)) == PieceOf(x) + PieceOf(y)
  {
    PartsOfMore(x, y);
    PartsOfOne(y);
    assert [x, y][1..] == [y] && [y][1..] == [];
    assert Pieces([y]) == PieceOf(y) + [];
    assert Pieces([x, y]) == PieceOf(x) + Pieces([y]);
  }

  /** The program keeps the last of two directives with one name, the standard the first. */
  lemma RepeatedNameDiffers(a: string, b: string, c: string)
    requires IsToken(a) && IsToken(b) && IsToken(c) && b != c
    requires Plain(a + " " + b + ";" + (a + " " + c))
    ensures var header := a + " " + b + ";" + (a + " " + c);
      Parse(header) != StandardParse(header)
  {
    TwoParts(a + " " + b, a + " " + c);
    TwoWords(a, b);
    TwoWords(a, c);
    RepeatedSources(Directive(a, [b]), Directive(a, [c]));
    AgreesOnPlainIff(a + " " + b + ";" + (a + " " + c));
  }

  lemma RepeatedNameExample()
    ensures Parse("a b;a c") != StandardParse("a b;a c")
  {
    var header := "a" + " " + "b" + ";" + ("a" + " " + "c");
    assert header == "a b;a c";
    assert Plain(header);
    RepeatedNameDiffers("a", "b", "c");
  }

  lemma RepeatedSources(b: Directive, c: Directive)
    requires b.name == c.name && b.sources != c.sources
    ensures !Unambiguous([b] + [c])
  {
    var ps := [b] + [c];
    assert ps[0] == b && ps[1] == c;
    assert LastSources(ps, b.name) == c.sources && FirstSources(ps, b.name) == b.sources;
  }

  /** The program keeps uppercase letters in names. */
  lemma UppercaseNameDiffers()
    ensures Parse("A") != StandardParse("A")
  {
    PartsOfOne("A");
    WordsOfOne("A");
    assert Pieces(["A"]) == [Directive("A", [])] + Pieces([]);
    assert Lower("A")[0] == 'a';
    AgreesOnPlainIff("A");
    assert Pieces(Parts("A"))[0].name == "A";
  }

  /** The program reads parts that are not ASCII, and splits words at a vertical tab. */
  lemma OtherTextDiffers(header: string)
    requires header in {"\U{e9}", "a\U{b}b"}
    ensures DistinctLowercase(Pieces(Parts(header))) && Parse(header) != StandardParse(header)
  {
    PartsOfOne(header);
    assert Pieces([header]) == PieceOf(header) + Pieces([]);
    if header == "\U{e9}" {
      WordsOfOne(header);
      assert Lower(header)[0] == header[0];
    } else {
      FirstOfTwo();
    }
    assert Parts(header)[0] == header;
    AgreesOnDistinctLowercaseIff(header);
  }

  lemma FirstOfTwo()
    ensures Words("a\U{b}b") == ["a", "b"]
  {
    var s := "a\U{b}b";
    assert s == "a" + "\U{b}b";
    RunLengthIs("a", "\U{b}b");
    assert s[..1] == "a" && s[1..] == "\U{b}b" && "\U{b}b"[1..] == "b";
    WordsOfOne("b");
  }
}
