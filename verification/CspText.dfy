/** Splitting and joining header text the way Python's str methods do. */
module CspText {
  /** Characters for which str.isspace() holds, so that str.split() and str.strip() drop them. */
  predicate IsSpace(c: char) {
    var n := c as int;
    9 <= n <= 13 || 28 <= n <= 32 || n in {0x85, 0xA0, 0x1680, 0x2028, 0x2029, 0x202F, 0x205F, 0x3000}
    || 0x2000 <= n <= 0x200A
  }

  /** The whitespace of Python's str: ASCII controls and the space, and the separators and spaces of Unicode. */
  const WHITESPACE: string :=
    "\t\n\U{0B}\U{0C}\r\U{1C}\U{1D}\U{1E}\U{1F} \U{85}\U{A0}\U{1680}\U{2000}\U{2001}\U{2002}\U{2003}\U{2004}"
    + "\U{2005}\U{2006}\U{2007}\U{2008}\U{2009}\U{200A}\U{2028}\U{2029}\U{202F}\U{205F}\U{3000}"

  lemma SpacesAre(c: char)
    ensures IsSpace(c) <==> c in WHITESPACE
  {
  }

  /** A word of a directive: it survives both kinds of splitting. */
  predicate IsToken(t: string) {
    t != "" && forall i :: 0 <= i < |t| ==> !IsSpace(t[i]) && t[i] != ';'
  }

  predicate NoSemicolon(s: string) {
    forall i :: 0 <= i < |s| ==> s[i] != ';'
  }

  /** Length of the run of characters before the first space. */
  function RunLength(s: string): (n: nat)
    ensures n <= |s|
    ensures forall i :: 0 <= i < n ==> !IsSpace(s[i])
    ensures n < |s| ==> IsSpace(s[n])
  {
    if s == [] || IsSpace(s[0]) then 0 else 1 + RunLength(s[1..])
  }

  /** `s.split()`, which makes a preceding `strip()` superfluous. */
  function Words(s: string): (words: seq<string>)
    ensures NoSemicolon(s) ==> forall k :: 0 <= k < |words| ==> IsToken(words[k])
  {
    if s == [] then []
    else if IsSpace(s[0]) then Words(s[1..])
    else
      var n := RunLength(s);
      [s[..n]] + Words(s[n..])
  }

  /** Length of the text before the first semicolon. */
  function PartLength(s: string): (n: nat)
    ensures n <= |s| && NoSemicolon(s[..n])
    ensures n < |s| ==> s[n] == ';'
  {
    if s == [] || s[0] == ';' then 0
    else
      assert s[..1 + PartLength(s[1..])] == [s[0]] + s[1..][..PartLength(s[1..])];
      1 + PartLength(s[1..])
  }

  /** `s.split(";")` */
  function Parts(s: string): (parts: seq<string>)
    ensures forall k :: 0 <= k < |parts| ==> NoSemicolon(parts[k])
    decreases |s|
  {
    var n := PartLength(s);
    if n == |s| then [s[..n]] else [s[..n]] + Parts(s[n + 1..])
  }

  /** `sep.join(items)` */
  function Join(sep: string, items: seq<string>): string {
    if items == [] then ""
    else if |items| == 1 then items[0]
    else items[0] + sep + Join(sep, items[1..])
  }

  lemma {:induction false} PartLengthIs(x: string, rest: string)
    requires NoSemicolon(x) && (rest == [] || rest[0] == ';')
    ensures PartLength(x + rest) == |x|
  {
    if x == [] {
      assert x + rest == rest;
    } else {
      assert (x + rest)[1..] == x[1..] + rest;
      PartLengthIs(x[1..], rest);
    }
  }

  lemma PartsOfOne(x: string)
    requires NoSemicolon(x)
    ensures Parts(x) == [x]
  {
    PartLengthIs(x, []);
    assert x + [] == x;
  }

  lemma PartsOfMore(x: string, y: string)
    requires NoSemicolon(x)
    ensures Parts(x + ";" + y) == [x] + Parts(y)
  {
    var s := x + ";" + y;
    assert s == x + (";" + y);
    PartLengthIs(x, ";" + y);
    assert s[..|x|] == x && s[|x| + 1..] == y;
  }

  lemma {:induction false} RunLengthIs(t: string, rest: string)
    requires forall i :: 0 <= i < |t| ==> !IsSpace(t[i])
    requires rest == [] || IsSpace(rest[0])
    ensures RunLength(t + rest) == |t|
  {
    if t == [] {
      assert t + rest == rest;
    } else {
      assert (t + rest)[1..] == t[1..] + rest;
      RunLengthIs(t[1..], rest);
    }
  }

  lemma WordsOfOne(t: string)
    requires IsToken(t)
    ensures Words(t) == [t]
  {
    RunLengthIs(t, []);
    assert t + [] == t && t[..|t|] == t;
  }

  lemma WordsOfMore(t: string, rest: string)
    requires IsToken(t)
    ensures Words(t + " " + rest) == [t] + Words(rest)
  {
    var s := t + " " + rest;
    assert s == t + (" " + rest);
    RunLengthIs(t, " " + rest);
    assert s[..|t|] == t && s[|t|..] == " " + rest;
    assert (" " + rest)[1..] == rest;
  }

  lemma {:induction false} WordsOfJoin(items: seq<string>)
    requires forall k :: 0 <= k < |items| ==> IsToken(items[k])
    ensures Words(Join(" ", items)) == items
  {
    if |items| == 1 {
      WordsOfOne(items[0]);
    } else if |items| > 1 {
      WordsOfMore(items[0], Join(" ", items[1..]));
      WordsOfJoin(items[1..]);
    }
  }

  lemma {:induction false} JoinHasNoSemicolon(items: seq<string>)
    requires forall k :: 0 <= k < |items| ==> NoSemicolon(items[k])
    ensures NoSemicolon(Join(" ", items))
  {
    if |items| > 1 { JoinHasNoSemicolon(items[1..]); }
  }
}
