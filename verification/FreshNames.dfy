/** The loop that looks for an unused name: base, base-2, base-3, and so on. */
module FreshNames {
  function Digit(d: nat): char
    requires d < 10
  {
    "0123456789"[d]
  }

  function Decimal(n: nat): (s: string)
    ensures if n < 10 then |s| == 1 else |s| > 1
  {
    if n < 10 then [Digit(n)] else Decimal(n / 10) + [Digit(n % 10)]
  }

  lemma {:induction false} DecimalIsInjective(m: nat, n: nat)
    requires Decimal(m) == Decimal(n)
    ensures m == n
  {
    var s, t := Decimal(m), Decimal(n);
    assert s[|s| - 1] == t[|t| - 1] && s[..|s| - 1] == t[..|t| - 1];
    if m >= 10 && n >= 10 {
      assert s[..|s| - 1] == Decimal(m / 10) && t[..|t| - 1] == Decimal(n / 10);
      DecimalIsInjective(m / 10, n / 10);
    }
  }

  /** The number that the digits stand for. */
  function Reading(s: string): int {
    if s == "" then 0 else 10 * Reading(s[..|s| - 1]) + (s[|s| - 1] as int - '0' as int)
  }

  /** A numeral reads back as its number, is made of digits, and begins with no zero but in "0". */
  lemma {:induction false} DecimalReadsBack(n: nat)
    ensures Reading(Decimal(n)) == n
    ensures forall k :: 0 <= k < |Decimal(n)| ==> '0' <= Decimal(n)[k] <= '9'
    ensures n > 0 ==> Decimal(n)[0] != '0'
  {
    var s := Decimal(n);
    assert s[..|s| - 1] == if n < 10 then [] else Decimal(n / 10);
    if n >= 10 { DecimalReadsBack(n / 10); }
  }

  /** The n-th name tried, from 1. */
  function Candidate(base: string, sep: string, n: nat): string {
    if n <= 1 then base else base + sep + Decimal(n)
  }

  lemma CandidatesDiffer(base: string, sep: string, m: nat, n: nat)
    requires 1 <= m < n
    ensures Candidate(base, sep, m) != Candidate(base, sep, n)
  {
    var stem := base + sep;
    assert |Candidate(base, sep, n)| == |stem| + |Decimal(n)|;
    if m > 1 && Candidate(base, sep, m) == Candidate(base, sep, n) {
      assert (stem + Decimal(m))[|stem|..] == Decimal(m) && (stem + Decimal(n))[|stem|..] == Decimal(n);
      DecimalIsInjective(m, n);
    }
  }

  /** Pigeonhole: if the first n candidates are all taken, at least n names are. */
  lemma {:induction false} TakenCandidatesFit(base: string, sep: string, taken: set<string>, n: nat)
    requires forall i :: 1 <= i <= n ==> Candidate(base, sep, i) in taken
    ensures n <= |taken|
  {
    if n > 0 {
      var last := Candidate(base, sep, n);
      forall i | 1 <= i <= n - 1 ensures Candidate(base, sep, i) in taken - {last} {
        CandidatesDiffer(base, sep, i, n);
      }
      TakenCandidatesFit(base, sep, taken - {last}, n - 1);
    }
  }

  /** The first candidate from the n-th on that is not taken. */
  function FirstFree(base: string, sep: string, taken: set<string>, n: nat := 1): (name: string)
    requires 1 <= n && forall i :: 1 <= i < n ==> Candidate(base, sep, i) in taken
    ensures name !in taken
    decreases |taken| + 1 - n
  {
    TakenCandidatesFit(base, sep, taken, n - 1);
    if Candidate(base, sep, n) !in taken then Candidate(base, sep, n)
    else
      TakenCandidatesFit(base, sep, taken, n);
      FirstFree(base, sep, taken, n + 1)
  }

  lemma {:induction false} FirstFreeIsCandidate(base: string, sep: string, taken: set<string>, n: nat)
    returns (tried: nat)
    requires 1 <= n && forall i :: 1 <= i < n ==> Candidate(base, sep, i) in taken
    ensures 1 <= tried && FirstFree(base, sep, taken, n) == Candidate(base, sep, tried)
    ensures forall i :: 1 <= i < tried ==> Candidate(base, sep, i) in taken
    decreases |taken| + 1 - n
  {
    TakenCandidatesFit(base, sep, taken, n - 1);
    tried := n;
    if Candidate(base, sep, n) in taken {
      TakenCandidatesFit(base, sep, taken, n);
      tried := FirstFreeIsCandidate(base, sep, taken, n + 1);
    }
  }

  /** The base itself if it is unused, and otherwise the base with the first suffix from 2 on that makes it so. */
  lemma FirstFreeIs(base: string, sep: string, taken: set<string>) returns (suffix: nat)
    ensures base !in taken ==> FirstFree(base, sep, taken) == base
    ensures base in taken ==> 2 <= suffix && FirstFree(base, sep, taken) == base + sep + Decimal(suffix)
    ensures base in taken ==> forall i :: 2 <= i < suffix ==> base + sep + Decimal(i) in taken
  {
    suffix := FirstFreeIsCandidate(base, sep, taken, 1);
    assert base in taken ==> suffix != 1;
    forall i | 2 <= i < suffix ensures base + sep + Decimal(i) in taken { assert Candidate(base, sep, i) in taken; }
  }

  /** `tried` counts the names the loop looked at; `sep` is "_" for usernames and "-" for slugs. */
  method AvailableName(base: string, sep: string, taken: set<string>) returns (candidate: string, tried: nat)
    ensures candidate == FirstFree(base, sep, taken)
    ensures candidate !in taken
    ensures 1 <= tried <= |taken| + 1
    ensures candidate == Candidate(base, sep, tried)
    ensures forall i :: 1 <= i < tried ==> Candidate(base, sep, i) in taken
  {
    candidate := base;
    var suffix := 1;
    while candidate in taken
      invariant suffix >= 1 && candidate == Candidate(base, sep, suffix)
      invariant forall i :: 1 <= i < suffix ==> Candidate(base, sep, i) in taken
      invariant FirstFree(base, sep, taken) == FirstFree(base, sep, taken, suffix)
      decreases |taken| + 1 - suffix
    {
      TakenCandidatesFit(base, sep, taken, suffix);
      suffix := suffix + 1;
      candidate := base + sep + Decimal(suffix);
    }
    tried := suffix;
    TakenCandidatesFit(base, sep, taken, suffix - 1);
  }
}
