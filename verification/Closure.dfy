/** Closing a set of actions under an implication relation, forwards and backwards. */
module Closure {
  type Action = string

  /** `IMPLIED_ACTIONS`: any finite relation, cycles included. */
  type Implied = map<Action, set<Action>>

  type Edge = (Action, Action)

  function Edges(implied: Implied): set<Edge> {
    set a, b | a in implied && b in implied[a] :: (a, b)
  }

  function Inverse(edges: set<Edge>): set<Edge> {
    set e | e in edges :: (e.1, e.0)
  }

  ghost predicate Closed(edges: set<Edge>, s: set<Action>) {
    forall e :: e in edges && e.0 in s ==> e.1 in s
  }

  ghost predicate LeastClosed(edges: set<Edge>, start: set<Action>, s: set<Action>) {
    && start <= s
    && Closed(edges, s)
    && forall other :: start <= other && Closed(edges, other) ==> s <= other
  }

  function Targets(edges: set<Edge>): set<Action> {
    set e | e in edges :: e.1
  }

  /** Add the targets of all edges that leave the set until there are none. */
  function Close(edges: set<Edge>, s: set<Action>): (r: set<Action>)
    ensures LeastClosed(edges, s, r)
    decreases |Targets(edges) - s|
  {
    var more := set e | e in edges && e.0 in s && e.1 !in s :: e.1;
    if more == {} then
      assert forall e :: e in edges && e.0 in s && e.1 !in s ==> e.1 in more;
      s
    else
      assert Targets(edges) - (s + more) < Targets(edges) - s by {
        var x :| x in more;
        assert x in Targets(edges) - s;
      }
      SubsetIsSmaller(Targets(edges) - (s + more), Targets(edges) - s);
      assert forall other :: s <= other && Closed(edges, other) ==> s + more <= other;
      Close(edges, s + more)
  }

  lemma SubsetIsSmaller(a: set<Action>, b: set<Action>)
    requires a < b
    ensures |a| < |b|
  {
    assert !(b <= a);
    var x :| x in b && x !in a;
    assert b == a + (b - a) && x in b - a;
  }

  lemma LeastClosedIsUnique(edges: set<Edge>, start: set<Action>, s: set<Action>, t: set<Action>)
    requires LeastClosed(edges, start, s) && LeastClosed(edges, start, t)
    ensures s == t
  {
  }

  /** `expand_implied_actions` and `actions_satisfying`, as the results their loops reach. */
  function Expand(implied: Implied, actions: set<Action>): set<Action> {
    Close(Edges(implied), actions)
  }

  function Satisfying(implied: Implied, requested: Action): set<Action> {
    Close(Inverse(Edges(implied)), {requested})
  }

  /** An action is granted by a set exactly when the set meets the actions that satisfy it. */
  lemma ExpandMeetsSatisfying(implied: Implied, actions: set<Action>, requested: Action)
    ensures requested in Expand(implied, actions) <==> actions * Satisfying(implied, requested) != {}
  {
    var edges := Edges(implied);
    var up := Expand(implied, actions);
    var down := Satisfying(implied, requested);
    if actions * down == {} {
      // What cannot reach the request is closed and holds every starting action.
      forall e | e in edges && e.0 in up - down ensures e.1 in up - down {
        assert (e.1, e.0) in Inverse(edges);
      }
      forall a | a in actions ensures a in up - down {
        assert a !in actions * down;
      }
      assert Closed(edges, up - down);
      assert actions <= up - down;
    }
    if requested !in up {
      // What is not granted is closed under the inverse relation.
      forall e | e in Inverse(edges) && e.0 in down - up ensures e.1 in down - up {
        assert (e.1, e.0) in edges;
      }
      assert Closed(Inverse(edges), down - up);
      assert requested in down;
      assert {requested} <= down - up;
    }
  }

  // ---------------------------------------------------------------- chains of implications

  /** Each action of the chain is implied by the one before it. */
  predicate Chain(implied: Implied, path: seq<Action>) {
    forall k :: 0 <= k < |path| - 1 ==> path[k] in implied && path[k + 1] in implied[path[k]]
  }

  predicate ChainFrom(implied: Implied, path: seq<Action>, from: Action, to: Action) {
    path != [] && path[0] == from && path[|path| - 1] == to && Chain(implied, path)
  }

  /** Some chain of implications, perhaps of length zero, leads from one action to the other. */
  ghost predicate Implies(implied: Implied, from: Action, to: Action) {
    exists path :: ChainFrom(implied, path, from, to)
  }

  ghost predicate ImpliedByOne(implied: Implied, actions: set<Action>, a: Action) {
    exists b :: b in actions && Implies(implied, b, a)
  }

  lemma {:induction false} ChainStaysInside(
    implied: Implied, path: seq<Action>, from: Action, to: Action, s: set<Action>)
    requires ChainFrom(implied, path, from, to) && from in s && Closed(Edges(implied), s)
    ensures to in s
  {
    if |path| > 1 {
      var n := |path| - 1;
      assert Chain(implied, path[..n]);
      ChainStaysInside(implied, path[..n], from, path[n - 1], s);
      assert (path[n - 1], path[n]) in Edges(implied);
    }
  }

  lemma ChainGrows(implied: Implied, from: Action, e: Edge)
    requires Implies(implied, from, e.0) && e in Edges(implied)
    ensures Implies(implied, from, e.1)
  {
    var path :| ChainFrom(implied, path, from, e.0);
    assert ChainFrom(implied, path + [e.1], from, e.1);
  }

  /** The expansion holds exactly what chains of implications reach. */
  lemma ExpandIsReach(implied: Implied, actions: set<Action>, a: Action)
    ensures a in Expand(implied, actions) <==> ImpliedByOne(implied, actions, a)
  {
    var edges, all := Edges(implied), Expand(implied, actions);
    if ImpliedByOne(implied, actions, a) {
      var b :| b in actions && Implies(implied, b, a);
      var path :| ChainFrom(implied, path, b, a);
      ChainStaysInside(implied, path, b, a, all);
    }
    ghost var reached := set c | c in all && ImpliedByOne(implied, actions, c);
    forall c | c in actions ensures c in reached { assert ChainFrom(implied, [c], c, c); }
    forall e | e in edges && e.0 in reached ensures e.1 in reached {
      var b :| b in actions && Implies(implied, b, e.0);
      ChainGrows(implied, b, e);
    }
    assert Closed(edges, reached);
  }

  /** What satisfies a request is whatever a chain of implications leads to it from. */
  lemma SatisfyingIsReach(implied: Implied, requested: Action, a: Action)
    ensures a in Satisfying(implied, requested) <==> Implies(implied, a, requested)
  {
    ExpandMeetsSatisfying(implied, {a}, requested);
    ExpandIsReach(implied, {a}, requested);
  }

  // ---------------------------------------------------------------- the worklists

  function Successors(edges: set<Edge>, action: Action): set<Action> {
    set e | e in edges && e.0 == action :: e.1
  }

  /** The state of a worklist: only actions still on the list may have edges leaving the set. */
  ghost predicate Progress(edges: set<Edge>, start: set<Action>, found: set<Action>, pending: seq<Action>) {
    && start <= found <= Close(edges, start)
    && (forall a :: a in pending ==> a in found)
    && forall e :: e in edges && e.0 in found && e.0 !in pending ==> e.1 in found
  }

  /** `now` is `before` with the missing targets added to both the set and the list. */
  ghost predicate Added(
    targets: set<Action>, before: set<Action>, list: seq<Action>, now: set<Action>, longer: seq<Action>)
  {
    && now == before + targets
    && (forall a :: a in longer <==> a in list || a in targets - before)
    && (now == before ==> longer == list)
  }

  lemma Popped(
    edges: set<Edge>, start: set<Action>, found: set<Action>, pending: seq<Action>, now: set<Action>, list: seq<Action>)
    requires pending != [] && Progress(edges, start, found, pending)
    requires Added(Successors(edges, pending[|pending| - 1]), found, pending[..|pending| - 1], now, list)
    ensures Progress(edges, start, now, list)
    ensures |Targets(edges) - now| < |Targets(edges) - found|
      || (Targets(edges) - now == Targets(edges) - found && |list| < |pending|)
  {
    var action := pending[|pending| - 1];
    var rest := pending[..|pending| - 1];
    assert forall a :: a in pending ==> a in rest || a == action;
    forall b | b in Successors(edges, action) ensures b in Close(edges, start) && b in Targets(edges) {
      assert (action, b) in edges;
    }
    forall e | e in edges && e.0 in now && e.0 !in list ensures e.1 in now {
      assert e.0 == action ==> e.1 in Successors(edges, action);
    }
    if now != found {
      var b :| b in Successors(edges, action) && b !in found;
      assert b in Targets(edges) - found && b !in Targets(edges) - now;
      SubsetIsSmaller(Targets(edges) - now, Targets(edges) - found);
    }
  }

  /** An exhausted worklist has reached the closure. */
  lemma Exhausted(edges: set<Edge>, start: set<Action>, found: set<Action>)
    requires Progress(edges, start, found, [])
    ensures found == Close(edges, start)
  {
    assert Closed(edges, found);
    LeastClosedIsUnique(edges, start, found, Close(edges, start));
  }

  method ExpandImpliedActions(implied: Implied, actions: set<Action>) returns (expanded: set<Action>)
    ensures expanded == Expand(implied, actions)
    ensures LeastClosed(Edges(implied), actions, expanded)
  {
    ghost var edges := Edges(implied);
    expanded := actions;
    var pending := AsList(expanded);
    while pending != []
      invariant Progress(edges, actions, expanded, pending)
      decreases |Targets(edges) - expanded|, |pending|
    {
      var action := pending[|pending| - 1];
      ghost var found, list := expanded, pending;
      expanded, pending := PushImplied(implied, action, expanded, pending[..|pending| - 1]);
      Popped(edges, actions, found, list, expanded, pending);
    }
    Exhausted(edges, actions, expanded);
  }

  /** The inner loop of `expand_implied_actions`. */
  method PushImplied(implied: Implied, action: Action, before: set<Action>, list: seq<Action>)
    returns (expanded: set<Action>, pending: seq<Action>)
    ensures Added(Successors(Edges(implied), action), before, list, expanded, pending)
  {
    expanded, pending := before, list;
    var rest := if action in implied then implied[action] else {};
    ghost var all := rest;
    while rest != {}
      invariant rest <= all && Added(all - rest, before, list, expanded, pending)
      decreases rest
    {
      var next :| next in rest;
      rest := rest - {next};
      if next !in expanded {
        expanded := expanded + {next};
        pending := pending + [next];
      }
    }
    forall b ensures b in all <==> b in Successors(Edges(implied), action) {
      if b in all { assert (action, b) in Edges(implied); }
    }
    assert all == Successors(Edges(implied), action);
  }

  method ActionsSatisfying(implied: Implied, requested: Action) returns (satisfying: set<Action>)
    ensures satisfying == Satisfying(implied, requested)
    ensures LeastClosed(Inverse(Edges(implied)), {requested}, satisfying)
  {
    ghost var edges := Inverse(Edges(implied));
    satisfying := {requested};
    var pending := [requested];
    while pending != []
      invariant Progress(edges, {requested}, satisfying, pending)
      decreases |Targets(edges) - satisfying|, |pending|
    {
      var action := pending[|pending| - 1];
      ghost var found, list := satisfying, pending;
      satisfying, pending := PushGrants(implied, action, satisfying, pending[..|pending| - 1]);
      Popped(edges, {requested}, found, list, satisfying, pending);
    }
    Exhausted(edges, {requested}, satisfying);
  }

  /** The inner loop of `actions_satisfying`, which walks the whole relation. */
  method PushGrants(implied: Implied, action: Action, before: set<Action>, list: seq<Action>)
    returns (satisfying: set<Action>, pending: seq<Action>)
    ensures Added(Successors(Inverse(Edges(implied)), action), before, list, satisfying, pending)
  {
    satisfying, pending := before, list;
    var items := implied.Keys;
    while items != {}
      invariant items <= implied.Keys
      invariant Added((set g | g in implied.Keys - items && action in implied[g]), before, list, satisfying, pending)
      decreases items
    {
      var grant :| grant in items;
      items := items - {grant};
      if action in implied[grant] && grant !in satisfying {
        satisfying := satisfying + {grant};
        pending := pending + [grant];
      }
    }
    forall g ensures g in implied && action in implied[g] <==> g in Successors(Inverse(Edges(implied)), action) {
      if g in implied && action in implied[g] {
        assert (g, action) in Edges(implied);
        assert (action, g) in Inverse(Edges(implied));
      }
    }
    assert (set g | g in implied.Keys && action in implied[g]) == Successors(Inverse(Edges(implied)), action);
  }

  method AsList(s: set<Action>) returns (list: seq<Action>)
    ensures forall a :: a in list <==> a in s
    ensures |list| == |s|
  {
    list := [];
    var rest := s;
    while rest != {}
      invariant rest <= s && |list| + |rest| == |s|
      invariant forall a :: a in list <==> a in s - rest
      decreases rest
    {
      var a :| a in rest;
      rest := rest - {a};
      list := list + [a];
    }
  }
}
