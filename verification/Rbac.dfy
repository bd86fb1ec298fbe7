/** Who may do what in which makerspace, asked one makerspace at a time and all at once. */
module Rbac {
  import opened Options
  import opened Closure

  type MakerspaceId = nat

  const FORBIDDEN_ACTIONS: set<Action> := {"transfer_stock", "manage_staff"}

  const GRANTABLE_ACTIONS: set<Action> := {
    "manage_events", "manage_bookings", "view_inventory", "edit_inventory", "accept_request", "reject_request",
    "assign_box", "issue_request", "issue_direct_loan", "return_request", "upload_evidence", "manage_qr",
    "manage_printing", "manage_machines", "view_audit", "manage_makerspace"}

  const ALL_ACTIONS: set<Action> := GRANTABLE_ACTIONS + FORBIDDEN_ACTIONS

  /** A value of a JSON column. */
  datatype Json = JNull | JBool(b: bool) | JNumber(n: int) | JString(s: string) | JList(items: seq<Json>) | JObject

  /** The `@>` test of a JSON column against the one-element list [action]. */
  predicate Contains(value: Json, action: Action) {
    value.JList? && JString(action) in value.items
  }

  datatype Role = Role(makerspace: MakerspaceId, granted: Json)

  datatype Membership = Membership(
    makerspace: MakerspaceId, active: bool, legacyRole: string, roleRow: Option<Role>)

  /** At most one membership per makerspace: the table has a unique (user, makerspace) constraint. */
  datatype Actor = Actor(authenticated: bool, superadmin: bool, memberships: map<MakerspaceId, Membership>) {
    ghost predicate Valid() {
      forall m :: m in memberships ==> memberships[m].makerspace == m
    }
  }

  datatype Makerspace = Makerspace(archived: bool, superadminAccess: bool)

  type Makerspaces = map<MakerspaceId, Makerspace>

  /** The two tables of the module: implied actions, and the action sets of the legacy roles. */
  datatype Policy = Policy(implied: Implied, legacy: map<string, set<Action>>) {
    /** Both speak of grantable actions only. */
    ghost predicate OverGrantable() {
      && (forall a :: a in implied ==> a in GRANTABLE_ACTIONS && implied[a] <= GRANTABLE_ACTIONS)
      && forall r :: r in legacy ==> legacy[r] <= GRANTABLE_ACTIONS
    }
  }

  const GUEST_ADMIN_ACTIONS: set<Action> := {
    "view_inventory", "assign_box", "issue_request", "issue_direct_loan", "return_request", "upload_evidence"}

  const INVENTORY_MANAGER_ACTIONS: set<Action> := GUEST_ADMIN_ACTIONS
    + {"edit_inventory", "accept_request", "reject_request", "manage_qr", "view_audit"}

  const SPACE_MANAGER_ACTIONS: set<Action> := INVENTORY_MANAGER_ACTIONS
    + {"manage_printing", "manage_makerspace", "manage_machines", "manage_events", "manage_bookings"}

  const SHIPPED: Policy := Policy(
    map["manage_machines" := {"manage_printing"}],
    map["space_manager" := SPACE_MANAGER_ACTIONS,
        "guest_admin" := GUEST_ADMIN_ACTIONS,
        "inventory_manager" := INVENTORY_MANAGER_ACTIONS,
        "print_manager" := {"manage_printing"},
        "machine_manager" := {"manage_machines"}])

  lemma ShippedPolicyIsOverGrantable()
    ensures SHIPPED.OverGrantable()
  {
  }

  // ---------------------------------------------------------------- the pointwise form

  function ActionsForMembership(p: Policy, membership: Option<Membership>): set<Action> {
    if membership.None? || !membership.value.active then {}
    else
      var m := membership.value;
      if m.roleRow.Some? then
        var role := m.roleRow.value;
        if role.makerspace != m.makerspace then {}
        else if !role.granted.JList? then {}
        else Expand(p.implied, set a | a in GRANTABLE_ACTIONS && JString(a) in role.granted.items)
      else Expand(p.implied, if m.legacyRole in p.legacy then p.legacy[m.legacyRole] else {})
  }

  /** `_membership_for`: active rows only. */
  function MembershipFor(actor: Actor, m: MakerspaceId): Option<Membership> {
    if m in actor.memberships && actor.memberships[m].active then Some(actor.memberships[m]) else None
  }

  function Hidden(t: Makerspaces): set<MakerspaceId> {
    set m | m in t && !t[m].superadminAccess
  }

  function Archived(t: Makerspaces): set<MakerspaceId> {
    set m | m in t && t[m].archived
  }

  predicate Can(p: Policy, t: Makerspaces, actor: Option<Actor>, action: Action, makerspace: Option<MakerspaceId>) {
    if actor.None? || !actor.value.authenticated then false
    else if makerspace.Some? && makerspace.value in Archived(t) then false
    else if actor.value.superadmin then
      if makerspace.None? then true
      else if makerspace.value in Hidden(t) then
        action in ActionsForMembership(p, MembershipFor(actor.value, makerspace.value))
      else true
    else if makerspace.None? then false
    else action in ActionsForMembership(p, MembershipFor(actor.value, makerspace.value))
  }

  function EffectiveActions(p: Policy, t: Makerspaces, actor: Option<Actor>, m: MakerspaceId): set<Action> {
    if actor.None? || !actor.value.authenticated then {}
    else if m in Archived(t) then {}
    else if actor.value.superadmin then
      if m in Hidden(t) then ActionsForMembership(p, MembershipFor(actor.value, m)) else GRANTABLE_ACTIONS
    else ActionsForMembership(p, MembershipFor(actor.value, m))
  }

  predicate SuperadminHiddenBlockApplies(
    p: Policy, t: Makerspaces, actor: Option<Actor>, m: MakerspaceId, action: Option<Action>)
  {
    if actor.None? || !actor.value.authenticated || !actor.value.superadmin then false
    else if m !in Hidden(t) then false
    else
      var membership := MembershipFor(actor.value, m);
      if membership.None? then true
      else if action.None? then false
      else action.value !in ActionsForMembership(p, membership)
  }

  // ---------------------------------------------------------------- the set form

  /** ALL is the unrestricted answer, otherwise the ids. */
  datatype Scope = All | Ids(ids: set<MakerspaceId>) {
    predicate Has(m: MakerspaceId) {
      All? || m in ids
    }
  }

  /** Rows that satisfy the database filter on an assigned role or on a legacy role. */
  function MatchingMemberships(p: Policy, actor: Actor, action: Action): set<MakerspaceId> {
    var satisfying := Satisfying(p.implied, action);
    var legacyRoles := set r | r in p.legacy && p.legacy[r] * satisfying != {};
    var byRole := set m | m in actor.memberships
      && var row := actor.memberships[m];
      && row.active && row.roleRow.Some? && row.roleRow.value.makerspace == row.makerspace
      && exists g :: g in satisfying && Contains(row.roleRow.value.granted, g);
    var byLegacy := set m | m in actor.memberships
      && var row := actor.memberships[m];
      && row.active && row.roleRow.None? && row.legacyRole in legacyRoles;
    byRole + byLegacy
  }

  function SuperadminHiddenToExclude(
    p: Policy, t: Makerspaces, actor: Actor, action: Option<Action>): set<MakerspaceId>
  {
    var memberOk :=
      if action.None? then set m | m in actor.memberships && actor.memberships[m].active
      else if action.value in FORBIDDEN_ACTIONS then {}
      else MatchingMemberships(p, actor, action.value);
    Hidden(t) - memberOk
  }

  function SuperadminVisible(p: Policy, t: Makerspaces, actor: Actor, action: Option<Action>): Scope {
    var excluded := SuperadminHiddenToExclude(p, t, actor, action) + Archived(t);
    if excluded == {} then All else Ids(t.Keys - excluded)
  }

  function MakerspacesForAction(p: Policy, t: Makerspaces, actor: Option<Actor>, action: Action): Scope {
    if actor.None? || !actor.value.authenticated then Ids({})
    else if actor.value.superadmin then SuperadminVisible(p, t, actor.value, Some(action))
    else if action in FORBIDDEN_ACTIONS then Ids({})
    else Ids(MatchingMemberships(p, actor.value, action) - Archived(t))
  }

  // ---------------------------------------------------------------- agreement

  /** The closure of a set of grantable actions is grantable. */
  lemma ExpandStaysGrantable(p: Policy, actions: set<Action>)
    requires p.OverGrantable() && actions <= GRANTABLE_ACTIONS
    ensures Expand(p.implied, actions) <= GRANTABLE_ACTIONS
  {
    assert Closed(Edges(p.implied), GRANTABLE_ACTIONS);
  }

  lemma SatisfyingStaysGrantable(p: Policy, action: Action)
    requires p.OverGrantable() && action in GRANTABLE_ACTIONS
    ensures Satisfying(p.implied, action) <= GRANTABLE_ACTIONS
  {
    assert Closed(Inverse(Edges(p.implied)), GRANTABLE_ACTIONS);
  }

  lemma NoMembershipGrantsForbidden(p: Policy, membership: Option<Membership>)
    requires p.OverGrantable()
    ensures ActionsForMembership(p, membership) <= GRANTABLE_ACTIONS
  {
    if membership.Some? {
      var m := membership.value;
      if m.roleRow.Some? && m.roleRow.value.granted.JList? {
        ExpandStaysGrantable(p, set a | a in GRANTABLE_ACTIONS && JString(a) in m.roleRow.value.granted.items);
      }
      ExpandStaysGrantable(p, if m.legacyRole in p.legacy then p.legacy[m.legacyRole] else {});
    }
  }

  /** The database filter selects a membership exactly when its resolved actions hold the action. */
  lemma FilterMatchesResolution(p: Policy, actor: Actor, action: Action, m: MakerspaceId)
    requires p.OverGrantable() && actor.Valid() && action in GRANTABLE_ACTIONS
    ensures m in MatchingMemberships(p, actor, action)
      <==> action in ActionsForMembership(p, MembershipFor(actor, m))
  {
    var satisfying := Satisfying(p.implied, action);
    if m in actor.memberships && actor.memberships[m].active {
      var row := actor.memberships[m];
      if row.roleRow.Some? {
        var role := row.roleRow.value;
        if role.makerspace == row.makerspace && role.granted.JList? {
          var granted := set a | a in GRANTABLE_ACTIONS && JString(a) in role.granted.items;
          SatisfyingStaysGrantable(p, action);
          ExpandMeetsSatisfying(p.implied, granted, action);
          if g :| g in satisfying && Contains(role.granted, g) { assert g in granted * satisfying; }
          if granted * satisfying != {} { var g :| g in granted * satisfying; assert Contains(role.granted, g); }
        }
      } else {
        ExpandMeetsSatisfying(p.implied, if row.legacyRole in p.legacy then p.legacy[row.legacyRole] else {}, action);
      }
    }
  }

  /** The set of makerspaces for an action holds exactly those where the pointwise check says yes. */
  lemma SetQueryAgreesWithCan(p: Policy, t: Makerspaces, actor: Option<Actor>, action: Action, m: MakerspaceId)
    requires p.OverGrantable() && action in ALL_ACTIONS && m in t
    requires actor.Some? ==> actor.value.Valid()
    ensures MakerspacesForAction(p, t, actor, action).Has(m) <==> Can(p, t, actor, action, Some(m))
  {
    if actor.Some? && actor.value.authenticated {
      NoMembershipGrantsForbidden(p, MembershipFor(actor.value, m));
      assert action in FORBIDDEN_ACTIONS <==> action !in GRANTABLE_ACTIONS;
      if action !in FORBIDDEN_ACTIONS { FilterMatchesResolution(p, actor.value, action, m); }
      if actor.value.superadmin { SuperadminSeesIff(p, t, actor.value, action, m); }
    }
  }

  /** A superadmin sees the makerspaces that are neither archived nor hidden without a membership for the action. */
  lemma SuperadminSeesIff(p: Policy, t: Makerspaces, actor: Actor, action: Action, m: MakerspaceId)
    requires m in t
    ensures SuperadminVisible(p, t, actor, Some(action)).Has(m) <==>
      && m !in Archived(t)
      && (m in Hidden(t) ==> action !in FORBIDDEN_ACTIONS && m in MatchingMemberships(p, actor, action))
  {
    var excluded := SuperadminHiddenToExclude(p, t, actor, Some(action)) + Archived(t);
    assert SuperadminVisible(p, t, actor, Some(action)).Has(m) <==> m !in excluded;
  }

  ghost predicate InSomeScope(p: Policy, t: Makerspaces, actor: Option<Actor>, actions: seq<Action>, m: MakerspaceId) {
    exists a :: a in actions && MakerspacesForAction(p, t, actor, a).Has(m)
  }

  lemma OneMoreScope(
    p: Policy, t: Makerspaces, actor: Option<Actor>, actions: seq<Action>, last: Action, m: MakerspaceId)
    ensures InSomeScope(p, t, actor, actions + [last], m)
      <==> InSomeScope(p, t, actor, actions, m) || MakerspacesForAction(p, t, actor, last).Has(m)
  {
    if a :| a in actions && MakerspacesForAction(p, t, actor, a).Has(m) { assert a in actions + [last]; }
    assert last in actions + [last];
  }

  /** `makerspaces_for_actions`: the union over several actions, with ALL absorbing. */
  method MakerspacesForActions(p: Policy, t: Makerspaces, actor: Option<Actor>, actions: seq<Action>)
    returns (scope: Scope)
    requires p.OverGrantable()
    requires actor.Some? ==> actor.value.Valid()
    requires forall a :: a in actions ==> a in ALL_ACTIONS
    ensures forall m :: m in t ==>
      (scope.Has(m) <==> exists a :: a in actions && Can(p, t, actor, a, Some(m)))
  {
    forall m, a | m in t && a in actions
      ensures MakerspacesForAction(p, t, actor, a).Has(m) <==> Can(p, t, actor, a, Some(m))
    {
      SetQueryAgreesWithCan(p, t, actor, a, m);
    }
    var combined: set<MakerspaceId> := {};
    var i := 0;
    while i < |actions|
      invariant i <= |actions|
      invariant forall m :: m in combined <==> InSomeScope(p, t, actor, actions[..i], m)
    {
      var one := MakerspacesForAction(p, t, actor, actions[i]);
      if one.All? { return All; }
      assert actions[..i + 1] == actions[..i] + [actions[i]];
      forall m { OneMoreScope(p, t, actor, actions[..i], actions[i], m); }
      combined := combined + one.ids;
      i := i + 1;
    }
    assert actions[..i] == actions;
    return Ids(combined);
  }

  // ---------------------------------------------------------------- the login payload

  /** How the request that asks for the payload narrows the rows. */
  datatype Channel = NoRequest | Device | Browser(origin: Option<MakerspaceId>)

  /** The membership rows that `user_payload` lists. */
  function PayloadRows(p: Policy, t: Makerspaces, user: Actor, channel: Channel): set<MakerspaceId> {
    var excluded := Archived(t)
      + if user.superadmin && user.authenticated then SuperadminHiddenToExclude(p, t, user, None) else {};
    set m | m in user.memberships && m !in excluded
      && match channel
         case NoRequest => true
         case Device => user.memberships[m].active
         case Browser(origin) => origin.None? || origin.value == m
  }

  /** The batched action list of one row; the response sorts it. */
  function PayloadActions(p: Policy, t: Makerspaces, user: Actor, row: Membership): set<Action> {
    if user.superadmin && row.makerspace !in Hidden(t) then GRANTABLE_ACTIONS
    else ActionsForMembership(p, Some(row))
  }

  /**
   On every row it lists, the batch agrees with the per-makerspace actions, and for a grantable
   action with the pointwise check and with the set query.
   */
  lemma PayloadAgreesWithCan(p: Policy, t: Makerspaces, user: Actor, channel: Channel, m: MakerspaceId, action: Action)
    requires p.OverGrantable() && user.Valid() && user.authenticated
    requires m in t && m in PayloadRows(p, t, user, channel)
    ensures PayloadActions(p, t, user, user.memberships[m]) == EffectiveActions(p, t, Some(user), m)
    ensures action in GRANTABLE_ACTIONS ==>
      (action in PayloadActions(p, t, user, user.memberships[m])) == Can(p, t, Some(user), action, Some(m))
    ensures action in GRANTABLE_ACTIONS ==>
      Can(p, t, Some(user), action, Some(m)) == MakerspacesForAction(p, t, Some(user), action).Has(m)
  {
    if action in GRANTABLE_ACTIONS { SetQueryAgreesWithCan(p, t, Some(user), action, m); }
  }

  /** For a superadmin the hard block is exactly the refusal of both forms, outside archived makerspaces. */
  lemma HiddenBlockIsRefusal(p: Policy, t: Makerspaces, actor: Actor, m: MakerspaceId, action: Action)
    requires p.OverGrantable() && actor.Valid() && action in ALL_ACTIONS && m in t
    requires actor.authenticated && actor.superadmin && m !in Archived(t)
    ensures SuperadminHiddenBlockApplies(p, t, Some(actor), m, Some(action))
      <==> !Can(p, t, Some(actor), action, Some(m))
    ensures SuperadminHiddenBlockApplies(p, t, Some(actor), m, Some(action))
      <==> !MakerspacesForAction(p, t, Some(actor), action).Has(m)
  {
    SetQueryAgreesWithCan(p, t, Some(actor), action, m);
  }
}
