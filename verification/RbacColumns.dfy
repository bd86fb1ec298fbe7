/** The access decisions, read off the columns of the makerspace and of the actor's membership in it. */
module RbacColumns {
  import opened Options
  import opened Closure
  import opened Rbac

  /** The role of the membership names the action itself. */
  predicate Names(p: Policy, row: Membership, action: Action) {
    match row.roleRow
    case None => row.legacyRole in p.legacy && action in p.legacy[row.legacyRole]
    case Some(role) =>
      && role.makerspace == row.makerspace
      && role.granted.JList? && JString(action) in role.granted.items
      && action !in {"transfer_stock", "manage_staff"} && action in ALL_ACTIONS
  }

  /** A chain of implications leads to the action from one that the active membership's role names. */
  ghost predicate Grants(p: Policy, row: Membership, action: Action) {
    row.active && exists named :: Names(p, row, named) && Implies(p.implied, named, action)
  }

  ghost predicate GrantsIn(p: Policy, actor: Actor, m: MakerspaceId, action: Action) {
    m in actor.memberships && Grants(p, actor.memberships[m], action)
  }

  lemma GrantedIff(p: Policy, row: Membership, action: Action)
    ensures action in ActionsForMembership(p, Some(row)) <==> Grants(p, row, action)
  {
    if row.active && row.roleRow.Some? {
      var role := row.roleRow.value;
      if role.makerspace == row.makerspace && role.granted.JList? {
        var named := set a | a in GRANTABLE_ACTIONS && JString(a) in role.granted.items;
        ExpandIsReach(p.implied, named, action);
        forall a ensures a in named <==> Names(p, row, a) { GrantableIff(a); }
      }
    } else if row.active {
      var named := if row.legacyRole in p.legacy then p.legacy[row.legacyRole] else {};
      ExpandIsReach(p.implied, named, action);
      assert forall a :: a in named <==> Names(p, row, a);
    }
  }

  /** The forbidden actions are the only ones that no role can grant. */
  lemma GrantableIff(action: Action)
    ensures action in GRANTABLE_ACTIONS <==> action in ALL_ACTIONS && action !in {"transfer_stock", "manage_staff"}
  {
  }

  lemma MembershipGrantsIff(p: Policy, actor: Actor, m: MakerspaceId, action: Action)
    ensures action in ActionsForMembership(p, MembershipFor(actor, m)) <==> GrantsIn(p, actor, m, action)
  {
    if m in actor.memberships { GrantedIff(p, actor.memberships[m], action); }
  }

  /** What an actor may do in an existing makerspace. */
  ghost predicate May(p: Policy, t: Makerspaces, actor: Option<Actor>, action: Action, m: MakerspaceId)
    requires m in t
  {
    && actor.Some? && actor.value.authenticated
    && !t[m].archived
    && ((actor.value.superadmin && t[m].superadminAccess) || GrantsIn(p, actor.value, m, action))
  }

  /**
   The check says yes exactly for an authenticated actor, in a makerspace that is not archived, who is a
   superadmin where superadmin access is on, or whose membership there grants the action.
   */
  lemma CanIff(p: Policy, t: Makerspaces, actor: Option<Actor>, action: Action, m: MakerspaceId)
    requires m in t
    ensures Can(p, t, actor, action, Some(m)) <==> May(p, t, actor, action, m)
  {
    if actor.Some? { MembershipGrantsIff(p, actor.value, m, action); }
  }

  /** Without a makerspace, or for one that does not exist, only memberships and superadmins count. */
  lemma CanElsewhereIff(p: Policy, t: Makerspaces, actor: Option<Actor>, action: Action, m: MakerspaceId)
    requires m !in t
    ensures Can(p, t, actor, action, None) <==> actor.Some? && actor.value.authenticated && actor.value.superadmin
    ensures Can(p, t, actor, action, Some(m)) <==>
      && actor.Some? && actor.value.authenticated
      && (actor.value.superadmin || GrantsIn(p, actor.value, m, action))
  {
    if actor.Some? { MembershipGrantsIff(p, actor.value, m, action); }
  }

  /** The set query holds exactly the existing makerspaces where the columns allow the action. */
  lemma SetQueryIff(p: Policy, t: Makerspaces, actor: Option<Actor>, action: Action, m: MakerspaceId)
    requires p.OverGrantable() && action in ALL_ACTIONS && m in t
    requires actor.Some? ==> actor.value.Valid()
    ensures MakerspacesForAction(p, t, actor, action).Has(m) <==> May(p, t, actor, action, m)
  {
    SetQueryAgreesWithCan(p, t, actor, action, m);
    CanIff(p, t, actor, action, m);
  }

  /** Actions are effective exactly if the columns allow them, forbidden actions excepted. */
  lemma EffectiveIff(p: Policy, t: Makerspaces, actor: Option<Actor>, action: Action, m: MakerspaceId)
    requires p.OverGrantable() && m in t
    ensures action in EffectiveActions(p, t, actor, m) <==>
      action in ALL_ACTIONS && action !in {"transfer_stock", "manage_staff"} && May(p, t, actor, action, m)
  {
    GrantableIff(action);
    if actor.Some? {
      MembershipGrantsIff(p, actor.value, m, action);
      NoMembershipGrantsForbidden(p, MembershipFor(actor.value, m));
    }
  }

  /** The hard block hits superadmins where superadmin access is off and no membership grants what is asked. */
  lemma HiddenBlockIff(p: Policy, t: Makerspaces, actor: Option<Actor>, m: MakerspaceId, action: Option<Action>)
    ensures SuperadminHiddenBlockApplies(p, t, actor, m, action) <==>
      && actor.Some? && actor.value.authenticated && actor.value.superadmin
      && m in t && !t[m].superadminAccess
      && match action
         case None => !(m in actor.value.memberships && actor.value.memberships[m].active)
         case Some(a) => !GrantsIn(p, actor.value, m, a)
  {
    if actor.Some? && action.Some? { MembershipGrantsIff(p, actor.value, m, action.value); }
  }

  /** The login payload lists a membership unless its makerspace is archived or hidden, or the channel skips it. */
  lemma PayloadListsIff(p: Policy, t: Makerspaces, user: Actor, channel: Channel, m: MakerspaceId)
    requires m in t
    ensures m in PayloadRows(p, t, user, channel) <==>
      && m in user.memberships && !t[m].archived
      && (user.authenticated && user.superadmin && !t[m].superadminAccess ==> user.memberships[m].active)
      && (channel == Device ==> user.memberships[m].active)
      && forall origin :: channel == Browser(Some(origin)) ==> origin == m
  {
  }

  /** And it shows on that row exactly what the columns allow. */
  lemma PayloadShowsIff(p: Policy, t: Makerspaces, user: Actor, channel: Channel, m: MakerspaceId, action: Action)
    requires p.OverGrantable() && user.Valid() && user.authenticated
    requires m in t && m in PayloadRows(p, t, user, channel)
    ensures action in PayloadActions(p, t, user, user.memberships[m]) <==>
      action in ALL_ACTIONS && action !in {"transfer_stock", "manage_staff"} && May(p, t, Some(user), action, m)
  {
    PayloadAgreesWithCan(p, t, user, channel, m, action);
    EffectiveIff(p, t, Some(user), action, m);
  }

  // ---------------------------------------------------------------- the shipped roles

  lemma OnlyMachinesImplyPrinting(named: Action, action: Action)
    ensures Implies(SHIPPED.implied, named, action) <==>
      named == action || (named == "manage_machines" && action == "manage_printing")
  {
    var edges := Edges(SHIPPED.implied);
    assert edges == {("manage_machines", "manage_printing")};
    if Implies(SHIPPED.implied, named, action) {
      var path :| ChainFrom(SHIPPED.implied, path, named, action);
      var s := {named} + if named == "manage_machines" then {"manage_printing"} else {};
      ChainStaysInside(SHIPPED.implied, path, named, action, s);
    }
    assert ChainFrom(SHIPPED.implied, [named], named, named);
    if named == "manage_machines" && action == "manage_printing" {
      assert (named, action) in edges;
      ChainGrows(SHIPPED.implied, named, (named, action));
    }
  }
  /** An active membership that still has one of the legacy roles. */
  predicate Legacy(row: Membership, role: string) {
    row.active && row.roleRow.None? && row.legacyRole == role
  }

  lemma LegacyGrantsIff(row: Membership, action: Action)
    requires row.active && row.roleRow.None? && row.legacyRole in SHIPPED.legacy
    ensures var named := SHIPPED.legacy[row.legacyRole];
      Grants(SHIPPED, row, action) <==> action in named || (action == "manage_printing" && "manage_machines" in named)
  {
    forall named { OnlyMachinesImplyPrinting(named, action); }
    if action in SHIPPED.legacy[row.legacyRole] { assert Names(SHIPPED, row, action); }
    if "manage_machines" in SHIPPED.legacy[row.legacyRole] { assert Names(SHIPPED, row, "manage_machines"); }
  }

  lemma ShippedManagers()
    ensures var roles := SHIPPED.legacy;
      && "space_manager" in roles && roles["space_manager"] == GRANTABLE_ACTIONS
      && "inventory_manager" in roles
      && roles["inventory_manager"] == GRANTABLE_ACTIONS - {
           "manage_printing", "manage_machines", "manage_events", "manage_bookings", "manage_makerspace"}
  {
  }

  lemma ShippedHelpers()
    ensures var roles := SHIPPED.legacy;
      && "guest_admin" in roles && roles["guest_admin"] == GUEST_ADMIN_ACTIONS
      && "machine_manager" in roles && roles["machine_manager"] == {"manage_machines"}
      && "print_manager" in roles && roles["print_manager"] == {"manage_printing"}
  {
  }

  /**
   With the shipped tables a space manager may do everything that roles can grant, and an inventory manager all
   of that but printing, machines, events, bookings and the makerspace itself.
   */
  lemma ManagersGrant(row: Membership, action: Action)
    ensures Legacy(row, "space_manager") ==>
      (Grants(SHIPPED, row, action) <==> action in ALL_ACTIONS && action !in {"transfer_stock", "manage_staff"})
    ensures Legacy(row, "inventory_manager") ==>
      (Grants(SHIPPED, row, action) <==>
        action in GRANTABLE_ACTIONS && action !in {
          "manage_printing", "manage_machines", "manage_events", "manage_bookings", "manage_makerspace"})
  {
    GrantableIff(action);
    ShippedManagers();
    if Legacy(row, "space_manager") || Legacy(row, "inventory_manager") { LegacyGrantsIff(row, action); }
  }

  /** A guest admin hands out and takes back, a machine manager has machines and printing, a print manager printing. */
  lemma HelpersGrant(row: Membership, action: Action)
    ensures Legacy(row, "guest_admin") ==>
      (Grants(SHIPPED, row, action) <==>
        action in {"view_inventory", "assign_box", "issue_request", "issue_direct_loan", "return_request",
                   "upload_evidence"})
    ensures Legacy(row, "machine_manager") ==>
      (Grants(SHIPPED, row, action) <==> action in {"manage_machines", "manage_printing"})
    ensures Legacy(row, "print_manager") ==> (Grants(SHIPPED, row, action) <==> action == "manage_printing")
  {
    ShippedHelpers();
    if Legacy(row, "guest_admin") || Legacy(row, "machine_manager") || Legacy(row, "print_manager") {
      LegacyGrantsIff(row, action);
    }
  }
}
