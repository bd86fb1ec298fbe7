/** Token issue, rotation and revocation in the form the program has them: updates of rows in place. */
module DeviceStore {
  import opened DeviceModel

  datatype Outcome = Malformed | Replayed | NoLongerActive | Pair(refresh: Jti)

  /** Revoking a set of families at once: their rows, all their tokens, and the JWT blacklist. */
  function BlacklistFamilies(db: Db, fs: set<FamilyId>): Db {
    var jtis := set j | j in db.tokens && db.tokens[j].family in fs;
    db.(families := map f | f in db.families ::
          if f in fs then db.families[f].(revoked := true) else db.families[f],
        tokens := MarkBlacklisted(db.tokens, jtis),
        jwtBlacklist := db.jwtBlacklist + jtis)
  }

  lemma OneFamilyMore(db: Db, fs: set<FamilyId>, f: FamilyId)
    requires f in db.families
    ensures BlacklistFamily(BlacklistFamilies(db, fs), f) == BlacklistFamilies(db, fs + {f})
  {
    var a := BlacklistFamilies(db, fs);
    assert TokensOf(a, f) == TokensOf(db, f);
    assert BlacklistFamily(a, f).tokens == BlacklistFamilies(db, fs + {f}).tokens;
    assert BlacklistFamily(a, f).jwtBlacklist == BlacklistFamilies(db, fs + {f}).jwtBlacklist;
    assert BlacklistFamily(a, f).families == BlacklistFamilies(db, fs + {f}).families;
  }

  /** A family of the grant that is not revoked. */
  predicate OpenUnder(families: map<FamilyId, Family>, f: FamilyId, g: GrantId) {
    f in families && families[f].grant == g && !families[f].revoked
  }

  class Store {
    var users: map<UserId, bool>
    var grants: map<GrantId, Grant>
    var families: map<FamilyId, Family>
    var tokens: map<Jti, Token>
    var jwtBlacklist: set<Jti>
    var nextSerial: nat

    ghost function Tables(): Db
      reads this
    {
      Db(users, grants, families, tokens, jwtBlacklist, nextSerial)
    }

    constructor ()
      ensures Tables() == EMPTY
    {
      users, grants, families, tokens, jwtBlacklist, nextSerial := map[], map[], map[], map[], {}, 0;
    }

    /** `issue_device_token_pair` without a family to continue: a family of its own. */
    method IssueNewFamily(u: UserId, g: GrantId, f: FamilyId, jti: Jti)
      requires f !in families && jti !in tokens
      modifies this
      ensures Tables() == IssueFamily(old(Tables()), f, g, u, jti)
      ensures families == old(families)[f := Family(g, u, false)]
      ensures tokens == old(tokens)[jti := Token(f, old(nextSerial), false, false)] && nextSerial > old(nextSerial)
      ensures users == old(users) && grants == old(grants) && jwtBlacklist == old(jwtBlacklist)
      ensures old(Linked(Tables())) ==> TokensOf(Tables(), f) == {jti}
    {
      families := families[f := Family(g, u, false)];
      IssuePair(f, jti);
    }

    /** `issue_device_token_pair` in a given family. */
    method IssuePair(f: FamilyId, jti: Jti)
      requires jti !in tokens
      modifies this
      ensures Tables() == IssueToken(old(Tables()), f, jti)
    {
      tokens := tokens[jti := Token(f, nextSerial, false, false)];
      nextSerial := nextSerial + 1;
    }

    method BlacklistDeviceFamily(f: FamilyId, revokeGrant: bool)
      requires f in families
      modifies this
      ensures Tables() ==
        if revokeGrant then RevokeGrantRow(BlacklistFamily(old(Tables()), f), old(families)[f].grant)
        else BlacklistFamily(old(Tables()), f)
      ensures families == old(families)[f := old(families)[f].(revoked := true)]
      ensures tokens == Blacklisted(old(Tables()), f)
      ensures jwtBlacklist == old(jwtBlacklist) + set j | j in old(tokens) && old(tokens)[j].family == f
      ensures forall g :: g in old(grants) ==>
        g in grants && grants[g].active == (old(grants)[g].active && !(revokeGrant && g == old(families)[f].grant))
    {
      families := families[f := families[f].(revoked := true)];
      var jtis := set j | j in tokens && tokens[j].family == f;
      var left := jtis;
      while left != {}
        invariant left <= jtis
        invariant jwtBlacklist == old(jwtBlacklist) + (jtis - left)
        invariant families == old(families)[f := old(families)[f].(revoked := true)]
        invariant users == old(users) && grants == old(grants) && tokens == old(tokens) && nextSerial == old(nextSerial)
        decreases left
      {
        var j :| j in left;
        left := left - {j};
        jwtBlacklist := jwtBlacklist + {j};
      }
      tokens := map j | j in tokens :: if j in jtis then tokens[j].(blacklisted := true) else tokens[j];
      if revokeGrant && families[f].grant in grants {
        var g := families[f].grant;
        grants := grants[g := grants[g].(active := false)];
      }
    }

    /** `revoke_device_grant`, run without interference: the grant and every family not yet revoked. */
    method RevokeDeviceGrant(g: GrantId)
      modifies this
      ensures var before := RevokeGrantRow(old(Tables()), g);
        Tables() == BlacklistFamilies(before, set f | f in before.families
          && before.families[f].grant == g && !before.families[f].revoked)
      ensures g in old(grants) ==> g in grants && !grants[g].active
      ensures forall f :: f in old(families) ==>
        f in families && families[f].revoked == (old(families)[f].revoked || old(families)[f].grant == g)
      ensures forall j :: j in old(tokens) && OpenUnder(old(families), old(tokens)[j].family, g) ==>
        j in tokens && tokens[j].blacklisted && j in jwtBlacklist
      ensures forall j :: j in old(tokens) && !OpenUnder(old(families), old(tokens)[j].family, g) ==>
        j in tokens && tokens[j] == old(tokens)[j] && (j in jwtBlacklist <==> j in old(jwtBlacklist))
    {
      if g in grants { grants := grants[g := grants[g].(active := false)]; }
      ghost var before := Tables();
      var listed := set f | f in families && families[f].grant == g && !families[f].revoked;
      var left := listed;
      assert BlacklistFamilies(before, {}) == before by {
        assert BlacklistFamilies(before, {}).tokens == before.tokens;
        assert BlacklistFamilies(before, {}).families == before.families;
      }
      while left != {}
        invariant left <= listed <= families.Keys
        invariant families.Keys == before.families.Keys
        invariant Tables() == BlacklistFamilies(before, listed - left)
        decreases left
      {
        var f :| f in left;
        OneFamilyMore(before, listed - left, f);
        assert listed - left + {f} == listed - (left - {f});
        left := left - {f};
        BlacklistDeviceFamily(f, false);
      }
      assert listed - left == listed;
    }

    /**
     `rotate_device_refresh` inside its row locks. `notExpired` is the JWT library's check of the
     expiry. The refusals are raised only after the transaction, so what they revoked stays revoked.
     */
    method RotateDeviceRefresh(p: Presented, notExpired: bool, newJti: Jti) returns (outcome: Outcome)
      requires Linked(Tables()) && newJti !in tokens
      modifies this
      ensures outcome == Malformed <==>
        p.jti !in old(tokens) || !p.fingerprintOk || old(tokens)[p.jti].family != p.family
      ensures outcome == Malformed ==> Tables() == old(Tables())
      ensures outcome != Malformed ==>
        var snap := SnapOf(old(Tables()), p.jti);
        var decision := Decide(p, snap, notExpired && p.jti !in old(jwtBlacklist));
        && Tables() == Rotated(old(Tables()), p, snap.family, decision, newJti)
        && outcome == match decision
             case Mint => Pair(newJti)
             case Reuse => Replayed
             case _ => NoLongerActive
      ensures outcome == Pair(newJti) <==> Rotatable(old(Tables()), p) && notExpired && p.jti !in old(jwtBlacklist)
      ensures outcome == NoLongerActive <==>
        && outcome != Malformed
        && old(tokens)[p.jti].Live() && !old(families)[p.family].revoked && old(families)[p.family].grant == p.grant
        && !(old(users)[old(families)[p.family].user] && old(grants)[p.grant].active)
      ensures outcome == Pair(newJti) ==>
        && tokens == old(tokens)[p.jti := Token(p.family, old(tokens)[p.jti].serial, true, true)]
                                [newJti := Token(p.family, old(nextSerial), false, false)]
        && jwtBlacklist == old(jwtBlacklist) + {p.jti}
        && families == old(families) && grants == old(grants) && users == old(users)
      ensures outcome in {Replayed, NoLongerActive} ==>
        && tokens == Blacklisted(old(Tables()), p.family)
        && jwtBlacklist == old(jwtBlacklist) + (set j | j in old(tokens) && old(tokens)[j].family == p.family)
        && families == old(families)[p.family := old(families)[p.family].(revoked := true)]
        && grants == old(grants)[old(families)[p.family].grant :=
             old(grants)[old(families)[p.family].grant].(active := false)]
        && users == old(users)
    {
      if RowFound(Tables(), p) { RotationWrites(Tables(), p, notExpired && p.jti !in jwtBlacklist, newJti); }
      if p.jti !in tokens || !p.fingerprintOk || tokens[p.jti].family != p.family { return Malformed; }
      var row := tokens[p.jti];
      var family := families[row.family];
      var grant := grants[family.grant];
      var replay := false;
      var minted := false;
      var unusable := row.rotated || row.blacklisted || family.revoked || family.grant != p.grant;
      if unusable {
        BlacklistDeviceFamily(p.family, true);
        replay := true;
      } else if !users[family.user] {
        BlacklistDeviceFamily(p.family, true);
      } else if !grant.active {
        BlacklistDeviceFamily(p.family, false);
      } else {
        if notExpired && p.jti !in jwtBlacklist {
          jwtBlacklist := jwtBlacklist + {p.jti};
        } else {
          BlacklistDeviceFamily(p.family, true);
          replay := true;
        }
        if !replay {
          tokens := tokens[p.jti := row.(rotated := true, blacklisted := true)];
          IssuePair(p.family, newJti);
          minted := true;
        }
      }
      if replay { return Replayed; }
      if !minted { return NoLongerActive; }
      return Pair(newJti);
    }
  }
}
