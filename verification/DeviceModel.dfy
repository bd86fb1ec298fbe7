/** Device grants, refresh families and single-use refresh tokens. */
module DeviceModel {
  import opened Options

  type UserId = nat
  type GrantId = nat
  type FamilyId = nat
  type Jti = nat

  datatype Grant = Grant(user: UserId, active: bool)

  datatype Family = Family(grant: GrantId, user: UserId, revoked: bool)

  /** `serial` is the primary key of the row: it orders tokens by issue. */
  datatype Token = Token(family: FamilyId, serial: nat, rotated: bool, blacklisted: bool) {
    predicate Live() {
      !rotated && !blacklisted
    }
  }

  /**
   `users` says who is active with ACTIVE access. `jwtBlacklist` is the JWT library's own table,
   which other flows may write without touching the token rows.
   */
  datatype Db = Db(
    users: map<UserId, bool>,
    grants: map<GrantId, Grant>,
    families: map<FamilyId, Family>,
    tokens: map<Jti, Token>,
    jwtBlacklist: set<Jti>,
    nextSerial: nat)

  const EMPTY: Db := Db(map[], map[], map[], map[], {}, 0)

  /** A decoded refresh token: its claims, and whether the raw text matches the stored fingerprint. */
  datatype Presented = Presented(jti: Jti, fingerprintOk: bool, family: FamilyId, grant: GrantId)

  /** The four rows that the rotation locks, as it read them. */
  datatype Snap = Snap(row: Token, family: Family, grant: Grant, usable: bool)

  datatype Decision = Reuse | UserInactive | GrantInactive | Mint

  predicate RowFound(db: Db, p: Presented) {
    p.jti in db.tokens && p.fingerprintOk && db.tokens[p.jti].family == p.family
  }

  /** Foreign keys point at rows. */
  predicate Linked(db: Db) {
    && (forall j :: j in db.tokens ==> db.tokens[j].family in db.families)
    && (forall f :: f in db.families ==> db.families[f].grant in db.grants && db.families[f].user in db.users)
  }

  function SnapOf(db: Db, jti: Jti): Snap
    requires Linked(db) && jti in db.tokens
  {
    var row := db.tokens[jti];
    var family := db.families[row.family];
    Snap(row, family, db.grants[family.grant], db.users[family.user])
  }

  /** `jwtOk`: the JWT library accepts the token (not expired, not on its blacklist). */
  function Decide(p: Presented, snap: Snap, jwtOk: bool): Decision {
    if snap.row.rotated || snap.row.blacklisted || snap.family.revoked || snap.family.grant != p.grant then Reuse
    else if !snap.usable then UserInactive
    else if !snap.grant.active then GrantInactive
    else if !jwtOk then Reuse
    else Mint
  }

  function TokensOf(db: Db, f: FamilyId): set<Jti> {
    set j | j in db.tokens && db.tokens[j].family == f
  }

  function MarkBlacklisted(tokens: map<Jti, Token>, jtis: set<Jti>): map<Jti, Token> {
    map j | j in tokens :: if j in jtis then tokens[j].(blacklisted := true) else tokens[j]
  }

  function RevokeGrantRow(db: Db, g: GrantId): Db {
    if g in db.grants then db.(grants := db.grants[g := db.grants[g].(active := false)]) else db
  }

  function RevokeFamilyRow(db: Db, f: FamilyId): Db {
    if f in db.families then db.(families := db.families[f := db.families[f].(revoked := true)]) else db
  }

  /** `blacklist_device_family`: the family, every token row of it, and the JWT blacklist. */
  function BlacklistFamily(db: Db, f: FamilyId): Db {
    var jtis := TokensOf(db, f);
    RevokeFamilyRow(db, f).(tokens := MarkBlacklisted(db.tokens, jtis), jwtBlacklist := db.jwtBlacklist + jtis)
  }

  /** A new token row at the end of the family. */
  function IssueToken(db: Db, f: FamilyId, jti: Jti): Db {
    db.(tokens := db.tokens[jti := Token(f, db.nextSerial, false, false)], nextSerial := db.nextSerial + 1)
  }

  function IssueFamily(db: Db, f: FamilyId, g: GrantId, u: UserId, jti: Jti): Db {
    IssueToken(db.(families := db.families[f := Family(g, u, false)]), f, jti)
  }

  function SpendToken(db: Db, jti: Jti): Db
    requires jti in db.tokens
  {
    db.(tokens := db.tokens[jti := db.tokens[jti].(rotated := true, blacklisted := true)],
        jwtBlacklist := db.jwtBlacklist + {jti})
  }

  /** What the rotation leaves behind. Its refusals are raised after the transaction, so they stay. */
  function Rotated(db: Db, p: Presented, family: Family, decision: Decision, newJti: Jti): Db
    requires p.jti in db.tokens
  {
    match decision
    case Reuse => RevokeGrantRow(BlacklistFamily(db, p.family), family.grant)
    case UserInactive => RevokeGrantRow(BlacklistFamily(db, p.family), family.grant)
    case GrantInactive => BlacklistFamily(db, p.family)
    case Mint => IssueToken(SpendToken(db, p.jti), p.family, newJti)
  }

  // ---------------------------------------------------------------- what a rotation writes

  /** Nothing in the rows of the presented token stands in the way of a rotation. */
  predicate Rotatable(db: Db, p: Presented) {
    && p.fingerprintOk
    && p.jti in db.tokens
    && var row := db.tokens[p.jti];
    && row.family == p.family && !row.rotated && !row.blacklisted
    && p.family in db.families
    && var family := db.families[p.family];
    && !family.revoked && family.grant == p.grant
    && Lookup(db.users, family.user) == Some(true)
    && p.grant in db.grants && db.grants[p.grant].active
  }

  lemma MintDecisionIff(db: Db, p: Presented, jwtOk: bool)
    requires Linked(db) && RowFound(db, p)
    ensures Decide(p, SnapOf(db, p.jti), jwtOk) == Mint <==> Rotatable(db, p) && jwtOk
  {
  }

  /** It is reuse unless the token is live in an open family of the grant it names; then user and grant come first. */
  lemma DecisionIs(db: Db, p: Presented, jwtOk: bool)
    requires Linked(db) && RowFound(db, p)
    ensures var row, family := db.tokens[p.jti], db.families[p.family];
      var spent := row.rotated || row.blacklisted || family.revoked || family.grant != p.grant;
      Decide(p, SnapOf(db, p.jti), jwtOk) ==
        if spent then Reuse
        else if !db.users[family.user] then UserInactive
        else if !db.grants[p.grant].active then GrantInactive
        else if jwtOk then Mint
        else Reuse
  {
  }

  /** The rows of the family's tokens, all blacklisted. */
  function Blacklisted(db: Db, f: FamilyId): map<Jti, Token> {
    map j | j in db.tokens :: if db.tokens[j].family == f then db.tokens[j].(blacklisted := true) else db.tokens[j]
  }

  /**
   A rotation leaves the users alone. If it mints, the old token is spent in both tables and one new live row is
   added; otherwise the family is revoked, its tokens are blacklisted in both tables, and its grant is closed.
   */
  predicate Wrote(db: Db, p: Presented, jwtOk: bool, newJti: Jti, db': Db)
    requires Linked(db) && RowFound(db, p)
  {
    var family := db.families[p.family];
    var mine := set j | j in db.tokens && db.tokens[j].family == p.family;
    db' ==
      if Rotatable(db, p) && jwtOk then
        db.(tokens := db.tokens[p.jti := Token(p.family, db.tokens[p.jti].serial, true, true)]
                               [newJti := Token(p.family, db.nextSerial, false, false)],
            jwtBlacklist := db.jwtBlacklist + {p.jti},
            nextSerial := db.nextSerial + 1)
      else
        db.(families := db.families[p.family := Family(family.grant, family.user, true)],
            grants := db.grants[family.grant := Grant(db.grants[family.grant].user, false)],
            tokens := Blacklisted(db, p.family),
            jwtBlacklist := db.jwtBlacklist + mine)
  }

  lemma RotationWrites(db: Db, p: Presented, jwtOk: bool, newJti: Jti)
    requires Linked(db) && RowFound(db, p) && newJti !in db.tokens
    ensures var snap := SnapOf(db, p.jti);
      Wrote(db, p, jwtOk, newJti, Rotated(db, p, snap.family, Decide(p, snap, jwtOk), newJti))
  {
    MintDecisionIff(db, p, jwtOk);
    assert MarkBlacklisted(db.tokens, TokensOf(db, p.family)) == Blacklisted(db, p.family);
  }

  // ---------------------------------------------------------------- the chain

  /** Two tokens of one family, the first issued earlier. */
  predicate Earlier(db: Db, i: Jti, j: Jti) {
    && i in db.tokens && j in db.tokens
    && db.tokens[i].family == db.tokens[j].family
    && db.tokens[i].serial < db.tokens[j].serial
  }

  /** In each family every token but the last has been rotated; serials never repeat. */
  ghost predicate Chained(db: Db) {
    && Linked(db)
    && (forall j :: j in db.tokens ==> db.tokens[j].serial < db.nextSerial)
    && (forall i, j :: i in db.tokens && j in db.tokens && i != j ==> db.tokens[i].serial != db.tokens[j].serial)
    && (forall i, j :: Earlier(db, i, j) ==> db.tokens[i].rotated)
    && (forall j :: j in db.tokens && db.tokens[j].rotated ==> db.tokens[j].blacklisted)
  }

  lemma BlacklistKeepsChained(db: Db, f: FamilyId)
    requires Chained(db)
    ensures Chained(BlacklistFamily(db, f))
  {
    var db' := BlacklistFamily(db, f);
    forall i, j | Earlier(db', i, j) ensures db'.tokens[i].rotated {
      assert Earlier(db, i, j);
    }
  }

  lemma MintKeepsChained(db: Db, jti: Jti, newJti: Jti)
    requires Chained(db) && jti in db.tokens && !db.tokens[jti].rotated && newJti !in db.tokens
    ensures Chained(IssueToken(SpendToken(db, jti), db.tokens[jti].family, newJti))
  {
    var f := db.tokens[jti].family;
    var db' := IssueToken(SpendToken(db, jti), f, newJti);
    forall i, j | Earlier(db', i, j) ensures db'.tokens[i].rotated {
      if j == newJti {
        assert i == jti || Earlier(db, i, jti) || Earlier(db, jti, i);
      } else {
        assert Earlier(db, i, j);
      }
    }
  }

  lemma IssueFamilyKeepsChained(db: Db, f: FamilyId, g: GrantId, u: UserId, jti: Jti)
    requires Chained(db) && f !in db.families && g in db.grants && u in db.users && jti !in db.tokens
    ensures Chained(IssueFamily(db, f, g, u, jti))
  {
    var db' := IssueFamily(db, f, g, u, jti);
    forall i, j | Earlier(db', i, j) ensures db'.tokens[i].rotated {
      assert Earlier(db, i, j);
    }
  }

  /** Chaining is about the token rows; other tables only have to stay linked. */
  lemma SameTokensKeepChained(a: Db, b: Db)
    requires Chained(a) && Linked(b) && b.tokens == a.tokens && b.nextSerial == a.nextSerial
    ensures Chained(b)
  {
    forall i, j | Earlier(b, i, j) ensures b.tokens[i].rotated {
      assert Earlier(a, i, j);
    }
  }

  lemma RotationKeepsChained(db: Db, p: Presented, jwtOk: bool, newJti: Jti)
    requires Chained(db) && RowFound(db, p) && newJti !in db.tokens
    ensures Chained(Rotated(db, p, SnapOf(db, p.jti).family, Decide(p, SnapOf(db, p.jti), jwtOk), newJti))
  {
    var family := SnapOf(db, p.jti).family;
    BlacklistKeepsChained(db, p.family);
    match Decide(p, SnapOf(db, p.jti), jwtOk)
    case Mint => MintKeepsChained(db, p.jti, newJti);
    case _ =>
      var listed := BlacklistFamily(db, p.family);
      SameTokensKeepChained(listed, RevokeGrantRow(listed, family.grant));
  }

  /** Every refusal takes the family with all its tokens, leaves the grant closed, and issues nothing. */
  lemma RefusalTakesTheFamily(db: Db, p: Presented, jwtOk: bool, newJti: Jti)
    requires Linked(db) && RowFound(db, p) && newJti !in db.tokens
    requires Decide(p, SnapOf(db, p.jti), jwtOk) != Mint
    ensures var snap := SnapOf(db, p.jti); var db' := Rotated(db, p, snap.family, Decide(p, snap, jwtOk), newJti);
      && db'.tokens.Keys == db.tokens.Keys
      && db'.families == db.families[p.family := db.families[p.family].(revoked := true)]
      && db'.grants == db.grants[snap.family.grant := snap.grant.(active := false)]
      && forall j :: j in db.tokens ==>
           db'.tokens[j] == if db.tokens[j].family == p.family then db.tokens[j].(blacklisted := true) else db.tokens[j]
  {
  }

  /** A minted token succeeds the last token of its family and becomes the last itself. */
  lemma MintExtendsTheChain(db: Db, p: Presented, newJti: Jti, other: Jti)
    requires Chained(db) && RowFound(db, p) && newJti !in db.tokens
    requires Decide(p, SnapOf(db, p.jti), true) == Mint
    requires other in TokensOf(db, p.family) && other != p.jti
    ensures Earlier(db, other, p.jti)
    ensures var db' := Rotated(db, p, SnapOf(db, p.jti).family, Mint, newJti);
      Earlier(db', p.jti, newJti) && Earlier(db', other, newJti) && db'.tokens[newJti].Live()
  {
    assert Earlier(db, other, p.jti) || Earlier(db, p.jti, other);
  }

  /** What never comes back: a revoked grant or family, a spent or blacklisted token. */
  ghost predicate Hardens(a: Db, b: Db) {
    && a.jwtBlacklist <= b.jwtBlacklist
    && (forall g :: g in a.grants ==> g in b.grants && (b.grants[g].active ==> a.grants[g].active))
    && (forall f :: f in a.families ==>
         && f in b.families
         && b.families[f].grant == a.families[f].grant
         && (a.families[f].revoked ==> b.families[f].revoked))
    && (forall j :: j in a.tokens ==>
         && j in b.tokens
         && b.tokens[j].family == a.tokens[j].family
         && b.tokens[j].serial == a.tokens[j].serial
         && (a.tokens[j].rotated ==> b.tokens[j].rotated)
         && (a.tokens[j].blacklisted ==> b.tokens[j].blacklisted))
  }
}
