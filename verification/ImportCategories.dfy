/** `_category_for_name` while other imports create categories: it tries twice and looks once more. */
module ImportCategories {
  import opened Options
  import opened ImportModel
  import FreshNames

  /** What others commit between two statements of the call. */
  datatype Rival = Rival(categories: map<string, CategoryId>, slugs: set<string>, next: CategoryId)

  /** A round of the loop: others may commit while it searches a slug, before it inserts, and after a refusal. */
  datatype Round = Round(searching: Rival, inserting: Rival, refused: Rival)

  const NOTHING_NEW := Rival(map[], {}, 0)

  const QUIET := Round(NOTHING_NEW, NOTHING_NEW, NOTHING_NEW)

  /** A category that was there stays the one that the lookup by name finds. */
  function Joined(t: Table, r: Rival): Table {
    t.(categories := r.categories + t.categories,
       slugs := t.slugs + r.slugs,
       nextCategory := if t.nextCategory < r.next then r.next else t.nextCategory)
  }

  /** `Doubled`: a category was made although a rival had made one of the same name. */
  datatype Try = Found | Made | Doubled | Lost

  /** A second category of one name: its row and slug are new, and the lookup may still find the first. */
  function InsertAgain(t: Table, slug: string): Table {
    t.(slugs := t.slugs + {slug}, nextCategory := t.nextCategory + 1)
  }

  /** One round; it is lost when a rival has taken the slug, since only slugs are unique. */
  function Attempt(t: Table, env: Env, name: string, round: Round): (Table, Try) {
    if env.fold(name) in t.categories then (t, Found)
    else
      var searched := Joined(t, round.searching);
      var slug := SlugFor(searched, env, name);
      var now := Joined(searched, round.inserting);
      if slug in now.slugs then (Joined(now, round.refused), Lost)
      else if env.fold(name) in now.categories then (InsertAgain(now, slug), Doubled)
      else (Insert(now, env, name, slug), Made)
  }

  /** The last insertion repeats the lost slug, so it is refused; the caller's savepoint then rejects the row. */
  function WithCategoryAmong(t: Table, env: Env, name: string, first: Round, second: Round): (Table, Try) {
    var a := Attempt(t, env, name, first);
    if a.1 != Lost then a
    else
      var b := Attempt(a.0, env, name, second);
      if b.1 != Lost then b
      else if env.fold(name) in b.0.categories then (b.0, Found)
      else (b.0, Lost)
  }

  lemma QuietIsWithCategory(t: Table, env: Env, name: string)
    ensures WithCategoryAmong(t, env, name, QUIET, QUIET).0 == WithCategory(t, env, name)
    ensures WithCategoryAmong(t, env, name, QUIET, QUIET).1 == if env.fold(name) in t.categories then Found else Made
  {
    assert Joined(t, NOTHING_NEW) == t;
  }

  /** A new category takes the next id, and the slug of its name, or "category", with a suffix if that is taken. */
  lemma NewCategoryIs(t: Table, env: Env, name: string) returns (suffix: nat)
    requires env.fold(name) !in t.categories
    ensures var base := if env.slugify(name) == "" then "category" else env.slugify(name);
      var slug := if base !in t.slugs then base else base + "-" + FreshNames.Decimal(suffix);
      && (base in t.slugs ==>
            2 <= suffix && forall i :: 2 <= i < suffix ==> base + "-" + FreshNames.Decimal(i) in t.slugs)
      && WithCategory(t, env, name)
           == Table(t.products, t.categories[env.fold(name) := t.nextCategory], t.slugs + {slug}, t.nextCategory + 1)
      && slug !in t.slugs
  {
    suffix := FreshNames.FirstFreeIs(if env.slugify(name) == "" then "category" else env.slugify(name), "-", t.slugs);
  }

  // ---------------------------------------------------------------- the outcomes of one round

  /** The slug that the round searched is taken before it inserts. */
  predicate SlugTaken(t: Table, env: Env, name: string, round: Round) {
    SlugFor(Joined(t, round.searching), env, name) in round.inserting.slugs
  }

  /** Some rival makes a category of this name before the insertion. */
  predicate Overtaken(env: Env, name: string, round: Round) {
    env.fold(name) in round.searching.categories || env.fold(name) in round.inserting.categories
  }

  /** Some rival makes a category of this name in the course of the round. */
  predicate MadeByRival(env: Env, name: string, round: Round) {
    Overtaken(env, name, round) || env.fold(name) in round.refused.categories
  }

  lemma AttemptIs(t: Table, env: Env, name: string, round: Round)
    ensures var r := Attempt(t, env, name, round); var key := env.fold(name);
      && (r.1 == Found <==> key in t.categories)
      && (r.1 == Lost <==> key !in t.categories && SlugTaken(t, env, name, round))
      && (r.1 == Doubled <==>
            key !in t.categories && !SlugTaken(t, env, name, round) && Overtaken(env, name, round))
      && (r.1 == Lost ==> (key in r.0.categories <==> MadeByRival(env, name, round)))
  {
  }

  /** A category that is made, for the first or the second time, has an unused slug and the newest id. */
  lemma MadeIsStored(t: Table, env: Env, name: string, round: Round)
    requires Attempt(t, env, name, round).1 in {Made, Doubled}
    ensures var r := Attempt(t, env, name, round);
      var before := t.slugs + round.searching.slugs + round.inserting.slugs;
      && r.0.slugs - before == {SlugFor(Joined(t, round.searching), env, name)} && before <= r.0.slugs
      && r.0.nextCategory > t.nextCategory
      && r.0.nextCategory > round.searching.next && r.0.nextCategory > round.inserting.next
      && r.0.products == t.products
      && (r.1 == Made ==> r.0.categories[env.fold(name)] == r.0.nextCategory - 1)
      && (r.1 == Doubled ==> r.0.categories == round.inserting.categories + (round.searching.categories + t.categories))
  {
  }

  /** It gives up exactly when rivals take both slugs in turn and none of them makes the category itself. */
  lemma GivesUpIff(t: Table, env: Env, name: string, first: Round, second: Round)
    ensures var between := Attempt(t, env, name, first).0;
      WithCategoryAmong(t, env, name, first, second).1 == Lost <==>
        && env.fold(name) !in t.categories
        && SlugTaken(t, env, name, first) && !MadeByRival(env, name, first)
        && SlugTaken(between, env, name, second) && !MadeByRival(env, name, second)
  {
    AttemptIs(t, env, name, first);
    AttemptIs(Attempt(t, env, name, first).0, env, name, second);
  }

  /** It finds the category exactly when it is there, or a rival makes it in a round whose slug was taken. */
  lemma FoundIff(t: Table, env: Env, name: string, first: Round, second: Round)
    ensures var between := Attempt(t, env, name, first).0;
      WithCategoryAmong(t, env, name, first, second).1 == Found <==>
        || env.fold(name) in t.categories
        || (SlugTaken(t, env, name, first)
            && (MadeByRival(env, name, first)
                || (SlugTaken(between, env, name, second) && MadeByRival(env, name, second))))
  {
    AttemptIs(t, env, name, first);
    AttemptIs(Attempt(t, env, name, first).0, env, name, second);
  }

  /**
   It makes a second category of the name exactly when, in the round that inserts, a rival has made the first
   one after the lookup without taking the slug.
   */
  lemma DoublesIff(t: Table, env: Env, name: string, first: Round, second: Round)
    ensures var between := Attempt(t, env, name, first).0;
      WithCategoryAmong(t, env, name, first, second).1 == Doubled <==>
        && env.fold(name) !in t.categories
        && if SlugTaken(t, env, name, first) then
             && !MadeByRival(env, name, first)
             && Overtaken(env, name, second) && !SlugTaken(between, env, name, second)
           else Overtaken(env, name, first)
  {
    AttemptIs(t, env, name, first);
    AttemptIs(Attempt(t, env, name, first).0, env, name, second);
  }

  /** A rival that commits the category between the lookup and the search for a slug is doubled. */
  lemma RivalBeforeSearchIsDoubled(t: Table, env: Env, name: string, rival: Rival, second: Round)
    requires env.fold(name) !in t.categories && env.fold(name) in rival.categories
    ensures WithCategoryAmong(t, env, name, Round(rival, NOTHING_NEW, NOTHING_NEW), second).1 == Doubled
  {
    AttemptIs(t, env, name, Round(rival, NOTHING_NEW, NOTHING_NEW));
  }

  // ---------------------------------------------------------------- what the tables keep

  /** The categories that rivals make in the round. */
  function ByRivals(round: Round): set<string> {
    round.searching.categories.Keys + round.inserting.categories.Keys + round.refused.categories.Keys
  }

  ghost predicate Grows(t: Table, t': Table, added: set<string>) {
    && (forall c :: c in t.categories ==> c in t'.categories && t'.categories[c] == t.categories[c])
    && t'.categories.Keys <= t.categories.Keys + added
    && t.slugs <= t'.slugs
  }

  lemma AttemptGrows(t: Table, env: Env, name: string, round: Round)
    ensures var r := Attempt(t, env, name, round);
      && Grows(t, r.0, ByRivals(round) + if r.1 == Made then {env.fold(name)} else {})
      && (r.1 != Lost ==> env.fold(name) in r.0.categories)
  {
  }

  /** Unless it gives up, the category is there afterwards; nobody's category is moved, and at most one is made. */
  lemma FindsOrMakesOne(t: Table, env: Env, name: string, first: Round, second: Round)
    ensures var r := WithCategoryAmong(t, env, name, first, second);
      && Grows(t, r.0, ByRivals(first) + ByRivals(second) + if r.1 == Made then {env.fold(name)} else {})
      && (r.1 != Lost ==> env.fold(name) in r.0.categories)
  {
    AttemptGrows(t, env, name, first);
    AttemptGrows(Attempt(t, env, name, first).0, env, name, second);
  }
}
