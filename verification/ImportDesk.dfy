/** Preview and apply in the form the program has them: loops over the rows that update the tables. */
module ImportDesk {
  import opened Options
  import FreshNames
  import opened ImportModel
  import opened ImportMerge
  import opened ImportRows
  import opened ImportCategories
  import opened ImportPreview
  import opened ImportQuota

  datatype Outcome =
    | NotApplied
    | OverQuota
    | Applied(created: nat, updated: nat, failed: seq<nat>)

  datatype Tally = Tally(created: nat, updated: nat, failed: seq<nat>)

  /** The counts and the list of failures are those of the results. */
  ghost predicate Tells(tally: Tally, numbers: seq<nat>, results: seq<Result>) {
    && |numbers| == |results|
    && tally.created == Count(results, Created) && tally.updated == Count(results, Updated)
    && tally.failed == RejectedAmong(numbers, results)
  }

  function OneMore(tally: Tally, number: nat, result: Result): Tally {
    match result
    case Created => tally.(created := tally.created + 1)
    case Updated => tally.(updated := tally.updated + 1)
    case Rejected => tally.(failed := tally.failed + [number])
  }

  /** The first i rows have been applied. */
  ghost predicate Reached(
    start: Table, env: Env, labelled: seq<PreviewRow>, i: nat, now: Table, results: seq<Result>, tally: Tally)
  {
    && i <= |labelled|
    && (now, results) == ApplyRows(start, env, Applicable(labelled[..i]))
    && Tells(tally, Numbers(labelled[..i]), results)
  }

  lemma NothingApplied(start: Table, env: Env, labelled: seq<PreviewRow>)
    ensures Reached(start, env, labelled, 0, start, [], Tally(0, 0, []))
  {
  }

  lemma RowSkipped(
    start: Table, env: Env, labelled: seq<PreviewRow>, i: nat, now: Table, results: seq<Result>, tally: Tally)
    requires Reached(start, env, labelled, i, now, results, tally) && i < |labelled| && labelled[i].action == Error
    ensures Reached(start, env, labelled, i + 1, now, results, tally)
  {
    ApplicableOneMore(labelled, i);
    NumbersOneMore(labelled, i);
  }

  lemma RowApplied(
    start: Table, env: Env, labelled: seq<PreviewRow>, i: nat, before: Table, results: seq<Result>, tally: Tally,
    after: Table, result: Result)
    requires Reached(start, env, labelled, i, before, results, tally) && i < |labelled| && labelled[i].action != Error
    requires (after, result) == ApplyRow(before, env, labelled[i].data.item)
    ensures Reached(
      start, env, labelled, i + 1, after, results + [result], OneMore(tally, labelled[i].row, result))
  {
    ApplicableOneMore(labelled, i);
    NumbersOneMore(labelled, i);
    ApplySnoc(start, env, Applicable(labelled[..i]), labelled[i].data.item);
    CountResult(results, result);
    RejectedSnoc(Numbers(labelled[..i]), results, labelled[i].row, result);
  }

  lemma AllApplied(
    start: Table, env: Env, labelled: seq<PreviewRow>, now: Table, results: seq<Result>, tally: Tally)
    requires Reached(start, env, labelled, |labelled|, now, results, tally)
    ensures (now, results) == ApplyRows(start, env, Applicable(labelled))
    ensures Tells(tally, Numbers(labelled), results)
  {
    assert labelled[..|labelled|] == labelled;
  }

  class Desk {
    var products: map<Name, Product>
    var categories: map<string, CategoryId>
    var slugs: set<string>
    var nextCategory: CategoryId

    ghost function Tables(): Table
      reads this
    {
      Table(products, categories, slugs, nextCategory)
    }

    constructor ()
      ensures Tables() == Table(map[], map[], {}, 0)
    {
      products, categories, slugs, nextCategory := map[], map[], {}, 0;
    }

    /** `preview_import`: labels every row. */
    method PreviewImport(reader: Reader, mapping: Mapping, rows: seq<Row>)
      returns (preview: seq<PreviewRow>, valid: bool)
      requires Mapped(mapping, "available_quantity")
      ensures RightPreview(preview, reader, rows, mapping, products.Keys)
      ensures valid <==> NoRowErrors(preview)
      ensures CountActions(preview, Create) + CountActions(preview, Update) + CountActions(preview, Error) == |rows|
    {
      preview, valid := LabelRows(NormalizeWith(reader, mapping), rows);
      LabelsAreRight(preview, reader, rows, mapping, products.Keys);
    }

    /** The loop of `preview_import`, for whatever `normalize` makes of a row. */
    method LabelRows(normalize: Row -> Normalized, rows: seq<Row>) returns (preview: seq<PreviewRow>, valid: bool)
      ensures |preview| == |rows|
      ensures forall k :: 0 <= k < |rows| ==> preview[k] == LabelOf(normalize(rows[k]), products.Keys, k)
      ensures valid <==> NoRowErrors(preview)
      ensures CountActions(preview, Create) + CountActions(preview, Update) + CountActions(preview, Error) == |rows|
    {
      var existing := products.Keys;
      preview := [];
      valid := true;
      var i := 0;
      while i < |rows|
        invariant i <= |rows| && |preview| == i
        invariant forall k :: 0 <= k < i ==> preview[k] == LabelOf(normalize(rows[k]), existing, k)
        invariant valid <==> NoRowErrors(preview)
        invariant CountActions(preview, Create) + CountActions(preview, Update) + CountActions(preview, Error) == i
      {
        var item := LabelOf(normalize(rows[i]), existing, i);
        if item.data.errors != map[] { valid := false; }
        CountEachOneMore(preview, item);
        preview := preview + [item];
        i := i + 1;
      }
    }

    /** Rows that other imports have committed become visible. */
    method Meanwhile(r: Rival)
      modifies this
      ensures Tables() == Joined(old(Tables()), r)
    {
      categories := r.categories + categories;
      slugs := slugs + r.slugs;
      if nextCategory < r.next { nextCategory := r.next; }
    }

    /** One round of the loop of `_category_for_name`, between whose statements others commit. */
    method TryCategory(env: Env, name: string, round: Round) returns (outcome: Try, id: CategoryId)
      modifies this
      ensures (Tables(), outcome) == Attempt(old(Tables()), env, name, round)
      ensures outcome in {Found, Made} ==>
        env.fold(name) in categories && id == categories[env.fold(name)]
      ensures outcome in {Made, Doubled} ==> id + 1 == nextCategory
    {
      if env.fold(name) in categories { return Found, categories[env.fold(name)]; }
      Meanwhile(round.searching);
      var base := env.slugify(name);
      if base == "" { base := "category"; }
      var slug, tried := FreshNames.AvailableName(base, "-", slugs);
      Meanwhile(round.inserting);
      id := nextCategory;
      if slug in slugs {
        Meanwhile(round.refused);
        return Lost, id;
      }
      outcome := if env.fold(name) in categories then Doubled else Made;
      categories := if outcome == Doubled then categories else categories[env.fold(name) := id];
      slugs := slugs + {slug};
      nextCategory := nextCategory + 1;
    }

    /**
     `_category_for_name`. Others may commit categories between any two of its statements: `first` and
     `second` are what they commit in the two rounds. None stands for the integrity error.
     */
    method CategoryForName(env: Env, name: string, first: Round, second: Round)
      returns (id: Option<CategoryId>, created: bool)
      modifies this
      ensures var r := WithCategoryAmong(old(Tables()), env, name, first, second);
        && Tables() == r.0
        && (id.None? <==> r.1 == Lost)
        && (created <==> r.1 == Made || r.1 == Doubled)
        && (r.1 == Doubled ==> id.value + 1 == nextCategory)
        && (r.1 == Found || r.1 == Made ==>
              env.fold(name) in categories && id.value == categories[env.fold(name)])
    {
      var key := env.fold(name);
      for attempt := 0 to 2
        invariant attempt == 0 ==> Tables() == old(Tables())
        invariant attempt > 0 ==> Attempt(old(Tables()), env, name, first).1 == Lost
        invariant attempt == 1 ==> Tables() == Attempt(old(Tables()), env, name, first).0
        invariant attempt == 2 ==>
          (Tables(), Lost) == Attempt(Attempt(old(Tables()), env, name, first).0, env, name, second)
      {
        var outcome, category := TryCategory(env, name, if attempt == 0 then first else second);
        if outcome != Lost { return Some(category), outcome != Found; }
      }
      return if key in categories then Some(categories[key]) else None, false;
    }

    /** `_apply_import_row` inside its savepoint. */
    method ApplyImportRow(env: Env, item: Item) returns (result: Result)
      modifies this
      ensures (Tables(), result) == ApplyRow(old(Tables()), env, item)
    {
      var saved := (categories, slugs, nextCategory);
      var data := item.fields;
      if item.category.Some? {
        QuietIsWithCategory(Tables(), env, item.category.value);
        var id, created := CategoryForName(env, item.category.value, QUIET, QUIET);
        data := data["category_id" := Ref(id.value)];
      }
      data := data["box" := if item.box.Some? then Ref(item.box.value) else Null];
      assert data == Sets(item, env, categories);
      var product;
      if item.name in products {
        product := products[item.name].(fields := products[item.name].fields + data);
        result := Updated;
      } else {
        product := Product(item.buckets, COLUMN_DEFAULTS + data);
        result := Created;
      }
      if env.accepts(product) {
        products := products[item.name := product];
      } else {
        categories, slugs, nextCategory := saved.0, saved.1, saved.2;
        result := Rejected;
      }
    }

    /** The loop of `apply_import` over the previewed rows. */
    method ApplyAll(env: Env, labelled: seq<PreviewRow>)
      returns (created: nat, updated: nat, failed: seq<nat>, ghost results: seq<Result>)
      modifies this
      ensures (Tables(), results) == ApplyRows(old(Tables()), env, Applicable(labelled))
      ensures created == Count(results, Created) && updated == Count(results, Updated)
      ensures failed == RejectedAmong(Numbers(labelled), results)
    {
      created, updated, failed, results := 0, 0, [], [];
      ghost var start, tally := Tables(), Tally(0, 0, []);
      NothingApplied(start, env, labelled);
      for i := 0 to |labelled|
        invariant tally == Tally(created, updated, failed)
        invariant Reached(start, env, labelled, i, Tables(), results, tally)
      {
        if labelled[i].action == Error {
          RowSkipped(start, env, labelled, i, Tables(), results, tally);
          continue;
        }
        ghost var before := Tables();
        var result := ApplyImportRow(env, labelled[i].data.item);
        RowApplied(start, env, labelled, i, before, results, tally, Tables(), result);
        tally, results := OneMore(tally, labelled[i].row, result), results + [result];
        match result
        case Created => created := created + 1;
        case Updated => updated := updated + 1;
        case Rejected => failed := failed + [labelled[i].row];
      }
      AllApplied(start, env, labelled, Tables(), results, tally);
    }

    /** `apply_import`. `quotaAllows` is the verdict of the product quota on a number of new products. */
    method ApplyImport(
      reader: Reader, mapping: Mapping, env: Env, rows: seq<Row>, allowPartial: bool, quotaAllows: nat -> bool)
      returns (outcome: Outcome, ghost preview: seq<PreviewRow>)
      requires Mapped(mapping, "available_quantity")
      modifies this
      ensures RightPreview(preview, reader, rows, mapping, old(products.Keys))
      ensures outcome.NotApplied? <==> !allowPartial && !NoRowErrors(preview)
      ensures outcome == OverQuota <==>
        !outcome.NotApplied? && !quotaAllows(QuotaAsked(preview, old(products.Keys)))
      ensures !outcome.Applied? ==> Tables() == old(Tables())
      ensures outcome.Applied? ==>
        var r := ApplyRows(old(Tables()), env, Applicable(preview));
        && Tables() == r.0
        && outcome.created == Count(r.1, Created)
        && outcome.updated == Count(r.1, Updated)
        && outcome.failed == RejectedAmong(Numbers(preview), r.1)
    {
      var labelled, valid := PreviewImport(reader, mapping, rows);
      preview := labelled;
      if !valid && !allowPartial { return NotApplied, preview; }
      var names := ImportNames(labelled);
      var existing := Stored(products.Keys);
      if !quotaAllows(|names - existing|) { return OverQuota, preview; }
      var created, updated, failed, results := ApplyAll(env, labelled);
      return Applied(created, updated, failed), preview;
    }
  }
}
