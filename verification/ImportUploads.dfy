/** Small uploads on which the preview announces, or the import asks quota for, another number than it creates. */
module ImportUploads {
  import opened ImportModel
  import opened ImportMerge
  import opened ImportRows
  import opened ImportPreview
  import opened ImportQuota

  const NO_TABLE: Table := Table(map[], map[], {}, 0)

  /** Of two equal rows the second finds the product of the first. */
  lemma SecondRowUpdates(item: Item, env: Env)
    requires item.category.None? && forall p :: env.accepts(p)
    ensures ApplyRows(NO_TABLE, env, [item, item]).1 == [Created, Updated]
  {
    var once := ApplyRow(NO_TABLE, env, item);
    ApplySnoc(NO_TABLE, env, [], item);
    assert [] + [item] == [item] && [] + [Created] == [Created];
    assert once.1 == Created;
    assert ApplyRows(NO_TABLE, env, [item]) == (once.0, [Created]);
    ApplySnoc(NO_TABLE, env, [item], item);
    assert [item] + [item] == [item, item];
    assert ApplyRow(once.0, env, item).1 == Updated;
  }

  lemma TwoCreateLabels(first: PreviewRow, second: PreviewRow)
    requires first.action == Create && second.action == Create
    ensures CountActions([first, second], Create) == 2
    ensures Applicable([first, second]) == [first.data.item, second.data.item]
  {
    assert [] + [first] == [first] && [first] + [second] == [first, second];
    CountOneMore([], first, Create);
    CountOneMore([first], second, Create);
    ApplicableSnoc([], first);
    ApplicableSnoc([first], second);
  }

  /** On an empty table every acceptable row is a creation. */
  lemma CreateLabel(reader: Reader, mapping: Mapping, row: Row, k: nat)
    requires Mapped(mapping, "available_quantity")
    requires Acceptable(reader, row, mapping) && Truthy(CellFor(row, mapping, "name"))
    ensures var p := LabelOf(Normalize(reader, row, mapping), {}, k);
      RightLabel(p, reader, row, mapping, {}, k) && p.action == Create
  {
    ActionIsRight(reader, row, mapping, {}, k);
  }

  lemma TwoRightLabels(
    p: PreviewRow, q: PreviewRow, reader: Reader, mapping: Mapping, first: Row, second: Row, existing: set<Name>)
    requires Mapped(mapping, "available_quantity")
    requires p == LabelOf(Normalize(reader, first, mapping), existing, 0)
    requires q == LabelOf(Normalize(reader, second, mapping), existing, 1)
    ensures RightPreview([p, q], reader, [first, second], mapping, existing)
  {
    var normalize := NormalizeWith(reader, mapping);
    assert p == LabelOf(normalize(first), existing, 0) && q == LabelOf(normalize(second), existing, 1);
    TwoLabels(p, q, normalize, first, second, existing);
    LabelsAreRight([p, q], reader, [first, second], mapping, existing);
  }

  lemma TwoLabels(
    p: PreviewRow, q: PreviewRow, normalize: Row -> Normalized, first: Row, second: Row, existing: set<Name>)
    requires p == LabelOf(normalize(first), existing, 0) && q == LabelOf(normalize(second), existing, 1)
    ensures forall k :: 0 <= k < 2 ==> [p, q][k] == LabelOf(normalize([first, second][k]), existing, k)
  {
  }

  /** The upload of a row and its copy: both are labelled "create", and they make one product. */
  lemma PreviewOvercounts(reader: Reader, mapping: Mapping, row: Row, env: Env) returns (preview: seq<PreviewRow>)
    requires Mapped(mapping, "available_quantity") && Acceptable(reader, row, mapping)
    requires Truthy(CellFor(row, mapping, "name")) && Normalize(reader, row, mapping).item.category.None?
    requires forall p :: env.accepts(p)
    ensures RightPreview(preview, reader, [row, row], mapping, NO_TABLE.products.Keys)
    ensures CountActions(preview, Create) == 2
    ensures Count(ApplyRows(NO_TABLE, env, Applicable(preview)).1, Created) == 1
  {
    var p, q := LabelOf(Normalize(reader, row, mapping), {}, 0), LabelOf(Normalize(reader, row, mapping), {}, 1);
    preview := [p, q];
    CreateLabel(reader, mapping, row, 0);
    CreateLabel(reader, mapping, row, 1);
    TwoRightLabels(p, q, reader, mapping, row, row, {});
    TwoCreateLabels(p, q);
    SecondRowUpdates(Normalize(reader, row, mapping).item, env);
    CountTwo(Created, Updated);
  }

  lemma CountTwo(first: Result, second: Result)
    ensures forall wanted ::
      Count([first, second], wanted) == (if first == wanted then 1 else 0) + if second == wanted then 1 else 0
  {
    CountResult([], first);
    CountResult([first], second);
    assert [] + [first] == [first] && [first] + [second] == [first, second];
  }

  // ---------------------------------------------------------------- a small upload

  const SMALL_MAPPING: Mapping := map[
    "name" := "Name", "total_quantity" := "Total", "available_quantity" := "Available"]

  /** One piece of something. */
  function SmallRow(name: Cell): Row {
    map["Name" := name, "Total" := Num(1), "Available" := Num(1)]
  }

  lemma SmallCells(name: Cell)
    ensures Mapped(SMALL_MAPPING, "name") && CellFor(SmallRow(name), SMALL_MAPPING, "name") == name
    ensures Mapped(SMALL_MAPPING, "total_quantity") && Mapped(SMALL_MAPPING, "available_quantity")
    ensures CellFor(SmallRow(name), SMALL_MAPPING, "total_quantity") == Num(1)
    ensures CellFor(SmallRow(name), SMALL_MAPPING, "available_quantity") == Num(1)
  {
  }

  /** The other fields differ from the mapped ones in length. */
  lemma OtherCell(name: Cell, field: Field)
    requires |field| !in {4, 14, 18}
    ensures field !in SMALL_MAPPING && CellFor(SmallRow(name), SMALL_MAPPING, field) == Blank
  {
    assert field != "name" && field != "total_quantity" && field != "available_quantity";
  }

  lemma OtherQuantity(reader: Reader, name: Cell, field: Field)
    requires |field| !in {4, 14, 18}
    ensures Quantity(reader, SmallRow(name), SMALL_MAPPING, field) == 0
    ensures GoodQuantity(reader, SmallRow(name), SMALL_MAPPING, field)
  {
    OtherCell(name, field);
  }

  lemma SmallQuantities(reader: Reader, name: Cell)
    ensures forall k :: 0 <= k < |QUANTITIES| ==> GoodQuantity(reader, SmallRow(name), SMALL_MAPPING, QUANTITIES[k])
    ensures BucketsOf(reader, SmallRow(name), SMALL_MAPPING) == Buckets(1, 1, 0, 0, 0, 0, 0)
  {
    SmallCells(name);
    OtherQuantity(reader, name, "reserved_quantity");
    OtherQuantity(reader, name, "issued_quantity");
    OtherQuantity(reader, name, "damaged_quantity");
    OtherQuantity(reader, name, "lost_quantity");
  }

  lemma SmallChoices(name: Cell)
    ensures IsChoice(ChoiceOf(SmallRow(name), SMALL_MAPPING, "tracking_mode", "quantity"), TRACKING_MODES)
    ensures IsChoice(
      ChoiceOf(SmallRow(name), SMALL_MAPPING, "public_availability_mode", "status_only"), AVAILABILITY_MODES)
  {
    OtherCell(name, "tracking_mode");
    OtherCell(name, "public_availability_mode");
  }

  lemma SmallDetails(reader: Reader, name: Cell)
    requires reader.strip("") == ""
    ensures !Truthy(CellFor(SmallRow(name), SMALL_MAPPING, "box_code"))
    ensures TrimmedText(reader, CellFor(SmallRow(name), SMALL_MAPPING, "image_key")) == ""
    ensures TrimmedText(reader, CellFor(SmallRow(name), SMALL_MAPPING, "category")) == ""
  {
    OtherCell(name, "box_code");
    OtherCell(name, "image_key");
    OtherCell(name, "category");
  }

  lemma SmallRowIsAcceptable(reader: Reader, name: Cell)
    requires reader.strip("") == "" && !Empty(name)
    ensures Acceptable(reader, SmallRow(name), SMALL_MAPPING)
  {
    SmallCells(name);
    SmallQuantities(reader, name);
    SmallChoices(name);
    SmallDetails(reader, name);
  }

  lemma SmallItem(reader: Reader, name: Cell)
    requires reader.strip("") == "" && Mapped(SMALL_MAPPING, "available_quantity")
    ensures var data := Normalize(reader, SmallRow(name), SMALL_MAPPING);
      data.name == name && data.item.name == NameText(reader, name) && data.item.category.None?
  {
    SmallCells(name);
    SmallDetails(reader, name);
  }

  /** The row is acceptable under the mapping, is named by the cell and has no category. */
  ghost predicate Uploads(reader: Reader, mapping: Mapping, row: Row, name: Cell) {
    && Mapped(mapping, "available_quantity")
    && Acceptable(reader, row, mapping)
    && CellFor(row, mapping, "name") == name
    && Normalize(reader, row, mapping).item.category.None?
  }

  lemma SmallUpload(reader: Reader, name: Cell)
    requires reader.strip("") == "" && !Empty(name)
    ensures Uploads(reader, SMALL_MAPPING, SmallRow(name), name)
  {
    SmallCells(name);
    SmallItem(reader, name);
    SmallRowIsAcceptable(reader, name);
  }

  /** Any two names can be uploaded together. */
  lemma TwoSmallUploads(reader: Reader, a: Cell, b: Cell) returns (mapping: Mapping, first: Row, second: Row)
    requires reader.strip("") == "" && !Empty(a) && !Empty(b)
    ensures Uploads(reader, mapping, first, a) && Uploads(reader, mapping, second, b)
    ensures a == b ==> first == second
  {
    SmallUpload(reader, a);
    SmallUpload(reader, b);
    mapping, first, second := SMALL_MAPPING, SmallRow(a), SmallRow(b);
  }

  /** In particular, two rows named "Saw". */
  lemma TwoSawsMakeOneProduct(reader: Reader, env: Env) returns (mapping: Mapping, saw: Row, preview: seq<PreviewRow>)
    requires reader.strip("") == "" && forall p :: env.accepts(p)
    ensures Uploads(reader, mapping, saw, Str("Saw"))
    ensures RightPreview(preview, reader, [saw, saw], mapping, NO_TABLE.products.Keys)
    ensures CountActions(preview, Create) == 2
    ensures Count(ApplyRows(NO_TABLE, env, Applicable(preview)).1, Created) == 1
  {
    var other;
    mapping, saw, other := TwoSmallUploads(reader, Str("Saw"), Str("Saw"));
    preview := PreviewOvercounts(reader, mapping, saw, env);
  }

  // ---------------------------------------------------------------- uploads that ask for the wrong quota

  lemma TwoDifferentRowsCreateTwo(first: Item, second: Item, env: Env)
    requires first.category.None? && second.category.None? && first.name != second.name
    requires forall p :: env.accepts(p)
    ensures ApplyRows(NO_TABLE, env, [first, second]).1 == [Created, Created]
  {
    var once := ApplyRow(NO_TABLE, env, first);
    ApplySnoc(NO_TABLE, env, [], first);
    assert [] + [first] == [first] && [] + [Created] == [Created];
    assert once.1 == Created && once.0.products.Keys == {first.name};
    ApplySnoc(NO_TABLE, env, [first], second);
    assert [first] + [second] == [first, second];
    assert ApplyRow(once.0, env, second).1 == Created;
  }

  lemma TrueAndOneMerge(p: PreviewRow, q: PreviewRow)
    requires p.action == Create && q.action == Create && p.data.name == Bool(true) && q.data.name == Num(1)
    ensures QuotaAsked([p, q], {}) == 1
  {
    var rows := [p, q];
    assert rows[0] == p && rows[1] == q;
    assert ImportNames(rows) - Stored({}) == {Num(1)};
  }

  predicate IsCreation(reader: Reader, p: PreviewRow, name: Cell) {
    && p.action == Create && p.data.name == name
    && p.data.item.name == NameText(reader, name) && p.data.item.category.None?
  }

  lemma UploadLabel(reader: Reader, mapping: Mapping, row: Row, name: Cell, k: nat)
    requires Uploads(reader, mapping, row, name) && Truthy(name)
    ensures IsCreation(reader, LabelOf(Normalize(reader, row, mapping), {}, k), name)
  {
    CreateLabel(reader, mapping, row, k);
  }

  /** The preview of two uploads on an empty table. */
  lemma TwoCreations(reader: Reader, mapping: Mapping, first: Row, a: Cell, second: Row, b: Cell)
    returns (p: PreviewRow, q: PreviewRow)
    requires Uploads(reader, mapping, first, a) && Uploads(reader, mapping, second, b) && Truthy(a) && Truthy(b)
    ensures RightPreview([p, q], reader, [first, second], mapping, {})
    ensures IsCreation(reader, p, a) && IsCreation(reader, q, b)
  {
    p, q := LabelOf(Normalize(reader, first, mapping), {}, 0), LabelOf(Normalize(reader, second, mapping), {}, 1);
    UploadLabel(reader, mapping, first, a, 0);
    UploadLabel(reader, mapping, second, b, 1);
    TwoRightLabels(p, q, reader, mapping, first, second, {});
  }

  lemma TrueAndOneCount(p: PreviewRow, q: PreviewRow, env: Env)
    requires p.action == Create && q.action == Create && p.data.item.name != q.data.item.name
    requires p.data.item.category.None? && q.data.item.category.None? && forall x :: env.accepts(x)
    ensures Count(ApplyRows(NO_TABLE, env, Applicable([p, q])).1, Created) == 2
  {
    TwoCreateLabels(p, q);
    TwoDifferentRowsCreateTwo(p.data.item, q.data.item, env);
    CountTwo(Created, Created);
  }

  /** Rows named True and 1, on an empty table: quota is asked for one product, and two are created. */
  lemma TrueAndOneAskForOne(reader: Reader, mapping: Mapping, first: Row, second: Row, env: Env)
    returns (preview: seq<PreviewRow>)
    requires Uploads(reader, mapping, first, Bool(true)) && Uploads(reader, mapping, second, Num(1))
    requires reader.show(Bool(true)) != reader.show(Num(1)) && forall p :: env.accepts(p)
    ensures RightPreview(preview, reader, [first, second], mapping, {})
    ensures QuotaAsked(preview, {}) == 1
    ensures Count(ApplyRows(NO_TABLE, env, Applicable(preview)).1, Created) == 2
  {
    var p, q := TwoCreations(reader, mapping, first, Bool(true), second, Num(1));
    preview := [p, q];
    TrueAndOneMerge(p, q);
    TrueAndOneCount(p, q, env);
  }

  /** Such an upload exists for Python's str(). */
  lemma SomeUploadAsksTooLittle(reader: Reader, env: Env)
    returns (mapping: Mapping, first: Row, second: Row, preview: seq<PreviewRow>)
    requires reader.strip("") == "" && forall p :: env.accepts(p)
    requires reader.show(Bool(true)) == "True" && reader.show(Num(1)) == "1"
    ensures Uploads(reader, mapping, first, Bool(true)) && Uploads(reader, mapping, second, Num(1))
    ensures RightPreview(preview, reader, [first, second], mapping, {})
    ensures QuotaAsked(preview, {}) == 1
    ensures Count(ApplyRows(NO_TABLE, env, Applicable(preview)).1, Created) == 2
  {
    mapping, first, second := TwoSmallUploads(reader, Bool(true), Num(1));
    assert |"True"| != |"1"|;
    preview := TrueAndOneAskForOne(reader, mapping, first, second, env);
  }

  lemma LoneNumberAsks(p: PreviewRow, t: Table)
    requires p.action == Create && p.data.name == Num(1) && p.data.item.name in t.products
    ensures QuotaAsked([p], t.products.Keys) == 1 && NewNames(t, Applicable([p])) == 0
  {
    var rows := [p];
    assert rows[0] == p;
    assert ImportNames(rows) - Stored(t.products.Keys) == {Num(1)};
    ApplicableNames(rows);
    assert Names(Applicable(rows)) - t.products.Keys == {};
  }

  /** One row named by the number 1 where a product "1" exists: quota is asked for one product that is not new. */
  lemma NumberAsksForNothingNew(reader: Reader, mapping: Mapping, row: Row, t: Table)
    returns (preview: seq<PreviewRow>)
    requires Uploads(reader, mapping, row, Num(1)) && reader.show(Num(1)) in t.products
    ensures RightPreview(preview, reader, [row], mapping, t.products.Keys)
    ensures QuotaAsked(preview, t.products.Keys) == 1 && NewNames(t, Applicable(preview)) == 0
  {
    var existing := t.products.Keys;
    var p := LabelOf(Normalize(reader, row, mapping), existing, 0);
    preview := [p];
    ActionIsRight(reader, row, mapping, existing, 0);
    assert p == LabelOf(NormalizeWith(reader, mapping)([row][0]), existing, 0);
    LabelsAreRight([p], reader, [row], mapping, existing);
    LoneNumberAsks(p, t);
  }
}
