/** What the preview of an import says about each row, and what that means for applying it. */
module ImportPreview {
  import opened ImportModel
  import opened ImportMerge
  import opened ImportRows

  datatype RowAction = Create | Update | Error

  datatype PreviewRow = PreviewRow(row: nat, action: RowAction, data: Normalized)

  /** `_row_action`; only a text can be among the names that the database returned. */
  function ActionFor(data: Normalized, existing: set<Name>): RowAction {
    if data.errors != map[] then Error
    else if !Truthy(data.name) then Error
    else if data.name.Str? && data.name.s in existing then Update
    else Create
  }

  /** The rows that apply goes through, in order. */
  function Applicable(rows: seq<PreviewRow>): seq<Item> {
    if rows == [] then []
    else
      var rest := Applicable(rows[..|rows| - 1]);
      var last := rows[|rows| - 1];
      if last.action == Error then rest else rest + [last.data.item]
  }

  /** Their numbers in the sheet. */
  function Numbers(rows: seq<PreviewRow>): (numbers: seq<nat>)
    ensures |numbers| == |Applicable(rows)|
  {
    if rows == [] then []
    else
      var rest := Numbers(rows[..|rows| - 1]);
      if rows[|rows| - 1].action == Error then rest else rest + [rows[|rows| - 1].row]
  }

  function CountActions(rows: seq<PreviewRow>, wanted: RowAction): nat {
    if rows == [] then 0
    else CountActions(rows[..|rows| - 1], wanted) + if rows[|rows| - 1].action == wanted then 1 else 0
  }

  /** The label of the k-th data row, which is row k + 2 of the sheet. */
  ghost predicate RightLabel(
    p: PreviewRow, reader: Reader, row: Row, mapping: Mapping, existing: set<Name>, k: nat)
    requires Mapped(mapping, "available_quantity")
  {
    && p.row == k + 2
    && p.data == Normalize(reader, row, mapping)
    && (p.action == Error <==> !Acceptable(reader, row, mapping) || !Truthy(CellFor(row, mapping, "name")))
    && (p.action == Update <==>
          && Acceptable(reader, row, mapping)
          && CellFor(row, mapping, "name").Str? && CellFor(row, mapping, "name").s in existing)
  }

  /** Every row of the sheet has its right label. */
  ghost predicate RightPreview(
    preview: seq<PreviewRow>, reader: Reader, rows: seq<Row>, mapping: Mapping, existing: set<Name>)
    requires Mapped(mapping, "available_quantity")
  {
    && |preview| == |rows|
    && forall k :: 0 <= k < |rows| ==> RightLabel(preview[k], reader, rows[k], mapping, existing, k)
  }

  /** `valid`; a row whose name is the number 0 is labelled an error and yet has no error listed. */
  predicate NoRowErrors(preview: seq<PreviewRow>) {
    forall k :: 0 <= k < |preview| ==> preview[k].data.errors == map[]
  }

  /** How the preview presents the k-th data row. */
  function LabelOf(data: Normalized, existing: set<Name>, k: nat): PreviewRow {
    PreviewRow(k + 2, ActionFor(data, existing), data)
  }

  lemma ActionIsRight(reader: Reader, row: Row, mapping: Mapping, existing: set<Name>, k: nat)
    requires Mapped(mapping, "available_quantity")
    ensures RightLabel(LabelOf(Normalize(reader, row, mapping), existing, k), reader, row, mapping, existing, k)
  {
    NoErrorsIffAcceptable(reader, row, mapping);
    assert Acceptable(reader, row, mapping) ==> !Empty(CellFor(row, mapping, "name"));
  }

  function NormalizeWith(reader: Reader, mapping: Mapping): Row -> Normalized
    requires Mapped(mapping, "available_quantity")
  {
    (row: Row) => Normalize(reader, row, mapping)
  }

  lemma LabelsAreRight(
    preview: seq<PreviewRow>, reader: Reader, rows: seq<Row>, mapping: Mapping, existing: set<Name>)
    requires Mapped(mapping, "available_quantity") && |preview| == |rows|
    requires forall k :: 0 <= k < |rows| ==>
      preview[k] == LabelOf(NormalizeWith(reader, mapping)(rows[k]), existing, k)
    ensures RightPreview(preview, reader, rows, mapping, existing)
  {
    forall k | 0 <= k < |rows| ensures RightLabel(preview[k], reader, rows[k], mapping, existing, k) {
      ActionIsRight(reader, rows[k], mapping, existing, k);
    }
  }

  lemma CountOneMore(rows: seq<PreviewRow>, last: PreviewRow, wanted: RowAction)
    ensures CountActions(rows + [last], wanted) == CountActions(rows, wanted) + if last.action == wanted then 1 else 0
  {
    assert (rows + [last])[..|rows + [last]| - 1] == rows;
  }

  lemma CountEachOneMore(rows: seq<PreviewRow>, last: PreviewRow)
    ensures forall wanted ::
      CountActions(rows + [last], wanted) == CountActions(rows, wanted) + if last.action == wanted then 1 else 0
  {
    forall wanted
      ensures CountActions(rows + [last], wanted) == CountActions(rows, wanted) + if last.action == wanted then 1 else 0
    {
      CountOneMore(rows, last, wanted);
    }
  }

  // ---------------------------------------------------------------- the rows that are applied

  lemma ApplicableOneMore(rows: seq<PreviewRow>, i: nat)
    requires i < |rows|
    ensures Applicable(rows[..i + 1]) ==
      if rows[i].action == Error then Applicable(rows[..i]) else Applicable(rows[..i]) + [rows[i].data.item]
  {
    assert rows[..i + 1][..|rows[..i + 1]| - 1] == rows[..i];
  }

  lemma NumbersOneMore(rows: seq<PreviewRow>, i: nat)
    requires i < |rows|
    ensures Numbers(rows[..i + 1]) ==
      if rows[i].action == Error then Numbers(rows[..i]) else Numbers(rows[..i]) + [rows[i].row]
  {
    assert rows[..i + 1][..|rows[..i + 1]| - 1] == rows[..i];
  }

  /** The numbers of the rows that were rejected, in order. */
  function RejectedAmong(numbers: seq<nat>, results: seq<Result>): seq<nat>
    requires |numbers| == |results|
  {
    if numbers == [] then []
    else
      var n := |numbers| - 1;
      RejectedAmong(numbers[..n], results[..n]) + if results[n] == Rejected then [numbers[n]] else []
  }

  lemma RejectedSnoc(numbers: seq<nat>, results: seq<Result>, number: nat, result: Result)
    requires |numbers| == |results|
    ensures RejectedAmong(numbers + [number], results + [result])
         == RejectedAmong(numbers, results) + if result == Rejected then [number] else []
  {
    assert (numbers + [number])[..|numbers|] == numbers && (results + [result])[..|results|] == results;
  }

  /** A row is among them exactly if its result is a rejection. */
  lemma {:induction false} RejectedIff(numbers: seq<nat>, results: seq<Result>, number: nat)
    requires |numbers| == |results|
    ensures number in RejectedAmong(numbers, results)
      <==> exists k :: 0 <= k < |numbers| && numbers[k] == number && results[k] == Rejected
    ensures |RejectedAmong(numbers, results)| == Count(results, Rejected)
  {
    if numbers != [] {
      var n := |numbers| - 1;
      RejectedIff(numbers[..n], results[..n], number);
      assert forall k :: 0 <= k < n ==> numbers[..n][k] == numbers[k] && results[..n][k] == results[k];
    }
  }

  lemma ApplicableSnoc(rows: seq<PreviewRow>, last: PreviewRow)
    ensures Applicable(rows + [last]) ==
      if last.action == Error then Applicable(rows) else Applicable(rows) + [last.data.item]
  {
    assert (rows + [last])[..|rows + [last]| - 1] == rows;
  }

  lemma CountResult(results: seq<Result>, last: Result)
    ensures forall wanted ::
      Count(results + [last], wanted) == Count(results, wanted) + if last == wanted then 1 else 0
  {
    assert (results + [last])[..|results + [last]| - 1] == results;
  }

  lemma {:induction false} ApplicableNames(rows: seq<PreviewRow>)
    ensures Names(Applicable(rows))
      == set k | 0 <= k < |rows| && rows[k].action != Error :: rows[k].data.item.name
  {
    if rows == [] {
    } else {
      var n := |rows| - 1;
      ApplicableNames(rows[..n]);
      NamesSnoc(Applicable(rows[..n]), rows[n].data.item);
      var mine := set k | 0 <= k < |rows| && rows[k].action != Error :: rows[k].data.item.name;
      var before := set k | 0 <= k < |rows[..n]| && rows[..n][k].action != Error :: rows[..n][k].data.item.name;
      forall x ensures x in mine <==> x in before || (rows[n].action != Error && x == rows[n].data.item.name) {
        if x in before {
          var k :| 0 <= k < n && rows[..n][k].action != Error && rows[..n][k].data.item.name == x;
          assert rows[k] == rows[..n][k];
        }
        if x in mine {
          var k :| 0 <= k < |rows| && rows[k].action != Error && rows[k].data.item.name == x;
          assert k < n ==> rows[..n][k] == rows[k];
        }
      }
    }
  }

  /** The new names among the applicable rows each carry at least one "create" label. */
  lemma {:induction false} NewNamesAreLabelled(rows: seq<PreviewRow>, existing: set<Name>)
    requires UpdatesExist(rows, existing)
    ensures |Names(Applicable(rows)) - existing| <= CountActions(rows, Create)
  {
    if rows == [] {
      assert Names(Applicable(rows)) - existing == {};
    } else {
      var n := |rows| - 1;
      NewNamesAreLabelled(rows[..n], existing);
      var name := rows[n].data.item.name;
      NamesSnoc(Applicable(rows[..n]), rows[n].data.item);
      var before := Names(Applicable(rows[..n])) - existing;
      if rows[n].action == Create {
        SmallerSet(Names(Applicable(rows)) - existing, before + {name});
      } else {
        SmallerSet(Names(Applicable(rows)) - existing, before);
      }
    }
  }

  /** Rows labelled "update" name products that are there. */
  predicate UpdatesExist(rows: seq<PreviewRow>, existing: set<Name>) {
    forall k :: 0 <= k < |rows| && rows[k].action == Update ==> rows[k].data.item.name in existing
  }

  lemma RightPreviewUpdatesExist(
    preview: seq<PreviewRow>, reader: Reader, rows: seq<Row>, mapping: Mapping, existing: set<Name>)
    requires Mapped(mapping, "available_quantity") && RightPreview(preview, reader, rows, mapping, existing)
    ensures UpdatesExist(preview, existing)
  {
    forall k | 0 <= k < |preview| && preview[k].action == Update ensures preview[k].data.item.name in existing {
      assert RightLabel(preview[k], reader, rows[k], mapping, existing, k);
    }
  }

  /** Apply never creates more products than the preview of the upload announced. */
  lemma PreviewBoundsCreations(
    t: Table, env: Env, reader: Reader, rows: seq<Row>, mapping: Mapping, preview: seq<PreviewRow>)
    requires Mapped(mapping, "available_quantity")
    requires RightPreview(preview, reader, rows, mapping, t.products.Keys)
    ensures Count(ApplyRows(t, env, Applicable(preview)).1, Created) <= CountActions(preview, Create)
  {
    RightPreviewUpdatesExist(preview, reader, rows, mapping, t.products.Keys);
    CreatedWithinNewNames(t, env, Applicable(preview));
    NewNamesAreLabelled(preview, t.products.Keys);
  }

  /** The rows labelled "create" have names that differ from each other and that no product has. */
  predicate CreatesAreNew(rows: seq<PreviewRow>, existing: set<Name>) {
    && (forall k :: 0 <= k < |rows| && rows[k].action == Create ==> rows[k].data.item.name !in existing)
    && forall i, j :: 0 <= i < j < |rows| && rows[i].action == Create && rows[j].action == Create ==>
         rows[i].data.item.name != rows[j].data.item.name
  }

  /** The last row is labelled rightly if it is no "create" for a name that is taken, by a product or an earlier row. */
  lemma CreatesAreNewSnoc(rows: seq<PreviewRow>, last: PreviewRow, existing: set<Name>)
    requires UpdatesExist(rows, existing)
    ensures CreatesAreNew(rows + [last], existing) <==>
      && CreatesAreNew(rows, existing)
      && (last.action == Create ==> last.data.item.name !in existing + Names(Applicable(rows)))
  {
    var all, name := rows + [last], last.data.item.name;
    ApplicableNames(rows);
    assert all[|rows|] == last;
    if CreatesAreNew(all, existing) {
      forall i, j | 0 <= i < j < |rows| && rows[i].action == Create && rows[j].action == Create
        ensures rows[i].data.item.name != rows[j].data.item.name
      {
        assert all[i] == rows[i] && all[j] == rows[j];
      }
      forall k | 0 <= k < |rows| && rows[k].action == Create ensures rows[k].data.item.name !in existing {
        assert all[k] == rows[k];
      }
      forall k | 0 <= k < |rows| && rows[k].action != Error
        ensures last.action == Create ==> rows[k].data.item.name != name
      {
        assert all[k] == rows[k];
      }
    }
  }

  lemma {:induction false} NewNamesAreAllLabelsIff(rows: seq<PreviewRow>, existing: set<Name>)
    requires UpdatesExist(rows, existing)
    ensures |Names(Applicable(rows)) - existing| == CountActions(rows, Create) <==> CreatesAreNew(rows, existing)
  {
    if rows == [] {
      assert Names(Applicable(rows)) - existing == {};
    } else {
      var n := |rows| - 1;
      var init, last := rows[..n], rows[n];
      assert rows == init + [last];
      NewNamesAreAllLabelsIff(init, existing);
      NewNamesAreLabelled(init, existing);
      CreatesAreNewSnoc(init, last, existing);
      OneMoreNewName(init, last, existing);
      CountOneMore(init, last, Create);
    }
  }

  lemma OneMoreNewName(rows: seq<PreviewRow>, last: PreviewRow, existing: set<Name>)
    requires last.action == Update ==> last.data.item.name in existing
    ensures |Names(Applicable(rows + [last])) - existing| == |Names(Applicable(rows)) - existing|
      + if last.action == Create && last.data.item.name !in existing + Names(Applicable(rows)) then 1 else 0
  {
    var names, item := Names(Applicable(rows)), last.data.item;
    ApplicableSnoc(rows, last);
    if last.action != Error {
      NamesSnoc(Applicable(rows), item);
      assert Names(Applicable(rows + [last])) == names + {item.name};
      OneMoreOutside(names, item.name, existing);
    }
  }

  lemma OneMoreOutside<T>(names: set<T>, name: T, existing: set<T>)
    ensures |names + {name} - existing| == |names - existing| + if name !in existing + names then 1 else 0
  {
    if name in existing {
      assert names + {name} - existing == names - existing;
    } else if name in names {
      assert names + {name} == names;
    } else {
      assert names + {name} - existing == names - existing + {name};
    }
  }

  /**
   Without integrity errors the preview announces the very number of creations exactly when the rows it
   labels "create" have names that differ from each other and that no product has.
   */
  lemma CreatedAsAnnouncedIff(
    t: Table, env: Env, reader: Reader, rows: seq<Row>, mapping: Mapping, preview: seq<PreviewRow>)
    requires Mapped(mapping, "available_quantity")
    requires RightPreview(preview, reader, rows, mapping, t.products.Keys)
    requires NoIntegrityErrors(ApplyRows(t, env, Applicable(preview)).1)
    ensures Count(ApplyRows(t, env, Applicable(preview)).1, Created) == CountActions(preview, Create)
      <==> CreatesAreNew(preview, t.products.Keys)
  {
    RightPreviewUpdatesExist(preview, reader, rows, mapping, t.products.Keys);
    CreatedAreTheNewNames(t, env, Applicable(preview));
    NewNamesAreAllLabelsIff(preview, t.products.Keys);
  }

  // ---------------------------------------------------------------- stock

  lemma {:induction false} ApplicableRowsHoldStock(rows: seq<PreviewRow>)
    requires forall k :: 0 <= k < |rows| && rows[k].action != Error ==> StockHolds(rows[k].data.item.buckets)
    ensures forall k :: 0 <= k < |Applicable(rows)| ==> StockHolds(Applicable(rows)[k].buckets)
  {
    if rows != [] { ApplicableRowsHoldStock(rows[..|rows| - 1]); }
  }

  /** Importing any upload keeps the quantity constraints of every product in the table. */
  lemma ImportingKeepsStock(
    t: Table, env: Env, reader: Reader, mapping: Mapping, rows: seq<Row>, preview: seq<PreviewRow>)
    requires AllStockHolds(t) && Mapped(mapping, "available_quantity")
    requires RightPreview(preview, reader, rows, mapping, t.products.Keys)
    ensures AllStockHolds(ApplyRows(t, env, Applicable(preview)).0)
  {
    forall k | 0 <= k < |preview| && preview[k].action != Error ensures StockHolds(preview[k].data.item.buckets) {
      assert RightLabel(preview[k], reader, rows[k], mapping, t.products.Keys, k);
      NoErrorsIffAcceptable(reader, rows[k], mapping);
      AcceptableRowsHoldStock(reader, rows[k], mapping);
    }
    ApplicableRowsHoldStock(preview);
    ImportKeepsStock(t, env, Applicable(preview));
  }
}
