/** Which hosts the warranty report lists, and what their rows show. */
module Warranty {
  import opened Options
  import Paging

  /** Days, counted from some day. */
  type Date = int

  const SOON_DAYS := 30

  datatype Status = Unknown | Expired | ExpiringSoon | Active

  datatype Cover = Cover(vendor: string, purchasedOn: Option<Date>, expiresOn: Option<Date>)

  /** An asset or a machine; `documents` counts the documents of its warranty, so none without one. */
  datatype Host = Host(id: nat, name: string, serial: string, warranty: Option<Cover>, documents: nat)

  datatype Kind = Asset | Machine

  datatype Row = Row(
    kind: Kind, id: nat, name: string, serial: Option<string>,
    vendor: Option<string>, purchasedOn: Option<Date>, expiresOn: Option<Date>, status: Status, documents: nat)

  datatype Filters = Filters(missingDocs: bool, expiresBefore: Option<Date>, status: Option<Status>)

  /** `warranty_status`. */
  function StatusOf(cover: Cover, today: Date): Status {
    if cover.expiresOn.None? then Unknown
    else if cover.expiresOn.value < today then Expired
    else if cover.expiresOn.value <= today + SOON_DAYS then ExpiringSoon
    else Active
  }

  function BuildRow(kind: Kind, today: Date): Host -> Row {
    (h: Host) =>
      var serial := if kind == Asset && h.serial != "" then Some(h.serial) else None;
      match h.warranty
      case None => Row(kind, h.id, h.name, serial, None, None, None, Unknown, 0)
      case Some(w) =>
        Row(kind, h.id, h.name, serial, Some(w.vendor), w.purchasedOn, w.expiresOn, StatusOf(w, today), h.documents)
  }

  /** The expiry column of the host's warranty; a comparison with a missing value selects nothing. */
  function Expiry(h: Host): Option<Date> {
    if h.warranty.None? then None else h.warranty.value.expiresOn
  }

  /** `_filter_by_status`. */
  predicate HasStatus(h: Host, status: Status, today: Date) {
    match status
    case Unknown => h.warranty.None? || h.warranty.value.expiresOn.None?
    case Expired => Expiry(h).Some? && Expiry(h).value < today
    case ExpiringSoon => Expiry(h).Some? && today <= Expiry(h).value <= today + SOON_DAYS
    case Active => Expiry(h).Some? && Expiry(h).value > today + SOON_DAYS
  }

  /** `_apply_host_filters`. */
  predicate Selects(f: Filters, h: Host, today: Date) {
    && (f.missingDocs ==> h.warranty.None? || h.documents == 0)
    && (f.expiresBefore.Some? ==> Expiry(h).Some? && Expiry(h).value <= f.expiresBefore.value)
    && (f.status.Some? ==> HasStatus(h, f.status.value, today))
  }

  /** The same filters, read off the finished row. */
  predicate Shows(f: Filters, row: Row) {
    && (f.missingDocs ==> row.documents == 0)
    && (f.expiresBefore.Some? ==> row.expiresOn.Some? && row.expiresOn.value <= f.expiresBefore.value)
    && (f.status.Some? ==> row.status == f.status.value)
  }

  function Select(f: Filters, today: Date, hosts: seq<Host>): seq<Host> {
    if hosts == [] then []
    else (if Selects(f, hosts[0], today) then [hosts[0]] else []) + Select(f, today, hosts[1..])
  }

  function Showing(f: Filters, rows: seq<Row>): seq<Row> {
    if rows == [] then [] else (if Shows(f, rows[0]) then [rows[0]] else []) + Showing(f, rows[1..])
  }

  lemma SelectsIffShows(f: Filters, h: Host, kind: Kind, today: Date)
    ensures Selects(f, h, today) <==> Shows(f, BuildRow(kind, today)(h))
  {
  }

  lemma {:induction false} SelectThenBuild(f: Filters, hosts: seq<Host>, kind: Kind, today: Date)
    ensures Paging.Map(BuildRow(kind, today), Select(f, today, hosts))
         == Showing(f, Paging.Map(BuildRow(kind, today), hosts))
  {
    if hosts != [] {
      var build := BuildRow(kind, today);
      SelectsIffShows(f, hosts[0], kind, today);
      SelectThenBuild(f, hosts[1..], kind, today);
      assert Paging.Map(build, hosts)[1..] == Paging.Map(build, hosts[1..]);
    }
  }

  lemma {:induction false} ShowingOfParts(f: Filters, a: seq<Row>, b: seq<Row>)
    ensures Showing(f, a + b) == Showing(f, a) + Showing(f, b)
  {
    if a == [] {
      assert a + b == b;
    } else {
      assert (a + b)[1..] == a[1..] + b;
      ShowingOfParts(f, a[1..], b);
    }
  }

  function Builders(today: Date): seq<Host -> Row> {
    [BuildRow(Asset, today), BuildRow(Machine, today)]
  }

  lemma TwoLists(assets: seq<Host>, machines: seq<Host>, today: Date)
    ensures Paging.AllRows([assets, machines], Builders(today))
         == Paging.Map(BuildRow(Asset, today), assets) + Paging.Map(BuildRow(Machine, today), machines)
  {
    var build := BuildRow(Machine, today);
    assert [assets, machines][1..] == [machines] && Builders(today)[1..] == [build];
    assert Paging.AllRows([machines], [build]) == Paging.Map(build, machines) + [];
  }

  /** Filtering the hosts in the database keeps exactly the rows whose own columns satisfy the filters. */
  lemma FilteredReportIsRowsThatShow(f: Filters, assets: seq<Host>, machines: seq<Host>, today: Date)
    ensures Paging.AllRows([Select(f, today, assets), Select(f, today, machines)], Builders(today))
         == Showing(f, Paging.AllRows([assets, machines], Builders(today)))
  {
    TwoLists(assets, machines, today);
    TwoLists(Select(f, today, assets), Select(f, today, machines), today);
    SelectThenBuild(f, assets, Asset, today);
    SelectThenBuild(f, machines, Machine, today);
    ShowingOfParts(f, Paging.Map(BuildRow(Asset, today), assets), Paging.Map(BuildRow(Machine, today), machines));
  }

  /** The copies of the row that the report with this status filter lists. */
  function Copies(f: Filters, status: Option<Status>, rows: seq<Row>, row: Row): nat {
    multiset(Showing(f.(status := status), rows))[row]
  }

  lemma CopiesUnfold(f: Filters, status: Option<Status>, rows: seq<Row>, row: Row)
    requires rows != []
    ensures Copies(f, status, rows, row)
         == Copies(f, status, rows[1..], row) + if rows[0] == row && Shows(f.(status := status), row) then 1 else 0
  {
  }

  /** Expired before today, expiring soon for today and the thirty days after it, and active later. */
  lemma StatusByDays(cover: Cover, today: Date, kind: Kind, h: Host)
    requires h.warranty == Some(cover)
    ensures var status := BuildRow(kind, today)(h).status;
      match cover.expiresOn
      case None => status == Unknown
      case Some(last) =>
        && (status == Expired <==> last - today < 0)
        && (status == ExpiringSoon <==> 0 <= last - today <= 30)
        && (status == Active <==> last - today > 30)
  {
  }

  /** A row shows its host, and of a warranty what there is; only assets show a serial number. */
  lemma RowShowsHost(kind: Kind, today: Date, h: Host)
    ensures var row := BuildRow(kind, today)(h);
      && row.kind == kind && row.id == h.id && row.name == h.name
      && (row.serial.Some? <==> kind == Asset && h.serial != "") && (row.serial.Some? ==> row.serial.value == h.serial)
      && (h.warranty.None? ==>
            row.vendor.None? && row.purchasedOn.None? && row.expiresOn.None? && row.status == Unknown
            && row.documents == 0)
      && (h.warranty.Some? ==>
            row.vendor == Some(h.warranty.value.vendor) && row.purchasedOn == h.warranty.value.purchasedOn
            && row.expiresOn == h.warranty.value.expiresOn && row.documents == h.documents)
  {
  }

  /** The four status filters split the report: every row of it is listed under the status it shows and no other. */
  lemma {:induction false} StatusesSplitTheReport(f: Filters, status: Status, rows: seq<Row>, row: Row)
    ensures Copies(f, Some(status), rows, row) == if row.status == status then Copies(f, None, rows, row) else 0
  {
    if rows != [] {
      CopiesUnfold(f, None, rows, row);
      CopiesUnfold(f, Some(status), rows, row);
      StatusesSplitTheReport(f, status, rows[1..], row);
    }
  }
}
