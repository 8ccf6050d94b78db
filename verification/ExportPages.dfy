// The keyset loops of the data export: pages of a table in key order, each row written once into its array.

module ExportPages {
  import opened Options
  import opened ExportTree
  import opened ExportWriter
  import Json
  import Sql

  /** The page after the first k rows of a listing is the next run of that listing. */
  lemma PageOfListing<T(!new)>(rows: set<T>, before: (T, T) -> bool, full: seq<T>, k: nat, cursor: Option<T>,
      pageSize: nat, page: seq<T>)
    requires Sql.StrictOrder(rows, before) && Sql.Listing(rows, before, full)
    requires k <= |full| && cursor == (if k == 0 then None else Some(full[k - 1]))
    requires Sql.Limited(Sql.Beyond(rows, before, cursor), before, pageSize, Sql.Elements(page))
    requires Sql.Listing(Sql.Elements(page), before, page)
    ensures page == Sql.Take(full[k..], pageSize)
  {
    var left := Sql.Beyond(rows, before, cursor);
    RestOfListing(rows, before, full, k, cursor);
    Sql.SubOrder(rows, left, before);
    Sql.PrefixIsLimited(left, before, full[k..], pageSize);
    Sql.LimitedUnique(left, before, pageSize, Sql.Elements(page), Sql.Elements(Sql.Take(full[k..], pageSize)));
    Sql.SubOrder(left, Sql.Elements(page), before);
    Sql.ListingUnique(Sql.Elements(page), before, page, Sql.Take(full[k..], pageSize));
  }

  lemma RestOfListing<T(!new)>(rows: set<T>, before: (T, T) -> bool, full: seq<T>, k: nat, cursor: Option<T>)
    requires Sql.StrictOrder(rows, before) && Sql.Listing(rows, before, full)
    requires k <= |full| && cursor == (if k == 0 then None else Some(full[k - 1]))
    ensures Sql.Listing(Sql.Beyond(rows, before, cursor), before, full[k..])
  {
    var left := Sql.Beyond(rows, before, cursor);
    if k > 0 {
      forall j | 0 <= j < k ensures !before(full[k - 1], full[j]) {
        assert full[j] in rows && full[k - 1] in rows;
        Sql.OneWay(rows, before, full[j], full[k - 1]);
      }
      forall r ensures r in left <==> r in full[k..] {
        if r in left {
          var i :| 0 <= i < |full| && full[i] == r;
          assert full[k..][i - k] == r;
        }
        if r in full[k..] {
          var i :| 0 <= i < |full[k..]| && full[k..][i] == r;
          assert full[k + i] == r && before(full[k - 1], full[k + i]);
        }
      }
    }
  }

  /** The next page of the loop, as the run of the listing that it is. */
  method NextPage<T(==,!new)>(rows: set<T>, before: (T, T) -> bool, cursor: Option<T>, pageSize: nat,
      ghost full: seq<T>, ghost k: nat)
      returns (page: seq<T>)
    requires Sql.StrictOrder(rows, before) && Sql.Listing(rows, before, full)
    requires k <= |full| && cursor == (if k == 0 then None else Some(full[k - 1]))
    ensures |page| == (if pageSize < |full| - k then pageSize else |full| - k)
    ensures full[..k] + page == full[..k + |page|]
    ensures forall row | row in page :: row in rows
    ensures page != [] ==> page[|page| - 1] == full[k + |page| - 1]
  {
    page := Sql.KeysetPage(rows, before, cursor, pageSize);
    PageOfListing(rows, before, full, k, cursor, pageSize, page);
    assert forall i | 0 <= i < |page| :: page[i] == full[k + i] && full[k + i] in rows;
  }

  /** The rows of a listing as the values that the export shows. */
  ghost function Values<T>(rows: seq<T>, publicRow: T -> Json.Value): seq<Json.Value> {
    seq(|rows|, i requires 0 <= i < |rows| => publicRow(rows[i]))
  }

  /** The state in the middle of an array: the first rows of the listing are in it. */
  ghost predicate Filling<T(!new)>(doc: Doc, outer: seq<Frame>, root: Option<Json.Value>, name: string, rows: seq<T>,
      publicRow: T -> Json.Value)
  {
    doc == Doc(outer + [ArrayFrame(Some(name), Values(rows, publicRow))], root)
  }

  /** Every row of one page as an item. */
  method WriteRows<T(!new)>(writer: JsonExportWriter, page: seq<T>, publicRow: T -> Json.Value,
      ghost outer: seq<Frame>, ghost root: Option<Json.Value>, ghost name: string, ghost done: seq<T>)
      returns (r: Outcome)
    requires writer.Intact() && Filling(writer.doc, outer, root, name, done, publicRow)
    requires forall row | row in page :: Json.Valid(publicRow(row))
    modifies writer, writer.file
    ensures |writer.file.bytes| <= writer.maxBytes
    ensures r.None? ==> writer.Intact() && Filling(writer.doc, outer, root, name, done + page, publicRow)
    ensures r.Some? ==> r.value in {NoProgress, TooLarge}
  {
    hide JsonExportWriter.Intact, JsonExportWriter.Holds, WellFormed, TextOf, Sql.StrictOrder, Sql.Listing, Json.Valid;
    assert done + page[..0] == done && writer.Bytes() <= writer.maxBytes;
    for i := 0 to |page|
      invariant |writer.file.bytes| <= writer.maxBytes
      invariant writer.Intact() && Filling(writer.doc, outer, root, name, done + page[..i], publicRow)
    {
      ghost var before := writer.doc;
      OneMoreRow(before, outer, root, name, done + page[..i], page[i], publicRow);
      r := writer.Item(Some(publicRow(page[i])));
      if r.Some? {
        return;
      }
      assert done + page[..i] + [page[i]] == done + page[..i + 1];
    }
    assert page[..|page|] == page;
    r := None;
  }

  lemma OneMoreRow<T(!new)>(doc: Doc, outer: seq<Frame>, root: Option<Json.Value>, name: string, done: seq<T>, row: T,
      publicRow: T -> Json.Value)
    requires Filling(doc, outer, root, name, done, publicRow)
    ensures After(doc, Item(Some(publicRow(row)))).Ok?
    ensures Filling(After(doc, Item(Some(publicRow(row)))).value, outer, root, name, done + [row], publicRow)
  {
    assert Values(done + [row], publicRow) == Values(done, publicRow) + [publicRow(row)];
  }

  /** Closing the array puts it, whole, where it was opened. */
  lemma Closing<T(!new)>(doc: Doc, start: Doc, name: string, rows: seq<T>, publicRow: T -> Json.Value)
    requires Refusal(start, Some(name)).None? && Filling(doc, start.frames, start.root, name, rows, publicRow)
    ensures After(doc, EndArray) == Ok(Put(start, Some(name), Json.Array(Values(rows, publicRow))))
  {
    assert Outer(doc.frames) == start.frames;
  }

  lemma ClosingObject(doc: Doc, start: Doc, inner: Doc, name: string, member: string, v: Json.Value)
    requires Refusal(start, Some(name)).None? && inner == Doc(start.frames + [ObjectFrame(Some(name), [])], start.root)
    requires doc == Put(inner, Some(member), v)
    ensures After(doc, EndObject) == Ok(Put(start, Some(name), Json.Object([(member, v)])))
  {
    assert Outer(doc.frames) == start.frames;
    assert [] + [(member, v)] == [(member, v)];
    assert Last(doc.frames) == ObjectFrame(Some(name), [(member, v)]);
  }

  /**
   * The loop of writePages: whatever the page size, the array it leaves holds every row of the table exactly once,
   * in key order.
   */
  method WritePages<T(==,!new)>(writer: JsonExportWriter, name: string, pageSize: nat, rows: set<T>,
      before: (T, T) -> bool, publicRow: T -> Json.Value, ghost full: seq<T>)
      returns (r: Outcome)
    requires writer.Intact() && pageSize > 0
    requires Sql.StrictOrder(rows, before) && Sql.Listing(rows, before, full)
    requires forall row | row in rows :: Json.Valid(publicRow(row))
    modifies writer, writer.file
    ensures |writer.file.bytes| <= writer.maxBytes
    ensures r.None? ==> writer.Intact() && Refusal(old(writer.doc), Some(name)).None?
    ensures r.None? ==> writer.doc == Put(old(writer.doc), Some(name), Json.Array(Values(full, publicRow)))
    ensures r.Some? ==> r.value in {NoProgress, TooLarge} || r == Refusal(old(writer.doc), Some(name))
  {
    hide JsonExportWriter.Intact, JsonExportWriter.Holds, WellFormed, TextOf, Sql.StrictOrder, Sql.Listing, Json.Valid;
    ghost var start := writer.doc;
    r := writer.StartArray(name);
    if r.Some? {
      return;
    }
    assert Values(full[..0], publicRow) == [];
    var count;
    r, count := WriteAllRows(writer, name, pageSize, rows, before, publicRow, start, full);
    if r.Some? {
      return;
    }
    Closing(writer.doc, start, name, full, publicRow);
    r := writer.EndArray();
  }

  method WriteAllRows<T(==,!new)>(writer: JsonExportWriter, ghost name: string, pageSize: nat, rows: set<T>,
      before: (T, T) -> bool, publicRow: T -> Json.Value, ghost start: Doc, ghost full: seq<T>)
      returns (r: Outcome, count: nat)
    requires writer.Intact() && pageSize > 0
    requires Filling(writer.doc, start.frames, start.root, name, full[..0], publicRow)
    requires Sql.StrictOrder(rows, before) && Sql.Listing(rows, before, full)
    requires forall row | row in rows :: Json.Valid(publicRow(row))
    modifies writer, writer.file
    ensures |writer.file.bytes| <= writer.maxBytes
    ensures r.None? ==> writer.Intact() && Filling(writer.doc, start.frames, start.root, name, full, publicRow)
    ensures r.None? ==> count == |full|
    ensures r.Some? ==> r.value in {NoProgress, TooLarge}
  {
    hide JsonExportWriter.Intact, JsonExportWriter.Holds, WellFormed, TextOf, Sql.StrictOrder, Sql.Listing, Json.Valid;
    var cursor: Option<T> := None;
    count := 0;
    while true
      invariant count <= |full| && cursor == (if count == 0 then None else Some(full[count - 1]))
      invariant writer.Intact() && Filling(writer.doc, start.frames, start.root, name, full[..count], publicRow)
      decreases |full| - count
    {
      var page := NextPage(rows, before, cursor, pageSize, full, count);
      r := WriteRows(writer, page, publicRow, start.frames, start.root, name, full[..count]);
      if r.Some? {
        return;
      }
      count := count + |page|;
      if |page| < pageSize {
        break;
      }
      cursor := Some(page[|page| - 1]);
    }
    assert full[..count] == full;
    r := None;
  }

  /** The discovery actions: the same loop inside an object of its own, with the number of rows it wrote. */
  method WriteDiscoveryActions<T(==,!new)>(writer: JsonExportWriter, pageSize: nat, rows: set<T>,
      before: (T, T) -> bool, publicRow: T -> Json.Value, ghost full: seq<T>)
      returns (r: Outcome, count: nat)
    requires writer.Intact() && pageSize > 0
    requires Sql.StrictOrder(rows, before) && Sql.Listing(rows, before, full)
    requires forall row | row in rows :: Json.Valid(publicRow(row))
    modifies writer, writer.file
    ensures |writer.file.bytes| <= writer.maxBytes
    ensures r.None? ==> writer.Intact() && Refusal(old(writer.doc), Some("discovery_actions")).None?
    ensures r.None? ==> writer.doc == Put(old(writer.doc), Some("discovery_actions"),
        Json.Object([("outgoing", Json.Array(Values(full, publicRow)))]))
    ensures r.None? ==> count == |rows|
    ensures r.Some? ==> r.value in {NoProgress, TooLarge} || r == Refusal(old(writer.doc), Some("discovery_actions"))
  {
    hide JsonExportWriter.Intact, JsonExportWriter.Holds, WellFormed, TextOf, Sql.StrictOrder, Sql.Listing, Json.Valid;
    count := 0;
    ghost var start := writer.doc;
    r := writer.StartObject(Some("discovery_actions"));
    if r.Some? {
      return;
    }
    ghost var inner := writer.doc;
    r := writer.StartArray("outgoing");
    if r.Some? {
      return;
    }
    assert Values(full[..0], publicRow) == [];
    r, count := WriteAllRows(writer, "outgoing", pageSize, rows, before, publicRow, inner, full);
    if r.Some? {
      return;
    }
    Sql.ListingSize(rows, before, full);
    Closing(writer.doc, inner, "outgoing", full, publicRow);
    r := writer.EndArray();
    if r.Some? {
      return;
    }
    ClosingObject(writer.doc, start, inner, "discovery_actions", "outgoing", Json.Array(Values(full, publicRow)));
    r := writer.EndObject();
  }
}
