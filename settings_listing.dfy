/**
 * The listing side of SettingsStorage.getEntries/streamResult: which rows
 * the query selects, how a page is cut from them, and the text of the
 * chunked JSON document the rows are streamed into.
 *
 * The CQL query is a user-supplied row predicate; the order the database
 * returns rows in (ORDER BY or none) is an input.
 */
module SettingsListing {
  import opened Common
  import opened ValueMap
  import opened SettingsEntry
  import opened SettingsPermissions
  import opened Paging

  /** A scanned row: its id and its columns. */
  type Scanned = (Uuid, Row)

  /** `a` is `b` with some elements dropped and the rest kept in order. */
  predicate SubseqOf<T(==)>(a: seq<T>, b: seq<T>)
    decreases |b|
  {
    a == [] || (b != [] && ((a[0] == b[0] && SubseqOf(a[1..], b[1..])) || SubseqOf(a, b[1..])))
  }

  /** The rows some limit admits and the user's query accepts, in scan order. */
  function Selected(rows: seq<Scanned>, limits: set<Limit>, query: Row -> bool): (r: seq<Scanned>)
    ensures |r| <= |rows|
    ensures SubseqOf(r, rows)
    ensures forall x :: x in r <==> x in rows && query(x.1) && exists l :: l in limits && Matches(l, x.1)
  {
    if rows == [] then []
    else
      var rest := Selected(rows[1..], limits, query);
      if query(rows[0].1) && exists l :: l in limits && Matches(l, rows[0].1) then [rows[0]] + rest else rest
  }

  /**
   * Every listed row may be read by id too: the limits come from
   * getCqlLimitPermissions, and what they admit passes the point read
   * check for the same permissions and caller.
   */
  lemma SelectedReadable(rows: seq<Scanned>, query: Row -> bool, perms: Perms, cu: Option<Uuid>, x: Scanned)
    requires x in Selected(rows, LimitSet(perms, cu), query)
    ensures query(x.1) && CheckDesiredPermissions(PermRead, perms, FromRow(x.0, x.1), cu)
  {
    var l :| l in LimitSet(perms, cu) && Matches(l, x.1);
    LimitsSound(perms, cu, l, x.0, x.1);
  }

  /** A scanned row the query accepts is listed exactly when canonical read
      tokens grant it. */
  lemma SelectedIffCanonicalRead(rows: seq<Scanned>, query: Row -> bool, perms: Perms, cu: Option<Uuid>, x: Scanned)
    requires x in rows && query(x.1)
    ensures x in Selected(rows, LimitSet(perms, cu), query) <==> CanonicalRead(perms, cu, x.1)
  {
    VisibleIffCanonicalRead(perms, cu, x.1);
  }

  // ---------------------------------------------------------------------
  // The streamed document
  // ---------------------------------------------------------------------

  const ItemsHeader := "{ \"items\" : ["
  const FooterHead := "], \"resultInfo\": "

  /** The row texts separated by commas, as the `first` flag writes them. */
  function Join(items: seq<string>): string {
    if |items| == 0 then ""
    else if |items| == 1 then items[0]
    else items[0] + "," + Join(items[1..])
  }

  /** Writing one more row after at least one: a comma, then the row. */
  lemma {:induction false} JoinSnoc(items: seq<string>, x: string)
    requires items != []
    ensures Join(items + [x]) == Join(items) + "," + x
  {
    if |items| > 1 {
      JoinSnoc(items[1..], x);
      assert (items + [x])[1..] == items[1..] + [x];
    }
  }

  /**
   * Joining two non-empty runs of rows is joining each and putting one
   * comma between them: the separators sit only between rows, never at
   * either end.
   */
  lemma {:induction false} JoinConcat(a: seq<string>, b: seq<string>)
    requires a != [] && b != []
    ensures Join(a + b) == Join(a) + "," + Join(b)
  {
    if |a| == 1 {
      assert (a + b)[1..] == b;
    } else {
      JoinConcat(a[1..], b);
      assert (a + b)[1..] == a[1..] + b;
    }
  }

  /** A joined list starts with its first row and ends with its last one. */
  lemma {:induction false} JoinEnds(items: seq<string>)
    requires items != []
    ensures |items[0]| <= |Join(items)| && Join(items)[..|items[0]|] == items[0]
    ensures |items[|items| - 1]| <= |Join(items)|
    ensures Join(items)[|Join(items)| - |items[|items| - 1]|..] == items[|items| - 1]
  {
    if |items| > 1 {
      JoinEnds(items[1..]);
      var j := Join(items[1..]);
      var last := items[|items| - 1];
      assert items[1..][|items[1..]| - 1] == last;
      assert Join(items) == items[0] + "," + j;
      assert Join(items)[|Join(items)| - |last|..] == j[|j| - |last|..];
    }
  }

  /** resultInfo: totalRecords (null when unknown) and the diagnostics array. */
  function ResultInfo(total: Option<int>, diagnostic: Option<string>): Json {
    JObject([
      ("totalRecords", if total.Some? then JNumber(total.value) else JNull),
      ("diagnostics", JArray(if diagnostic.Some? then [JObject([("message", JString(diagnostic.value))])] else []))
    ])
  }

  /**
   * The footer always carries both members; the diagnostics array holds
   * exactly one message iff a diagnostic was given, and the total is null
   * exactly when none was.
   */
  lemma ResultInfoShape(total: Option<int>, diagnostic: Option<string>)
    ensures var m := ResultInfo(total, diagnostic).members;
      && DistinctKeys(m)
      && Lookup(m, "totalRecords") == Some(if total.Some? then JNumber(total.value) else JNull)
      && Lookup(m, "diagnostics").Some? && Lookup(m, "diagnostics").value.JArray?
      && (|Lookup(m, "diagnostics").value.items| == 1 <==> diagnostic.Some?)
      && (|Lookup(m, "diagnostics").value.items| <= 1)
      && (diagnostic.Some? ==>
            Lookup(Lookup(m, "diagnostics").value.items[0].members, "message") == Some(JString(diagnostic.value)))
  {
    var m := ResultInfo(total, diagnostic).members;
    assert m[1..][1..] == [];
    if diagnostic.Some? {
      var d := Lookup(m, "diagnostics").value.items[0].members;
      assert d[1..] == [];
    }
  }

  /** The whole document: header, joined rows, footer. */
  function Document(items: seq<string>, info: string): string {
    ItemsHeader + Join(items) + FooterHead + info + "}"
  }

  /** How the database side of a listing went. */
  datatype Cursor =
    | PrepareFailed(message: string)
      /** The rows streamed, and how the stream ended. */
    | Opened(rows: seq<Scanned>, end: CursorEnd)

  datatype CursorEnd =
    /** The stream ended and the count query gave the total. */
    | Counted(total: int)
    /** The stream ended and the count query failed; the exception's message, which may be null. */
    | CountFailed(message: Option<string>)
    /** The stream failed after the rows given; the exception's message, which may be null. */
    | Broken(message: Option<string>)

  /**
   * HttpServerResponse as far as the listing uses it: chunked mode, the
   * content type, the text written so far and whether it was ended.
   */
  class Response {
    var chunked: bool
    var contentType: Option<string>
    var body: string
    var ended: bool

    constructor ()
      ensures !chunked && contentType.None? && body == "" && !ended
    {
      chunked, contentType, body, ended := false, None, "", false;
    }

    method Write(s: string)
      requires !ended
      modifies this`body
      ensures body == old(body) + s
    {
      body := body + s;
    }

    method End()
      requires !ended
      modifies this`ended
      ensures ended
    {
      ended := true;
    }
  }

  /** The rows of the stream, each written as it arrives, with a comma before all but the first. */
  method StreamRows(response: Response, rows: seq<Scanned>, encodeEntry: EntryData -> string)
    requires !response.ended
    modifies response`body
    ensures response.body == old(response.body) + Join(Items(rows, encodeEntry))
  {
    ghost var start := response.body;
    ghost var items := Items(rows, encodeEntry);
    var first := true;
    var i := 0;
    while i < |rows|
      invariant 0 <= i <= |rows|
      invariant first <==> i == 0
      invariant response.body == start + Join(items[..i])
    {
      if !first {
        response.Write(",");
      }
      first := false;
      response.Write(encodeEntry(FromRow(rows[i].0, rows[i].1)));
      assert items[..i + 1] == items[..i] + [items[i]];
      if i > 0 {
        JoinSnoc(items[..i], items[i]);
      }
      i := i + 1;
    }
    assert items[..i] == items;
  }

  /**
   * resultFooter: close the items array, write resultInfo and the closing
   * brace, then end the response.
   */
  method ResultFooter(response: Response, total: Option<int>, diagnostic: Option<string>, encode: Json -> string)
    requires !response.ended
    modifies response`body, response`ended
    ensures response.ended
    ensures response.body == old(response.body) + FooterHead + encode(ResultInfo(total, diagnostic)) + "}"
  {
    response.Write(FooterHead + encode(ResultInfo(total, diagnostic)) + "}");
    response.End();
  }

  /** The texts of the streamed rows: JsonObject.mapFrom(fromRow(row)).encode(). */
  function Items(rows: seq<Scanned>, encodeEntry: EntryData -> string): (items: seq<string>)
    ensures |items| == |rows|
    ensures forall i :: 0 <= i < |rows| ==> items[i] == encodeEntry(FromRow(rows[i].0, rows[i].1))
  {
    seq(|rows|, i requires 0 <= i < |rows| => encodeEntry(FromRow(rows[i].0, rows[i].1)))
  }

  /** The totalRecords and diagnostic the footer gets for each way a stream ends. */
  function FooterOf(end: CursorEnd): (Option<int>, Option<string>) {
    match end
    case Counted(n) => (Some(n), None)
    case CountFailed(m) => (None, m)
    case Broken(m) => (None, m)
  }

  /** The text streamResult writes for a cursor. */
  function StreamedText(cursor: Cursor, encodeEntry: EntryData -> string, encode: Json -> string): string {
    if cursor.PrepareFailed? then ""
    else
      var (total, diagnostic) := FooterOf(cursor.end);
      Document(Items(cursor.rows, encodeEntry), encode(ResultInfo(total, diagnostic)))
  }

  /** The text of an exception's message; a null one is the empty text. */
  function MessageText(m: Option<string>): string {
    if m.Some? then m.value else ""
  }

  /** The listing succeeds only when the stream ended and the count came back. */
  function StreamedResult(cursor: Cursor): Result<()> {
    match cursor
    case PrepareFailed(m) => Err(Failure(m))
    case Opened(_, Counted(_)) => Ok(())
    case Opened(_, CountFailed(m)) => Err(Failure(MessageText(m)))
    case Opened(_, Broken(m)) => Err(Failure(MessageText(m)))
  }

  /**
   * Every streamed document is well framed: the header, then rows that
   * begin with the first row's text and end with the last one's, then
   * the footer. A listing that fails after it started still ends with a
   * footer without a total; the footer carries the failure's message as
   * its one diagnostic when the message is not null, and no diagnostic
   * when it is, yet the listing fails either way.
   */
  lemma StreamedTextFramed(cursor: Cursor, encodeEntry: EntryData -> string, encode: Json -> string)
    requires cursor.Opened?
    ensures var t := StreamedText(cursor, encodeEntry, encode);
      var items := Items(cursor.rows, encodeEntry);
      var (total, diagnostic) := FooterOf(cursor.end);
      && t == ItemsHeader + Join(items) + FooterHead + encode(ResultInfo(total, diagnostic)) + "}"
      && (StreamedResult(cursor).Ok? <==> total.Some?)
      && (diagnostic.Some? ==> StreamedResult(cursor).Err?)
      && (!cursor.end.Counted? ==> diagnostic == cursor.end.message)
      && (items != [] ==> Join(items)[..|items[0]|] == items[0])
  {
    var items := Items(cursor.rows, encodeEntry);
    if items != [] {
      JoinEnds(items);
    }
  }

  /**
   * streamResult: on a prepared query, switch to chunked JSON, write the
   * header, each row with a comma before every row but the first, and the
   * footer: with the total after a clean end, with the failure's message
   * as diagnostic otherwise. A query that cannot be prepared fails with
   * nothing written.
   */
  method StreamResult(response: Response, cursor: Cursor, encodeEntry: EntryData -> string, encode: Json -> string)
    returns (r: Result<()>)
    requires !response.ended
    modifies response
    ensures r == StreamedResult(cursor)
    ensures response.body == old(response.body) + StreamedText(cursor, encodeEntry, encode)
    ensures cursor.PrepareFailed? ==> unchanged(response)
    ensures cursor.Opened? ==>
      response.chunked && response.contentType == Some("application/json") && response.ended
  {
    if cursor.PrepareFailed? {
      return Err(Failure(cursor.message));
    }
    response.chunked := true;
    response.contentType := Some("application/json");
    response.Write(ItemsHeader);
    StreamRows(response, cursor.rows, encodeEntry);
    var (total, diagnostic) := FooterOf(cursor.end);
    ResultFooter(response, total, diagnostic, encode);
    r := StreamedResult(cursor);
  }

  /** Where the database side of a listing may break down. */
  datatype Fault =
    | NoFault
    | PrepareFault(message: string)
    | RowFault(after: nat, cause: Option<string>)
    | CountFault(cause: Option<string>)

  /** The cursor a listing of `page`, with `total` matching rows, produces under a fault. */
  function CursorFor(page: seq<Scanned>, total: int, fault: Fault): Cursor {
    match fault
    case NoFault => Opened(page, Counted(total))
    case PrepareFault(m) => PrepareFailed(m)
    case RowFault(k, m) => Opened(if k <= |page| then page[..k] else page, Broken(m))
    case CountFault(m) => Opened(page, CountFailed(m))
  }
}
