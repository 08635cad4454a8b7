/**
 * The settings table and the SettingsStorage operations on it.
 *
 * The table is a map from id to row. Its two partial unique indexes make
 * owned rows unique on (scope, key, userId) and ownerless rows unique on
 * (scope, key), which together is uniqueness of the triple with a null
 * userId equal to another null userId.
 *
 * Each operation is first a function from the old table to its result and
 * the new table; the storage class runs it against its table object.
 */
module SettingsStorage {
  import opened Common
  import opened ValueMap
  import opened SettingsEntry
  import opened SettingsPermissions
  import opened SettingsListing
  import opened Paging

  type Table = map<Uuid, Row>

  /** Two rows are one entry for the unique indexes. */
  predicate Collide(a: Row, b: Row) {
    a.scope == b.scope && a.key == b.key && a.userId == b.userId
  }

  /** The index settings_scope_key_users holds owned rows, settings_scope_key_global ownerless ones. */
  predicate InIndex(target: ConflictTarget, r: Row) {
    if target == ScopeKeyUserId then r.userId.Some? else r.userId.None?
  }

  /** Rows collide exactly when both sit in the same partial index and agree
      on that index's columns. */
  lemma CollideIsPartialIndexes(a: Row, b: Row)
    ensures Collide(a, b) <==>
      || (InIndex(ScopeKeyUserId, a) && InIndex(ScopeKeyUserId, b) && a.scope == b.scope && a.key == b.key && a.userId == b.userId)
      || (InIndex(ScopeKey, a) && InIndex(ScopeKey, b) && a.scope == b.scope && a.key == b.key)
  {
  }

  predicate Unique(t: Table) {
    forall i, j :: i in t && j in t && i != j ==> !Collide(t[i], t[j])
  }

  /** Some row of the table is the same entry as r. */
  predicate Taken(t: Table, r: Row) {
    exists j :: j in t && Collide(t[j], r)
  }

  /** The row an entry's fields would be stored as, when scope and key are set. */
  function RowOf(e: EntryData): Row
    requires e.scope.Some? && e.key.Some?
  {
    Row(e.scope.value, e.key.value, e.value, e.userId)
  }

  /** A complete entry stored under its id and read back is itself. */
  lemma FromRowOf(e: EntryData)
    requires e.id.Some? && e.scope.Some? && e.key.Some?
    ensures FromRow(e.id.value, RowOf(e)) == e
  {
  }

  /** The result of an operation and the table it leaves. */
  datatype Outcome<T> = Outcome(result: Result<T>, table: Table)

  /**
   * createEntry: the write check on the entry; then the INSERT, where a
   * null column is a not-null violation, a row with the same entry makes
   * ON CONFLICT DO NOTHING insert nothing (Forbidden), and a duplicate id
   * is a primary key violation.
   */
  function CreateSpec(t: Table, perms: Perms, cu: Option<Uuid>, e: EntryData): Outcome<()> {
    if !CheckDesiredPermissions(PermWrite, perms, e, cu) then Outcome(Err(Forbidden), t)
    else if e.id.None? || e.scope.None? || e.key.None? then Outcome(Err(PgError(NotNullViolation)), t)
    else if Taken(t, RowOf(e)) then Outcome(Err(Forbidden), t)
    else if e.id.value in t then Outcome(Err(PgError(UniqueViolation)), t)
    else Outcome(Ok(()), t[e.id.value := RowOf(e)])
  }

  /** getEntry: an absent id and a failed read check look alike: NotFound. */
  function GetSpec(t: Table, perms: Perms, cu: Option<Uuid>, id: Uuid): Result<EntryData> {
    if id !in t then Err(NotFound)
    else if !CheckDesiredPermissions(PermRead, perms, FromRow(id, t[id]), cu) then Err(NotFound)
    else Ok(FromRow(id, t[id]))
  }

  /** deleteEntry: NotFound unless the id exists and its stored row passes the write check. */
  function DeleteSpec(t: Table, perms: Perms, cu: Option<Uuid>, id: Uuid): Outcome<()> {
    if id !in t then Outcome(Err(NotFound), t)
    else if !CheckDesiredPermissions(PermWrite, perms, FromRow(id, t[id]), cu) then Outcome(Err(NotFound), t)
    else Outcome(Ok(()), map j | j in t && j != id :: t[j])
  }

  /** Another row than `id` is the same entry as r. */
  predicate TakenByOther(t: Table, id: Uuid, r: Row) {
    exists j :: j in t && j != id && Collide(t[j], r)
  }

  /**
   * updateEntry: the write check is on the supplied entry, not on the
   * stored row. UPDATE ... WHERE id matches no row for a null or unknown id
   * (NotFound); a null column is a not-null violation, passed on; a
   * unique violation is reported as NotFound.
   */
  function UpdateSpec(t: Table, perms: Perms, cu: Option<Uuid>, e: EntryData): Outcome<()> {
    if !CheckDesiredPermissions(PermWrite, perms, e, cu) then Outcome(Err(Forbidden), t)
    else if e.id.None? || e.id.value !in t then Outcome(Err(NotFound), t)
    else if e.scope.None? || e.key.None? then Outcome(Err(PgError(NotNullViolation)), t)
    else if TakenByOther(t, e.id.value, RowOf(e)) then Outcome(Err(NotFound), t)
    else Outcome(Ok(()), t[e.id.value := RowOf(e)])
  }

  /** The id of the row that is the same entry as r; there is one at most. */
  ghost function CollidingId(t: Table, r: Row): (j: Uuid)
    requires Taken(t, r)
    ensures j in t && Collide(t[j], r)
  {
    var j :| j in t && Collide(t[j], r); j
  }

  /** The state upsertEntry leaves: its result, the table, and the argument's id. */
  datatype UpsertOutcome = UpsertOutcome(result: Result<bool>, table: Table, entryId: Option<Uuid>)

  /**
   * upsertEntry with `newId` as the random id: a supplied id is refused;
   * otherwise the entry gets the new id before the write check. On a
   * collision only the value of the existing row is replaced and the
   * result compares that row's id with the new one; else the row is
   * inserted.
   */
  ghost function UpsertSpec(t: Table, perms: Perms, cu: Option<Uuid>, e: EntryData, newId: Uuid): UpsertOutcome {
    if e.id.Some? then UpsertOutcome(Err(UserError("No id must supplied for upload")), t, e.id)
    else
      var e' := e.(id := Some(newId));
      if !CheckDesiredPermissions(PermWrite, perms, e', cu) then UpsertOutcome(Err(Forbidden), t, e'.id)
      else if e.scope.None? || e.key.None? then UpsertOutcome(Err(PgError(NotNullViolation)), t, e'.id)
      else if Taken(t, RowOf(e')) then
        var j := CollidingId(t, RowOf(e'));
        UpsertOutcome(Ok(j == newId), t[j := t[j].(value := e.value)], e'.id)
      else if newId in t then UpsertOutcome(Err(PgError(UniqueViolation)), t, e'.id)
      else UpsertOutcome(Ok(true), t[newId := RowOf(e')], e'.id)
  }

  // ---------------------------------------------------------------------
  // What the operations promise
  // ---------------------------------------------------------------------

  /** With a unique table the colliding row is the only one. */
  lemma CollidingIdUnique(t: Table, r: Row, j: Uuid)
    requires Unique(t) && j in t && Collide(t[j], r)
    ensures CollidingId(t, r) == j
  {
  }

  /**
   * createEntry keeps the table unique; on success it adds exactly the
   * entry's row under its id and changes nothing else, and on failure it
   * changes nothing.
   */
  lemma CreateEffect(t: Table, perms: Perms, cu: Option<Uuid>, e: EntryData)
    requires Unique(t)
    ensures var o := CreateSpec(t, perms, cu, e);
      && Unique(o.table)
      && (o.result.Err? ==> o.table == t)
      && (o.result.Ok? ==>
            && e.id.Some? && e.id.value !in t
            && o.table.Keys == t.Keys + {e.id.value}
            && FromRow(e.id.value, o.table[e.id.value]) == e
            && forall j :: j in t ==> o.table[j] == t[j])
  {
    var o := CreateSpec(t, perms, cu, e);
    if o.result.Ok? {
      var id := e.id.value;
      forall i, j | i in o.table && j in o.table && i != j ensures !Collide(o.table[i], o.table[j]) {
        if i == id {
          assert !Collide(t[j], RowOf(e));
        } else if j == id {
          assert !Collide(t[i], RowOf(e));
        }
      }
    }
  }

  /** createEntry fails Forbidden without the write permission, and when the
      entry already exists, whatever id it comes with. */
  lemma CreateForbidden(t: Table, perms: Perms, cu: Option<Uuid>, e: EntryData)
    requires !CheckDesiredPermissions(PermWrite, perms, e, cu)
      || (e.id.Some? && e.scope.Some? && e.key.Some? && Taken(t, RowOf(e)))
    ensures CreateSpec(t, perms, cu, e) == Outcome(Err(Forbidden), t)
  {
  }

  /**
   * Two creates of the same entry: the second fails Forbidden and exactly
   * one row holds the entry afterwards.
   */
  lemma CreateTwice(t: Table, perms: Perms, cu: Option<Uuid>, e1: EntryData, e2: EntryData)
    requires Unique(t) && CreateSpec(t, perms, cu, e1).result.Ok?
    requires e2.id.Some? && e2.scope == e1.scope && e2.key == e1.key && e2.userId == e1.userId
    requires CheckDesiredPermissions(PermWrite, perms, e2, cu)
    ensures var t1 := CreateSpec(t, perms, cu, e1).table;
      && CreateSpec(t1, perms, cu, e2) == Outcome(Err(Forbidden), t1)
      && forall j :: j in t1 && Collide(t1[j], RowOf(e2)) ==> j == e1.id.value
  {
    var t1 := CreateSpec(t, perms, cu, e1).table;
    CreateEffect(t, perms, cu, e1);
    assert Collide(t1[e1.id.value], RowOf(e2));
  }

  /**
   * Create then get: when the caller may also read the entry, getEntry on
   * its id returns exactly the entry that was created.
   */
  lemma CreateThenGet(t: Table, perms: Perms, cu: Option<Uuid>, e: EntryData)
    requires Unique(t) && CreateSpec(t, perms, cu, e).result.Ok?
    requires CheckDesiredPermissions(PermRead, perms, e, cu)
    ensures GetSpec(CreateSpec(t, perms, cu, e).table, perms, cu, e.id.value) == Ok(e)
  {
    CreateEffect(t, perms, cu, e);
  }

  /** getEntry returns an entry only when the caller may read it, and then
      the stored one; NotFound covers both an unknown id and a refusal. */
  lemma GetMeaning(t: Table, perms: Perms, cu: Option<Uuid>, id: Uuid)
    ensures GetSpec(t, perms, cu, id).Ok? <==>
      id in t && CheckDesiredPermissions(PermRead, perms, FromRow(id, t[id]), cu)
    ensures GetSpec(t, perms, cu, id).Ok? ==> GetSpec(t, perms, cu, id).value == FromRow(id, t[id])
    ensures GetSpec(t, perms, cu, id).Err? ==> GetSpec(t, perms, cu, id).error == NotFound
  {
  }

  /**
   * deleteEntry removes exactly the id it was given and leaves every other
   * row as it was; on failure (NotFound) nothing changes.
   */
  lemma DeleteEffect(t: Table, perms: Perms, cu: Option<Uuid>, id: Uuid)
    requires Unique(t)
    ensures var o := DeleteSpec(t, perms, cu, id);
      && Unique(o.table)
      && (o.result.Err? ==> o.result.error == NotFound && o.table == t)
      && (o.result.Ok? <==> id in t && CheckDesiredPermissions(PermWrite, perms, FromRow(id, t[id]), cu))
      && (o.result.Ok? ==> o.table.Keys == t.Keys - {id} && forall j :: j in o.table ==> o.table[j] == t[j])
  {
  }

  /**
   * updateEntry replaces the row of that id with the entry's fields and
   * touches no other row; every failure leaves the table unchanged, and
   * the table stays unique.
   */
  lemma UpdateEffect(t: Table, perms: Perms, cu: Option<Uuid>, e: EntryData)
    requires Unique(t)
    ensures var o := UpdateSpec(t, perms, cu, e);
      && Unique(o.table)
      && (o.result.Err? ==> o.table == t)
      && (o.result.Ok? ==>
            && e.id.Some? && e.id.value in t
            && o.table.Keys == t.Keys
            && FromRow(e.id.value, o.table[e.id.value]) == e
            && forall j :: j in t && j != e.id.value ==> o.table[j] == t[j])
  {
    var o := UpdateSpec(t, perms, cu, e);
    if o.result.Ok? {
      var id := e.id.value;
      forall i, j | i in o.table && j in o.table && i != j ensures !Collide(o.table[i], o.table[j]) {
        if i == id {
          assert !Collide(t[j], RowOf(e));
        } else if j == id {
          assert !Collide(t[i], RowOf(e));
        }
      }
    }
  }

  /**
   * The update is authorized by the supplied entry alone: with the write
   * permission for the new fields it may rewrite a row whose stored fields
   * the caller could not write (here another user's row moved to the
   * caller).
   */
  lemma UpdateChecksSuppliedEntryOnly(t: Table, perms: Perms, cu: Option<Uuid>, e: EntryData)
    requires Unique(t) && e.id.Some? && e.id.value in t && e.scope.Some? && e.key.Some?
    requires CheckDesiredPermissions(PermWrite, perms, e, cu)
    requires !TakenByOther(t, e.id.value, RowOf(e))
    ensures UpdateSpec(t, perms, cu, e).result == Ok(())
  {
  }

  /** An update that would make two rows the same entry is reported as NotFound. */
  lemma UpdateDuplicateIsNotFound(t: Table, perms: Perms, cu: Option<Uuid>, e: EntryData, other: Uuid)
    requires CheckDesiredPermissions(PermWrite, perms, e, cu)
    requires e.id.Some? && e.id.value in t && e.scope.Some? && e.key.Some?
    requires other in t && other != e.id.value && Collide(t[other], RowOf(e))
    ensures UpdateSpec(t, perms, cu, e) == Outcome(Err(NotFound), t)
  {
  }

  /** upsertEntry keeps the table unique, whatever id it draws. */
  lemma UpsertKeepsUnique(t: Table, perms: Perms, cu: Option<Uuid>, e: EntryData, newId: Uuid)
    requires Unique(t)
    ensures Unique(UpsertSpec(t, perms, cu, e, newId).table)
  {
    var o := UpsertSpec(t, perms, cu, e, newId);
    if e.id.None? && o.result.Ok? {
      var e' := e.(id := Some(newId));
      if Taken(t, RowOf(e')) {
        forall a, b | a in o.table && b in o.table && a != b ensures !Collide(o.table[a], o.table[b]) {
          assert Collide(o.table[a], t[a]) && Collide(o.table[b], t[b]);
        }
      } else {
        forall a, b | a in o.table && b in o.table && a != b ensures !Collide(o.table[a], o.table[b]) {
          if a == newId {
            assert !Collide(t[b], RowOf(e'));
          } else if b == newId {
            assert !Collide(t[a], RowOf(e'));
          }
        }
      }
    }
  }

  /**
   * upsertEntry with an unused newId id: a supplied id is refused
   * unchanged; on a collision the existing row keeps its id and entry and
   * takes the new value, and the result is false; otherwise exactly the
   * new row is added and the result is true. The table stays unique.
   */
  lemma UpsertEffect(t: Table, perms: Perms, cu: Option<Uuid>, e: EntryData, newId: Uuid)
    requires Unique(t) && newId !in t
    ensures var o := UpsertSpec(t, perms, cu, e, newId);
      && (e.id.Some? ==> o == UpsertOutcome(Err(UserError("No id must supplied for upload")), t, e.id))
      && (e.id.None? ==> o.entryId == Some(newId))
      && (o.result.Err? ==> o.table == t)
      && (o.result == Ok(false) ==>
            && e.scope.Some? && e.key.Some?
            && o.table.Keys == t.Keys
            && exists j :: j in t && Collide(t[j], RowOf(e)) &&
                 o.table == t[j := t[j].(value := e.value)])
      && (o.result == Ok(true) ==>
            && e.scope.Some? && e.key.Some? && !Taken(t, RowOf(e))
            && o.table == t[newId := RowOf(e.(id := Some(newId)))])
  {
    var o := UpsertSpec(t, perms, cu, e, newId);
    if e.id.None? && o.result.Ok? {
      var e' := e.(id := Some(newId));
      assert RowOf(e') == RowOf(e);
    }
  }

  /**
   * Upserting the same entry twice leaves one row for it: the first call
   * inserts (true), the second finds it and only rewrites its value (false).
   */
  lemma UpsertTwice(t: Table, perms: Perms, cu: Option<Uuid>, e: EntryData, f1: Uuid, f2: Uuid)
    requires Unique(t) && f1 !in t && f2 != f1 && f2 !in t
    requires e.id.None? && UpsertSpec(t, perms, cu, e, f1).result == Ok(true)
    ensures var t1 := UpsertSpec(t, perms, cu, e, f1).table;
      && UpsertSpec(t1, perms, cu, e, f2).result == Ok(false)
      && UpsertSpec(t1, perms, cu, e, f2).table.Keys == t1.Keys
  {
    UpsertEffect(t, perms, cu, e, f1);
    UpsertKeepsUnique(t, perms, cu, e, f1);
    var t1 := UpsertSpec(t, perms, cu, e, f1).table;
    var e2 := e.(id := Some(f2));
    assert Collide(t1[f1], RowOf(e2));
    CollidingIdUnique(t1, RowOf(e2), f1);
  }

  // ---------------------------------------------------------------------
  // The storage object
  // ---------------------------------------------------------------------

  // ---------------------------------------------------------------------
  // getEntries
  // ---------------------------------------------------------------------

  /** The order the database walks the table in: every row once. */
  predicate ScanOrder(t: Table, scan: seq<Uuid>) {
    && (forall i :: 0 <= i < |scan| ==> scan[i] in t)
    && (forall id :: id in t ==> id in scan)
    && (forall i, j :: 0 <= i < j < |scan| ==> scan[i] != scan[j])
  }

  /** The table's rows in scan order. */
  function Scan(t: Table, scan: seq<Uuid>): (rows: seq<Scanned>)
    requires forall i :: 0 <= i < |scan| ==> scan[i] in t
    ensures |rows| == |scan|
    ensures forall i :: 0 <= i < |scan| ==> rows[i] == (scan[i], t[scan[i]])
  {
    seq(|scan|, i requires 0 <= i < |scan| => (scan[i], t[scan[i]]))
  }

  /**
   * The cursor getEntries streams: the page LIMIT limit OFFSET offset of
   * the rows the limits and the query admit, counted by the same WHERE
   * clause.
   */
  function ListingCursor(t: Table, scan: seq<Uuid>, limits: set<Limit>, query: Row -> bool,
                         offset: nat, limit: nat, fault: Fault): Cursor
    requires forall i :: 0 <= i < |scan| ==> scan[i] in t
  {
    var selected := Selected(Scan(t, scan), limits, query);
    CursorFor(Page(selected, offset, limit), |selected|, fault)
  }

  /**
   * The rows getEntries selects are exactly the rows of the table that
   * the query accepts and canonical read tokens grant; each of them also
   * passes the check a read by id makes.
   */
  lemma ListedRows(t: Table, scan: seq<Uuid>, perms: Perms, cu: Option<Uuid>, query: Row -> bool, id: Uuid)
    requires ScanOrder(t, scan) && id in t
    ensures var selected := Selected(Scan(t, scan), LimitSet(perms, cu), query);
      && ((id, t[id]) in selected <==> query(t[id]) && CanonicalRead(perms, cu, t[id]))
      && ((id, t[id]) in selected ==> CheckDesiredPermissions(PermRead, perms, FromRow(id, t[id]), cu))
  {
    var rows := Scan(t, scan);
    var i :| 0 <= i < |scan| && scan[i] == id;
    assert rows[i] == (id, t[id]);
    var selected := Selected(rows, LimitSet(perms, cu), query);
    if query(t[id]) {
      SelectedIffCanonicalRead(rows, query, perms, cu, (id, t[id]));
    }
    if (id, t[id]) in selected {
      SelectedReadable(rows, query, perms, cu, (id, t[id]));
    }
  }

  /**
   * Without faults, the total in the footer counts every selected row,
   * not just the page, and the page holds at most `limit` of them.
   */
  lemma ListingTotal(t: Table, scan: seq<Uuid>, limits: set<Limit>, query: Row -> bool, offset: nat, limit: nat)
    requires forall i :: 0 <= i < |scan| ==> scan[i] in t
    ensures var c := ListingCursor(t, scan, limits, query, offset, limit, NoFault);
      var selected := Selected(Scan(t, scan), limits, query);
      && c.Opened? && c.end == Counted(|selected|)
      && |c.rows| <= limit
      && (offset + limit <= |selected| ==> |c.rows| == limit)
      && StreamedResult(c) == Ok(())
  {
    var selected := Selected(Scan(t, scan), limits, query);
    var page := Page(selected, offset, limit);
    assert ListingCursor(t, scan, limits, query, offset, limit, NoFault) == Opened(page, Counted(|selected|));
  }

  /** The settings table of one tenant; init creates it empty with its indexes. */
  class SettingsTable {
    var rows: Table

    constructor ()
      ensures rows == map[] && Unique(rows)
    {
      rows := map[];
    }
  }

  /** A sequence holding exactly the members of a set is empty exactly when the set is. */
  lemma ElementsOf<T>(q: seq<T>, s: set<T>)
    requires forall x :: x in q <==> x in s
    ensures (set x | x in q) == s && (|q| == 0 <==> s == {})
  {
    if |q| != 0 {
      assert q[0] in s;
    }
  }

  /**
   * A SettingsStorage: the caller's permissions and user id, and the
   * tenant's table. randomUUID is the `newId` argument of UpsertEntry.
   */
  class Storage {
    const permissions: Perms
    const currentUser: Option<Uuid>
    const db: SettingsTable

    constructor (db: SettingsTable, currentUser: Option<Uuid>, permissions: Perms)
      ensures this.db == db && this.currentUser == currentUser && this.permissions == permissions
    {
      this.db := db;
      this.currentUser := currentUser;
      this.permissions := permissions;
    }

    method CreateEntry(entry: Entry) returns (r: Result<()>)
      requires Unique(db.rows)
      modifies db
      ensures Unique(db.rows)
      ensures Outcome(r, db.rows) == CreateSpec(old(db.rows), permissions, currentUser, entry.Data())
    {
      CreateEffect(db.rows, permissions, currentUser, entry.Data());
      if !CheckDesiredPermissions(PermWrite, permissions, entry.Data(), currentUser) {
        return Err(Forbidden);
      }
      if entry.id.None? || entry.scope.None? || entry.key.None? {
        return Err(PgError(NotNullViolation));
      }
      var row := Row(entry.scope.value, entry.key.value, entry.value, entry.userId);
      if exists j :: j in db.rows && Collide(db.rows[j], row) {
        // ON CONFLICT ... DO NOTHING: rowCount() == 0
        return Err(Forbidden);
      }
      if entry.id.value in db.rows {
        return Err(PgError(UniqueViolation));
      }
      db.rows := db.rows[entry.id.value := row];
      r := Ok(());
    }

    method GetEntry(id: Uuid) returns (r: Result<EntryData>)
      ensures r == GetSpec(db.rows, permissions, currentUser, id)
    {
      if id !in db.rows {
        return Err(NotFound);
      }
      var entry := FromRow(id, db.rows[id]);
      if !CheckDesiredPermissions(PermRead, permissions, entry, currentUser) {
        return Err(NotFound);
      }
      r := Ok(entry);
    }

    method DeleteEntry(id: Uuid) returns (r: Result<()>)
      requires Unique(db.rows)
      modifies db
      ensures Unique(db.rows)
      ensures Outcome(r, db.rows) == DeleteSpec(old(db.rows), permissions, currentUser, id)
    {
      DeleteEffect(db.rows, permissions, currentUser, id);
      if id !in db.rows {
        return Err(NotFound);
      }
      if !CheckDesiredPermissions(PermWrite, permissions, FromRow(id, db.rows[id]), currentUser) {
        return Err(NotFound);
      }
      db.rows := map j | j in db.rows && j != id :: db.rows[j];
      r := Ok(());
    }

    method UpdateEntry(entry: Entry) returns (r: Result<()>)
      requires Unique(db.rows)
      modifies db
      ensures Unique(db.rows)
      ensures Outcome(r, db.rows) == UpdateSpec(old(db.rows), permissions, currentUser, entry.Data())
    {
      UpdateEffect(db.rows, permissions, currentUser, entry.Data());
      if !CheckDesiredPermissions(PermWrite, permissions, entry.Data(), currentUser) {
        return Err(Forbidden);
      }
      if entry.id.None? || entry.id.value !in db.rows {
        // UPDATE ... WHERE id = $1 matched nothing: rowCount() == 0
        return Err(NotFound);
      }
      if entry.scope.None? || entry.key.None? {
        return Err(PgError(NotNullViolation));
      }
      var id := entry.id.value;
      var row := Row(entry.scope.value, entry.key.value, entry.value, entry.userId);
      if exists j :: j in db.rows && j != id && Collide(db.rows[j], row) {
        // the unique violation (23505) is recovered as NotFound
        return Err(NotFound);
      }
      db.rows := db.rows[id := row];
      r := Ok(());
    }

    method UpsertEntry(entry: Entry, newId: Uuid) returns (r: Result<bool>)
      requires Unique(db.rows)
      modifies db, entry`id
      ensures Unique(db.rows)
      ensures UpsertOutcome(r, db.rows, entry.id) ==
        UpsertSpec(old(db.rows), permissions, currentUser, old(entry.Data()), newId)
      ensures entry.scope == old(entry.scope) && entry.key == old(entry.key)
      ensures entry.value == old(entry.value) && entry.userId == old(entry.userId)
    {
      if entry.id.Some? {
        return Err(UserError("No id must supplied for upload"));
      }
      entry.id := Some(newId);
      if !CheckDesiredPermissions(PermWrite, permissions, entry.Data(), currentUser) {
        return Err(Forbidden);
      }
      if entry.scope.None? || entry.key.None? {
        return Err(PgError(NotNullViolation));
      }
      var row := Row(entry.scope.value, entry.key.value, entry.value, entry.userId);
      if exists j :: j in db.rows && Collide(db.rows[j], row) {
        // ON CONFLICT ... DO UPDATE SET value = $4 RETURNING id
        var j :| j in db.rows && Collide(db.rows[j], row);
        CollidingIdUnique(db.rows, row, j);
        db.rows := db.rows[j := db.rows[j].(value := entry.value)];
        r := Ok(j == newId);
      } else if newId in db.rows {
        r := Err(PgError(UniqueViolation));
      } else {
        db.rows := db.rows[newId := row];
        r := Ok(true);
      }
      UpsertKeepsUnique(old(db.rows), permissions, currentUser, old(entry.Data()), newId);
    }

    /**
     * getEntries: without any limit from the permissions the listing is
     * Forbidden before a query is made; otherwise the selected rows are
     * streamed a page at a time, with the count of all of them.
     */
    method GetEntries(response: Response, query: Row -> bool, scan: seq<Uuid>, offset: nat, limit: nat,
                      fault: Fault, encodeEntry: EntryData -> string, encode: Json -> string)
      returns (r: Result<()>)
      requires ScanOrder(db.rows, scan) && !response.ended
      modifies response
      ensures LimitSet(permissions, currentUser) == {} ==> r == Err(Forbidden) && unchanged(response)
      ensures LimitSet(permissions, currentUser) != {} ==>
        var cursor := ListingCursor(db.rows, scan, LimitSet(permissions, currentUser), query, offset, limit, fault);
        && r == StreamedResult(cursor)
        && response.body == old(response.body) + StreamedText(cursor, encodeEntry, encode)
    {
      var queryLimits := GetCqlLimitPermissions(permissions, currentUser);
      ElementsOf(queryLimits, LimitSet(permissions, currentUser));
      if |queryLimits| == 0 {
        return Err(Forbidden);
      }
      var limits := set l | l in queryLimits;
      var cursor := ListingCursor(db.rows, scan, limits, query, offset, limit, fault);
      r := StreamResult(response, cursor, encodeEntry, encode);
    }
  }
}
