/**
 * org.folio.config.server.storage.ConfigStorage: the legacy configuration
 * table. Its permission tokens are `config.<right>.<type>.<scope>` with
 * right one of global, others, user, in that one order only; its single
 * unique index on (scope, key, userId) lets ownerless rows share a scope
 * and key, since SQL compares a null userId with nothing.
 */
module ConfigStorage {
  import opened Common
  import opened SettingsEntry
  import SettingsPermissions
  import SettingsStorage
  import ConfigEntry

  type Perms = SettingsPermissions.Perms

  const ConfigPrefix := "config"
  const RightGlobal := "global"
  const RightOthers := "others"
  const RightUser := "user"

  function ConfigToken(right: string, kind: string, scope: string): string {
    ConfigPrefix + "." + right + "." + kind + "." + scope
  }

  /**
   * checkDesiredPermissions: an ownerless entry needs the global token; an
   * owned one the others token, or the user token when the caller owns it.
   */
  predicate CheckDesiredPermissions(kind: string, perms: Perms, e: EntryData, currentUser: Option<Uuid>) {
    var scope := SettingsPermissions.ScopeText(e.scope);
    if e.userId.None? then
      SettingsPermissions.Contains(perms, ConfigToken(RightGlobal, kind, scope))
    else if SettingsPermissions.Contains(perms, ConfigToken(RightOthers, kind, scope)) then
      true
    else
      SettingsPermissions.Contains(perms, ConfigToken(RightUser, kind, scope))
        && currentUser.Some? && currentUser == e.userId
  }

  /**
   * An ownerless entry is granted exactly by the global token, written
   * right, then type, then scope; no other token, and so not the
   * scope-before-type order the settings check also accepts, grants it.
   */
  lemma OwnerlessConfigAccess(kind: string, perms: Perms, e: EntryData, cu: Option<Uuid>)
    requires e.userId.None?
    ensures CheckDesiredPermissions(kind, perms, e, cu) <==>
      SettingsPermissions.Contains(perms, "config.global." + kind + "." + SettingsPermissions.ScopeText(e.scope))
    ensures var scope := SettingsPermissions.ScopeText(e.scope);
      kind != scope && '.' !in kind && '.' !in scope ==>
        !CheckDesiredPermissions(kind, [SettingsPermissions.PStr("config.global." + scope + "." + kind)], e, cu)
  {
    var scope := SettingsPermissions.ScopeText(e.scope);
    assert ConfigToken(RightGlobal, kind, scope) == "config.global." + kind + "." + scope;
    if kind != scope && '.' !in kind && '.' !in scope {
      TokensDiffer("config.global.", kind, scope);
    }
  }

  /** Two dot-free words joined by a dot in the two orders give two texts. */
  lemma TokensDiffer(p: string, x: string, y: string)
    requires x != y && '.' !in x && '.' !in y
    ensures p + x + "." + y != p + y + "." + x
  {
    var a := p + x + "." + y;
    var b := p + y + "." + x;
    if |x| < |y| {
      assert a[|p| + |x|] == '.';
      assert b[|p| + |x|] == y[|x|];
    } else if |y| < |x| {
      assert b[|p| + |y|] == '.';
      assert a[|p| + |y|] == x[|y|];
    } else {
      var k :| 0 <= k < |x| && x[k] != y[k];
      assert a[|p| + k] == x[k];
      assert b[|p| + k] == y[k];
    }
  }

  /**
   * An owned entry: whoever calls gets it with the others token; without
   * it only the owner does, with the user token; an anonymous caller
   * never does.
   */
  lemma OwnedConfigAccess(kind: string, perms: Perms, e: EntryData, cu: Option<Uuid>)
    requires e.userId.Some?
    ensures SettingsPermissions.Contains(perms, ConfigToken(RightOthers, kind, SettingsPermissions.ScopeText(e.scope)))
      ==> CheckDesiredPermissions(kind, perms, e, cu)
    ensures !SettingsPermissions.Contains(perms, ConfigToken(RightOthers, kind, SettingsPermissions.ScopeText(e.scope)))
      ==> (CheckDesiredPermissions(kind, perms, e, cu) <==>
             SettingsPermissions.Contains(perms, ConfigToken(RightUser, kind, SettingsPermissions.ScopeText(e.scope)))
             && cu == e.userId)
    ensures cu.None? && CheckDesiredPermissions(kind, perms, e, cu) ==>
      SettingsPermissions.Contains(perms, ConfigToken(RightOthers, kind, SettingsPermissions.ScopeText(e.scope)))
  {
  }

  type Table = map<Uuid, Row>

  /** Rows the index config_scope_key rejects together: a null userId equals nothing. */
  predicate Collide(a: Row, b: Row) {
    a.scope == b.scope && a.key == b.key && a.userId.Some? && a.userId == b.userId
  }

  predicate Unique(t: Table) {
    forall i, j :: i in t && j in t && i != j ==> !Collide(t[i], t[j])
  }

  /** The row an entry is inserted as, when every NOT NULL column is set. */
  function RowOf(e: EntryData): Row
    requires e.scope.Some? && e.key.Some?
  {
    Row(e.scope.value, e.key.value, e.value, e.userId)
  }

  /**
   * createEntry: Forbidden without the write permission; otherwise a plain
   * INSERT, whose null columns and duplicate keys are database errors.
   */
  function CreateSpec(t: Table, perms: Perms, cu: Option<Uuid>, e: EntryData): SettingsStorage.Outcome<()> {
    if !CheckDesiredPermissions("write", perms, e, cu) then SettingsStorage.Outcome(Err(Forbidden), t)
    else if e.id.None? || e.scope.None? || e.key.None? then SettingsStorage.Outcome(Err(PgError(NotNullViolation)), t)
    else if e.id.value in t then SettingsStorage.Outcome(Err(PgError(UniqueViolation)), t)
    else if exists j :: j in t && Collide(t[j], RowOf(e)) then SettingsStorage.Outcome(Err(PgError(UniqueViolation)), t)
    else SettingsStorage.Outcome(Ok(()), t[e.id.value := RowOf(e)])
  }

  /**
   * getEntry: an absent id is a success with no entry; a present row the
   * caller may not read is Forbidden.
   */
  function GetSpec(t: Table, perms: Perms, cu: Option<Uuid>, id: Uuid): Result<Option<EntryData>> {
    if id !in t then Ok(None)
    else if !CheckDesiredPermissions("read", perms, FromRow(id, t[id]), cu) then Err(Forbidden)
    else Ok(Some(FromRow(id, t[id])))
  }

  /**
   * createEntry keeps the table unique; it adds exactly the entry's row on
   * success and changes nothing otherwise; without the write permission it
   * fails Forbidden.
   */
  lemma CreateEffect(t: Table, perms: Perms, cu: Option<Uuid>, e: EntryData)
    requires Unique(t)
    ensures var o := CreateSpec(t, perms, cu, e);
      && Unique(o.table)
      && (!CheckDesiredPermissions("write", perms, e, cu) ==> o.result == Err(Forbidden))
      && (o.result.Err? ==> o.table == t)
      && (o.result.Ok? ==>
            && e.id.Some? && e.id.value !in t
            && o.table.Keys == t.Keys + {e.id.value}
            && FromRow(e.id.value, o.table[e.id.value]) == e
            && forall j :: j in t ==> o.table[j] == t[j])
  {
    var o := CreateSpec(t, perms, cu, e);
    if o.result.Ok? {
      var id := e.id.value;
      forall i, j | i in o.table && j in o.table && i != j ensures !Collide(o.table[i], o.table[j]) {
        if i == id {
          assert !Collide(t[j], RowOf(e));
          assert !Collide(RowOf(e), t[j]);
        } else if j == id {
          assert !Collide(t[i], RowOf(e));
        }
      }
    }
  }

  /**
   * The single index lets a second ownerless row with the same scope and
   * key in, where the settings table's partial indexes refuse it; an owned
   * duplicate is refused by both.
   */
  lemma OwnerlessDuplicatesAccepted(t: Table, perms: Perms, cu: Option<Uuid>, e: EntryData, j: Uuid)
    requires Unique(t) && j in t
    requires e.id.Some? && e.id.value !in t && e.scope.Some? && e.key.Some?
    requires t[j].scope == e.scope.value && t[j].key == e.key.value && t[j].userId == e.userId
    requires CheckDesiredPermissions("write", perms, e, cu)
    ensures e.userId.None? ==> CreateSpec(t, perms, cu, e).result == Ok(())
    ensures e.userId.Some? ==> CreateSpec(t, perms, cu, e).result == Err(PgError(UniqueViolation))
    ensures SettingsStorage.Taken(t, SettingsStorage.RowOf(e))
  {
    if e.userId.None? {
      forall i | i in t ensures !Collide(t[i], RowOf(e)) {
      }
    } else {
      assert Collide(t[j], RowOf(e));
    }
    assert SettingsStorage.Collide(t[j], SettingsStorage.RowOf(e));
  }

  /**
   * getEntry's three answers: no entry exactly for an absent id, Forbidden
   * exactly for a stored row the caller may not read, and otherwise the
   * stored row under its id.
   */
  lemma GetMeaning(t: Table, perms: Perms, cu: Option<Uuid>, id: Uuid)
    ensures GetSpec(t, perms, cu, id) == Ok(None) <==> id !in t
    ensures GetSpec(t, perms, cu, id) == Err(Forbidden) <==>
      id in t && !CheckDesiredPermissions("read", perms, FromRow(id, t[id]), cu)
    ensures GetSpec(t, perms, cu, id).Ok? && GetSpec(t, perms, cu, id).value.Some? ==>
      id in t && GetSpec(t, perms, cu, id).value.value.id == Some(id)
      && CheckDesiredPermissions("read", perms, GetSpec(t, perms, cu, id).value.value, cu)
  {
  }

  /** A created entry reads back as itself, or Forbidden without read permission. */
  lemma CreateThenGet(t: Table, perms: Perms, cu: Option<Uuid>, e: EntryData)
    requires CreateSpec(t, perms, cu, e).result.Ok?
    ensures var t' := CreateSpec(t, perms, cu, e).table;
      GetSpec(t', perms, cu, e.id.value) ==
        if CheckDesiredPermissions("read", perms, e, cu) then Ok(Some(e)) else Err(Forbidden)
  {
    SettingsStorage.FromRowOf(e);
  }

  class ConfigTable {
    var rows: Table

    constructor ()
      ensures rows == map[] && Unique(rows)
    {
      rows := map[];
    }
  }

  /** A ConfigStorage: the caller's permissions and user id, and the tenant's table. */
  class Storage {
    const permissions: Perms
    const currentUser: Option<Uuid>
    const db: ConfigTable

    constructor (db: ConfigTable, currentUser: Option<Uuid>, permissions: Perms)
      ensures this.db == db && this.currentUser == currentUser && this.permissions == permissions
    {
      this.db := db;
      this.currentUser := currentUser;
      this.permissions := permissions;
    }

    method CreateEntry(entry: ConfigEntry.Entry) returns (r: Result<()>)
      requires Unique(db.rows)
      modifies db
      ensures Unique(db.rows)
      ensures SettingsStorage.Outcome(r, db.rows) == CreateSpec(old(db.rows), permissions, currentUser, entry.Data())
    {
      CreateEffect(db.rows, permissions, currentUser, entry.Data());
      if !CheckDesiredPermissions("write", permissions, entry.Data(), currentUser) {
        return Err(Forbidden);
      }
      if entry.id.None? || entry.scope.None? || entry.key.None? {
        return Err(PgError(NotNullViolation));
      }
      var row := Row(entry.scope.value, entry.key.value, entry.value, entry.userId);
      if entry.id.value in db.rows || exists j :: j in db.rows && Collide(db.rows[j], row) {
        return Err(PgError(UniqueViolation));
      }
      db.rows := db.rows[entry.id.value := row];
      r := Ok(());
    }

    method GetEntry(id: Uuid) returns (r: Result<Option<EntryData>>)
      ensures r == GetSpec(db.rows, permissions, currentUser, id)
    {
      if id !in db.rows {
        return Ok(None);
      }
      var entry := FromRow(id, db.rows[id]);
      if !CheckDesiredPermissions("read", permissions, entry, currentUser) {
        return Err(Forbidden);
      }
      r := Ok(Some(entry));
    }
  }
}
