/**
 * org.folio.settings.server.data.Entry: a settings entry as a mutable
 * object (id, scope, key, the value bag and the owner's user id), and
 * EntryData, the snapshot of its fields that the storage rules inspect.
 */
module SettingsEntry {
  import opened Common
  import opened ValueMap

  /** The fields of an Entry at one moment; every field but `value` may be null. */
  datatype EntryData = EntryData(
    id: Option<Uuid>,
    scope: Option<string>,
    key: Option<string>,
    value: Bindings,
    userId: Option<Uuid>)

  /**
   * A stored row of the settings table, keyed by its id. The columns scope,
   * key and value are NOT NULL; userId is null for an ownerless (global)
   * setting.
   */
  datatype Row = Row(scope: string, key: string, value: Bindings, userId: Option<Uuid>)

  /** SettingsStorage.fromRow: an entry carrying the row's columns and its id. */
  function FromRow(id: Uuid, row: Row): (e: EntryData)
    ensures e.id == Some(id) && e.userId == row.userId
    ensures ValidateData(e).Ok?
  {
    EntryData(Some(id), Some(row.scope), Some(row.key), row.value, row.userId)
  }

  /**
   * Entry.validate: the first missing field of id, scope, key, in that
   * order, decides the message; value and userId are not checked.
   */
  function ValidateData(e: EntryData): (r: Result<()>)
    ensures r.Ok? <==> e.id.Some? && e.scope.Some? && e.key.Some?
    ensures e.id.None? ==> r == Err(IllegalArgument("Entry must have an id"))
    ensures e.id.Some? && e.scope.None? ==> r == Err(IllegalArgument("Entry must have a scope"))
    ensures e.id.Some? && e.scope.Some? && e.key.None? ==> r == Err(IllegalArgument("Entry must have a key"))
  {
    if e.id.None? then Err(IllegalArgument("Entry must have an id"))
    else if e.scope.None? then Err(IllegalArgument("Entry must have a scope"))
    else if e.key.None? then Err(IllegalArgument("Entry must have a key"))
    else Ok(())
  }

  /** The four rows of the validation table test, with value and user id
      left as they come. */
  lemma ValidateExamples(u: Uuid, value: Bindings, owner: Option<Uuid>)
    ensures ValidateData(EntryData(Some(u), Some("s"), Some("k"), value, owner)) == Ok(())
    ensures ValidateData(EntryData(None, Some("s"), Some("k"), value, owner)).error.message
      == "Entry must have an id"
    ensures ValidateData(EntryData(Some(u), None, Some("k"), value, owner)).error.message
      == "Entry must have a scope"
    ensures ValidateData(EntryData(Some(u), Some("s"), None, value, owner)).error.message
      == "Entry must have a key"
  {
  }

  class Entry {
    var id: Option<Uuid>
    var scope: Option<string>
    var key: Option<string>
    var value: Bindings
    var userId: Option<Uuid>

    /** The value bag never holds a key twice. */
    ghost predicate Valid()
      reads this
    {
      DistinctKeys(value)
    }

    function Data(): EntryData
      reads this
    {
      EntryData(id, scope, key, value, userId)
    }

    /** new Entry(): every field null, an empty value bag. */
    constructor ()
      ensures Valid() && Data() == EntryData(None, None, None, [], None)
    {
      id, scope, key, value, userId := None, None, None, [], None;
    }

    method SetId(x: Option<Uuid>)
      modifies this`id
      ensures id == x
    {
      id := x;
    }

    method SetScope(x: Option<string>)
      modifies this`scope
      ensures scope == x
    {
      scope := x;
    }

    method SetKey(x: Option<string>)
      modifies this`key
      ensures key == x
    {
      key := x;
    }

    method SetUserId(x: Option<Uuid>)
      modifies this`userId
      ensures userId == x
    {
      userId := x;
    }

    /** setValue(k, v): value.put(k, v) on the LinkedHashMap. */
    method SetValue(k: string, v: Json)
      requires Valid()
      modifies this`value
      ensures Valid()
      ensures value == Put(old(value), k, v)
      ensures forall k' :: Lookup(value, k') == if k' == k then Some(v) else Lookup(old(value), k')
    {
      PutDistinct(value, k, v);
      forall k' ensures Lookup(Put(value, k, v), k') == if k' == k then Some(v) else Lookup(value, k') {
        PutLookup(value, k, v, k');
      }
      value := Put(value, k, v);
    }

    /**
     * getValue: a fresh JsonObject filled by putting every binding in
     * iteration order; it holds the same bindings in the same order and,
     * being a separate value, later changes to it leave the entry alone.
     */
    method GetValue() returns (r: Bindings)
      requires Valid()
      ensures r == value
    {
      r := [];
      var i := 0;
      while i < |value|
        invariant 0 <= i <= |value|
        invariant r == value[..i]
      {
        assert value[i].0 !in Keys(value[..i]);
        PutOrder(r, value[i].0, value[i].1);
        r := Put(r, value[i].0, value[i].1);
        assert value[..i + 1] == value[..i] + [value[i]];
        i := i + 1;
      }
      assert value[..i] == value;
    }

    /** validate(): IllegalArgumentException for the first missing field. */
    method Validate() returns (r: Result<()>)
      ensures r == ValidateData(Data())
    {
      if id.None? {
        r := Err(IllegalArgument("Entry must have an id"));
      } else if scope.None? {
        r := Err(IllegalArgument("Entry must have a scope"));
      } else if key.None? {
        r := Err(IllegalArgument("Entry must have a key"));
      } else {
        r := Ok(());
      }
    }
  }
}
