/**
 * org.folio.config.server.data.Entry: the legacy configuration entry.
 * The same five fields as a settings entry and the same LinkedHashMap
 * value bag, but nothing validates it: any field but the value bag may
 * stay null all the way to the database.
 */
module ConfigEntry {
  import opened Common
  import opened ValueMap
  import opened SettingsEntry

  class Entry {
    var id: Option<Uuid>
    var scope: Option<string>
    var key: Option<string>
    var value: Bindings
    var userId: Option<Uuid>

    /** The value bag never holds a key twice. */
    ghost predicate Valid()
      reads this
    {
      DistinctKeys(value)
    }

    function Data(): EntryData
      reads this
    {
      EntryData(id, scope, key, value, userId)
    }

    /** new Entry(): every field null, an empty value bag. */
    constructor ()
      ensures Valid() && Data() == EntryData(None, None, None, [], None)
    {
      id, scope, key, value, userId := None, None, None, [], None;
    }

    /** Each setter changes its own field and no other. */
    method SetId(x: Option<Uuid>)
      modifies this`id
      ensures id == x
    {
      id := x;
    }

    method SetScope(x: Option<string>)
      modifies this`scope
      ensures scope == x
    {
      scope := x;
    }

    method SetKey(x: Option<string>)
      modifies this`key
      ensures key == x
    {
      key := x;
    }

    method SetUserId(x: Option<Uuid>)
      modifies this`userId
      ensures userId == x
    {
      userId := x;
    }

    /** setValue(k, v): value.put(k, v). */
    method SetValue(k: string, v: Json)
      requires Valid()
      modifies this`value
      ensures Valid()
      ensures value == Put(old(value), k, v)
      ensures forall k' :: Lookup(value, k') == if k' == k then Some(v) else Lookup(old(value), k')
    {
      PutDistinct(value, k, v);
      forall k' ensures Lookup(Put(value, k, v), k') == if k' == k then Some(v) else Lookup(value, k') {
        PutLookup(value, k, v, k');
      }
      value := Put(value, k, v);
    }

    /**
     * getValue: a new JsonObject that every binding is put into; it maps
     * each key exactly as the bag does and holds no other key.
     */
    method GetValue() returns (r: Bindings)
      requires Valid()
      ensures forall k :: Lookup(r, k) == Lookup(value, k)
      ensures |r| == |value|
    {
      r := [];
      var i := 0;
      while i < |value|
        invariant 0 <= i <= |value|
        invariant r == value[..i]
      {
        assert value[i].0 !in Keys(value[..i]);
        PutOrder(r, value[i].0, value[i].1);
        r := Put(r, value[i].0, value[i].1);
        assert value[..i + 1] == value[..i] + [value[i]];
        i := i + 1;
      }
      assert value[..i] == value;
    }
  }
}
