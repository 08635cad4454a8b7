/**
 * TenantAddressesStorage: the tenant_addresses table (id primary key,
 * name unique and not null, address not null), its operations by id, the
 * listing ordered by name, and the one-time migration of the
 * tenant.addresses entries of mod-configuration.
 *
 * UUID text is foreign: `UuidText` carries UUID.fromString (an
 * IllegalArgumentException, or any other exception it throws, as an Err)
 * and UUID.toString. The database's reading of the canonical text
 * UUID.toString prints is taken to be that UUID.
 */
module TenantAddresses {
  import opened Common
  import opened StringUtil
  import opened NameOrder
  import opened Version
  import opened Paging

  datatype UuidText = UuidText(parse: string -> Result<Uuid>, format: Uuid -> string)

  /** toString and fromString agree: a printed UUID reads back as itself. */
  ghost predicate RoundTrips(u: UuidText) {
    forall x :: u.parse(u.format(x)) == Ok(x)
  }

  /** A TenantAddress object's fields; each may be null. */
  datatype AddressData = AddressData(id: Option<string>, name: Option<string>, address: Option<string>)

  datatype AddressRow = AddressRow(name: string, address: string)

  type Table = map<Uuid, AddressRow>

  /** The UNIQUE constraint on name. */
  predicate UniqueNames(t: Table) {
    forall i, j :: i in t && j in t && i != j ==> t[i].name != t[j].name
  }

  predicate NameTaken(t: Table, name: string) {
    exists j :: j in t && t[j].name == name
  }

  predicate NameTakenByOther(t: Table, id: Uuid, name: string) {
    exists j :: j in t && j != id && t[j].name == name
  }

  /** A row as a TenantAddress: the id as text. */
  function AsAddress(u: UuidText, id: Uuid, row: AddressRow): AddressData {
    AddressData(Some(u.format(id)), Some(row.name), Some(row.address))
  }

  // ---------------------------------------------------------------------
  // Listing
  // ---------------------------------------------------------------------

  /** Every entry of the table sorts no earlier than `name`. */
  predicate IsLeast(t: Table, name: string) {
    forall j :: j in t ==> LexLe(name, t[j].name)
  }

  /** The least name of the rest is the least of all when the removed entry's name is no smaller. */
  lemma LeastKept(t: Table, k: Uuid, m: Uuid)
    requires k in t && m in t && m != k
    requires IsLeast(t - {k}, t[m].name) && LexLe(t[m].name, t[k].name)
    ensures IsLeast(t, t[m].name)
  {
    forall j | j in t ensures LexLe(t[m].name, t[j].name) {
      if j != k {
        assert j in t - {k};
      }
    }
  }

  /** The removed entry's name is the least of all when it sorts before the rest's least. */
  lemma LeastRemoved(t: Table, k: Uuid, m: Uuid)
    requires k in t && m in t && m != k
    requires IsLeast(t - {k}, t[m].name) && LexLe(t[k].name, t[m].name)
    ensures IsLeast(t, t[k].name)
  {
    forall j | j in t ensures LexLe(t[k].name, t[j].name) {
      if j == k {
        LexLeRefl(t[k].name);
      } else {
        assert j in t - {k};
        LexLeTrans(t[k].name, t[m].name, t[j].name);
      }
    }
  }

  /** A non-empty table has an entry with the least name. */
  lemma {:induction false} LeastExists(t: Table)
    requires |t| > 0
    ensures exists id :: id in t && IsLeast(t, t[id].name)
    decreases |t|
  {
    var k :| k in t;
    var rest := t - {k};
    assert |rest| == |t| - 1;
    if |rest| == 0 {
      assert t.Keys == {k};
      LexLeRefl(t[k].name);
      assert IsLeast(t, t[k].name);
    } else {
      LeastExists(rest);
      var m :| m in rest && IsLeast(rest, rest[m].name);
      assert m in t && m != k && rest[m] == t[m];
      LexLeTotal(t[k].name, t[m].name);
      if LexLe(t[m].name, t[k].name) {
        LeastKept(t, k, m);
      } else {
        LeastRemoved(t, k, m);
      }
    }
  }

  /** Entries listed by strictly increasing name. */
  predicate Ascending(r: seq<(Uuid, AddressRow)>) {
    forall i, j :: 0 <= i < j < |r| ==> LexLe(r[i].1.name, r[j].1.name) && r[i].1.name != r[j].1.name
  }

  /** The entries of exactly the table `t`, each once. */
  ghost predicate Lists(r: seq<(Uuid, AddressRow)>, t: Table) {
    forall x :: x in r <==> x.0 in t && t[x.0] == x.1
  }

  /** Putting an entry before a listing of the others lists the table. */
  lemma ConsLists(t: Table, id: Uuid, tail: seq<(Uuid, AddressRow)>)
    requires id in t && Lists(tail, t - {id})
    ensures Lists([(id, t[id])] + tail, t)
  {
    var r := [(id, t[id])] + tail;
    forall x ensures x in r <==> x.0 in t && t[x.0] == x.1 {
      if x.0 in t && t[x.0] == x.1 && x.0 != id {
        assert x in tail;
      }
    }
  }

  /** Putting the least entry before an ascending listing of the others keeps it ascending. */
  lemma ConsAscending(t: Table, id: Uuid, tail: seq<(Uuid, AddressRow)>)
    requires UniqueNames(t) && id in t && IsLeast(t, t[id].name)
    requires Lists(tail, t - {id}) && Ascending(tail)
    ensures Ascending([(id, t[id])] + tail)
  {
    var r := [(id, t[id])] + tail;
    forall i, j | 0 <= i < j < |r| ensures LexLe(r[i].1.name, r[j].1.name) && r[i].1.name != r[j].1.name {
      if i == 0 {
        assert r[j] in tail;
        assert r[j].0 in t && r[j].0 != id;
      } else {
        assert r[i] == tail[i - 1] && r[j] == tail[j - 1];
      }
    }
  }

  /** ORDER BY name: the table's entries, each once, by increasing name. */
  function SortedByName(t: Table): (r: seq<(Uuid, AddressRow)>)
    requires UniqueNames(t)
    ensures |r| == |t|
    ensures forall x :: x in r <==> x.0 in t && t[x.0] == x.1
    ensures forall i, j :: 0 <= i < j < |r| ==> LexLe(r[i].1.name, r[j].1.name) && r[i].1.name != r[j].1.name
    decreases |t|
  {
    if |t| == 0 then []
    else
      LeastExists(t);
      LeastUnique(t);
      var id :| id in t && IsLeast(t, t[id].name);
      var rest := t - {id};
      assert UniqueNames(rest);
      var tail := SortedByName(rest);
      ConsLists(t, id, tail);
      ConsAscending(t, id, tail);
      assert |rest| == |t| - 1;
      [(id, t[id])] + tail
  }

  /** With unique names, one entry at most has the least name. */
  lemma LeastUnique(t: Table)
    requires UniqueNames(t)
    ensures forall id1, id2 :: id1 in t && IsLeast(t, t[id1].name) && id2 in t && IsLeast(t, t[id2].name) ==> id1 == id2
  {
    forall id1, id2 | id1 in t && IsLeast(t, t[id1].name) && id2 in t && IsLeast(t, t[id2].name)
      ensures id1 == id2
    {
      if id1 != id2 {
        LexLeAntisym(t[id1].name, t[id2].name);
      }
    }
  }

  /**
   * The listing of `getTenantAddresses`: PostgreSQL refuses a negative
   * OFFSET (checked first) and a negative LIMIT; otherwise the page of the
   * rows ordered by name, each as a TenantAddress.
   */
  function ListSpec(t: Table, u: UuidText, offset: int, limit: int): Result<seq<AddressData>>
    requires UniqueNames(t)
  {
    if offset < 0 then Err(PgError(InvalidRowCountInOffset))
    else if limit < 0 then Err(PgError(InvalidRowCountInLimit))
    else Ok(AsAddresses(u, Page(SortedByName(t), offset, limit)))
  }

  /** Rows as TenantAddresses, in their order. */
  function AsAddresses(u: UuidText, p: seq<(Uuid, AddressRow)>): (r: seq<AddressData>)
    ensures |r| == |p| && forall i :: 0 <= i < |p| ==> r[i] == AsAddress(u, p[i].0, p[i].1)
  {
    seq(|p|, i requires 0 <= i < |p| => AsAddress(u, p[i].0, p[i].1))
  }

  /**
   * What a listing holds: at most `limit` addresses, each a row of the
   * table, by strictly increasing name; offset 0 with a limit covering the
   * table lists every row.
   */
  lemma ListMeaning(t: Table, u: UuidText, offset: int, limit: int)
    requires UniqueNames(t)
    ensures var r := ListSpec(t, u, offset, limit);
      && (r.Ok? <==> offset >= 0 && limit >= 0)
      && (offset < 0 ==> r == Err(PgError(InvalidRowCountInOffset)))
      && (r.Ok? ==>
            && |r.value| <= limit
            && (forall i :: 0 <= i < |r.value| ==>
                  exists x :: x in t && r.value[i] == AsAddress(u, x, t[x]))
            && (forall i, j :: 0 <= i < j < |r.value| ==>
                  LexLe(r.value[i].name.value, r.value[j].name.value)
                  && r.value[i].name != r.value[j].name)
            && (offset == 0 && limit >= |t| ==>
                  forall x :: x in t ==> AsAddress(u, x, t[x]) in r.value))
  {
    if offset >= 0 && limit >= 0 {
      ListRows(t, u, offset, limit);
      ListOrdered(t, u, offset, limit);
      if offset == 0 && limit >= |t| {
        ListAll(t, u, limit);
      }
    }
  }

  /** Each listed address is a row of the table. */
  lemma ListRows(t: Table, u: UuidText, offset: nat, limit: nat)
    requires UniqueNames(t)
    ensures forall i :: 0 <= i < |ListSpec(t, u, offset, limit).value| ==>
      exists x :: x in t && ListSpec(t, u, offset, limit).value[i] == AsAddress(u, x, t[x])
  {
    var sorted := SortedByName(t);
    var p := Page(sorted, offset, limit);
    var r := ListSpec(t, u, offset, limit).value;
    forall i | 0 <= i < |r| ensures exists x :: x in t && r[i] == AsAddress(u, x, t[x]) {
      assert p[i] in sorted;
      assert r[i] == AsAddress(u, p[i].0, t[p[i].0]);
    }
  }

  /** A listing is by strictly increasing name. */
  lemma ListOrdered(t: Table, u: UuidText, offset: nat, limit: nat)
    requires UniqueNames(t)
    ensures var r := ListSpec(t, u, offset, limit).value;
      forall i, j :: 0 <= i < j < |r| ==>
        LexLe(r[i].name.value, r[j].name.value) && r[i].name != r[j].name
  {
    var sorted := SortedByName(t);
    var p := Page(sorted, offset, limit);
    var r := ListSpec(t, u, offset, limit).value;
    forall i, j | 0 <= i < j < |r| ensures LexLe(r[i].name.value, r[j].name.value) && r[i].name != r[j].name {
      assert p[i] == sorted[offset + i] && p[j] == sorted[offset + j];
    }
  }

  /** A first page as long as the table lists every row. */
  lemma ListAll(t: Table, u: UuidText, limit: nat)
    requires UniqueNames(t) && limit >= |t|
    ensures forall x :: x in t ==> AsAddress(u, x, t[x]) in ListSpec(t, u, 0, limit).value
  {
    var sorted := SortedByName(t);
    var r := ListSpec(t, u, 0, limit).value;
    assert Page(sorted, 0, limit) == sorted;
    forall x | x in t ensures AsAddress(u, x, t[x]) in r {
      assert (x, t[x]) in sorted;
      var i :| 0 <= i < |sorted| && sorted[i] == (x, t[x]);
      assert r[i] == AsAddress(u, x, t[x]);
    }
  }

  /** Converting rows commutes with concatenating them. */
  lemma AsAddressesAppend(u: UuidText, p: seq<(Uuid, AddressRow)>, q: seq<(Uuid, AddressRow)>)
    ensures AsAddresses(u, p + q) == AsAddresses(u, p) + AsAddresses(u, q)
  {
    var l := AsAddresses(u, p + q);
    var l1 := AsAddresses(u, p);
    var l2 := AsAddresses(u, q);
    forall i | 0 <= i < |l| ensures l[i] == (l1 + l2)[i] {
      if i < |p| {
        assert (p + q)[i] == p[i];
      } else {
        assert (p + q)[i] == q[i - |p|];
      }
    }
  }

  /**
   * Paging through the listing: the page at `offset` of size `a`, then the
   * page right after it of size `b`, together are the page of size a + b.
   */
  lemma ListPages(t: Table, u: UuidText, offset: nat, a: nat, b: nat)
    requires UniqueNames(t)
    ensures ListSpec(t, u, offset, a).value + ListSpec(t, u, offset + a, b).value
      == ListSpec(t, u, offset, a + b).value
  {
    var sorted := SortedByName(t);
    PagesPartition(sorted, offset, a, b);
    AsAddressesAppend(u, Page(sorted, offset, a), Page(sorted, offset + a, b));
  }

  // ---------------------------------------------------------------------
  // Operations by id
  // ---------------------------------------------------------------------

  /**
   * updateTenantAddressIdIfNeeded: the UUID the id text reads as, or the
   * random UUID when the text is null or does not parse.
   */
  function CanonicalId(u: UuidText, id: Option<string>, random: Uuid): Uuid {
    if id.Some? && u.parse(id.value).Ok? then u.parse(id.value).value else random
  }

  /** The address with its id replaced by the printed canonical id. */
  function WithCanonicalId(u: UuidText, a: AddressData, id: Option<string>, random: Uuid): AddressData {
    a.(id := Some(u.format(CanonicalId(u, id, random))))
  }

  /**
   * Normalising an id keeps the UUID it denotes: a parseable id keeps its
   * UUID and only its spelling may change, a printed id is kept as it is,
   * and so normalising twice is normalising once.
   */
  lemma CanonicalIdMeaning(u: UuidText, a: AddressData, random: Uuid, random': Uuid)
    requires RoundTrips(u)
    ensures a.id.Some? && u.parse(a.id.value).Ok? ==>
      u.parse(WithCanonicalId(u, a, a.id, random).id.value) == u.parse(a.id.value)
    ensures (a.id.None? || u.parse(a.id.value).Err?) ==>
      u.parse(WithCanonicalId(u, a, a.id, random).id.value) == Ok(random)
    ensures var a1 := WithCanonicalId(u, a, a.id, random);
      WithCanonicalId(u, a1, a1.id, random') == a1
  {
  }

  datatype Outcome<T> = Outcome(result: Result<T>, table: Table)

  /**
   * getTenantAddress: an id that does not parse fails as UUID.fromString
   * does; no row is a NotFoundException.
   */
  function GetSpec(t: Table, u: UuidText, idText: string): Result<AddressData> {
    match u.parse(idText)
    case Err(e) => Err(e)
    case Ok(x) => if x !in t then Err(NotFound) else Ok(AsAddress(u, x, t[x]))
  }

  /**
   * createTenantAddress: the id is normalised first (even when the insert
   * then fails); the INSERT fails on a null name or address (NOT NULL), on
   * a taken id (the primary key, checked first) and on a taken name
   * (UNIQUE); otherwise the row is added and the normalised address is the
   * answer.
   */
  function CreateSpec(t: Table, u: UuidText, a: AddressData, random: Uuid): Outcome<AddressData> {
    var x := CanonicalId(u, a.id, random);
    if a.name.None? || a.address.None? then Outcome(Err(PgError(NotNullViolation)), t)
    else if x in t || NameTaken(t, a.name.value) then Outcome(Err(PgError(UniqueViolation)), t)
    else Outcome(Ok(WithCanonicalId(u, a, a.id, random)), t[x := AddressRow(a.name.value, a.address.value)])
  }

  /**
   * updateTenantAddress: UPDATE ... WHERE id; no row is NotFound, a null
   * column violates NOT NULL, the name of another row violates UNIQUE.
   */
  function UpdateSpec(t: Table, u: UuidText, idText: string, a: AddressData): Outcome<()> {
    match u.parse(idText)
    case Err(e) => Outcome(Err(e), t)
    case Ok(x) =>
      if x !in t then Outcome(Err(NotFound), t)
      else if a.name.None? || a.address.None? then Outcome(Err(PgError(NotNullViolation)), t)
      else if NameTakenByOther(t, x, a.name.value) then Outcome(Err(PgError(UniqueViolation)), t)
      else Outcome(Ok(()), t[x := AddressRow(a.name.value, a.address.value)])
  }

  /** deleteTenantAddress: DELETE ... WHERE id; no row is NotFound. */
  function DeleteSpec(t: Table, u: UuidText, idText: string): Outcome<()> {
    match u.parse(idText)
    case Err(e) => Outcome(Err(e), t)
    case Ok(x) => if x !in t then Outcome(Err(NotFound), t) else Outcome(Ok(()), t - {x})
  }

  /** An id that parses to no row: get, update and delete fail with NotFound and change nothing. */
  lemma NotFoundById(t: Table, u: UuidText, idText: string, a: AddressData)
    requires u.parse(idText).Ok? && u.parse(idText).value !in t
    ensures GetSpec(t, u, idText) == Err(NotFound)
    ensures UpdateSpec(t, u, idText, a) == Outcome(Err(NotFound), t)
    ensures DeleteSpec(t, u, idText) == Outcome(Err(NotFound), t)
  {
  }

  /** An id text that does not parse fails every operation by id with the parse error. */
  lemma UnparsableId(t: Table, u: UuidText, idText: string, a: AddressData)
    requires u.parse(idText).Err?
    ensures GetSpec(t, u, idText) == Err(u.parse(idText).error)
    ensures UpdateSpec(t, u, idText, a) == Outcome(Err(u.parse(idText).error), t)
    ensures DeleteSpec(t, u, idText) == Outcome(Err(u.parse(idText).error), t)
  {
  }

  /**
   * create adds exactly the normalised row when the id and the name are
   * free, fails leaving the table alone otherwise, and keeps names unique.
   */
  lemma CreateEffect(t: Table, u: UuidText, a: AddressData, random: Uuid)
    requires UniqueNames(t)
    ensures var o := CreateSpec(t, u, a, random); var x := CanonicalId(u, a.id, random);
      && UniqueNames(o.table)
      && (o.result.Ok? <==> a.name.Some? && a.address.Some? && x !in t && !NameTaken(t, a.name.value))
      && (o.result.Ok? ==>
            && o.table.Keys == t.Keys + {x} && x !in t
            && o.table[x] == AddressRow(a.name.value, a.address.value)
            && (forall y :: y in t ==> o.table[y] == t[y])
            && o.result.value == a.(id := Some(u.format(x))))
      && (o.result.Err? ==> o.table == t)
  {
    var o := CreateSpec(t, u, a, random);
    if o.result.Ok? {
      var x := CanonicalId(u, a.id, random);
      forall i, j | i in o.table && j in o.table && i != j ensures o.table[i].name != o.table[j].name {
        if i == x {
          assert j in t;
        } else if j == x {
          assert i in t;
        }
      }
    }
  }

  /** The address create answers is the one a get by its id then reads back. */
  lemma CreateThenGet(t: Table, u: UuidText, a: AddressData, random: Uuid)
    requires RoundTrips(u)
    requires CreateSpec(t, u, a, random).result.Ok?
    ensures var o := CreateSpec(t, u, a, random);
      GetSpec(o.table, u, o.result.value.id.value) == Ok(o.result.value)
  {
    var x := CanonicalId(u, a.id, random);
    assert u.parse(u.format(x)) == Ok(x);
  }

  /**
   * update rewrites name and address of that id only, keeps the set of
   * ids and keeps names unique; it succeeds exactly when the row exists,
   * both columns are given and no other row has the name (its own name may
   * be kept).
   */
  lemma UpdateEffect(t: Table, u: UuidText, idText: string, a: AddressData)
    requires UniqueNames(t)
    ensures var o := UpdateSpec(t, u, idText, a);
      && UniqueNames(o.table)
      && (o.result.Ok? <==>
            && u.parse(idText).Ok? && u.parse(idText).value in t
            && a.name.Some? && a.address.Some?
            && !NameTakenByOther(t, u.parse(idText).value, a.name.value))
      && (o.result.Ok? ==>
            var x := u.parse(idText).value;
            && o.table.Keys == t.Keys
            && o.table[x] == AddressRow(a.name.value, a.address.value)
            && (forall y :: y in t && y != x ==> o.table[y] == t[y]))
      && (o.result.Err? ==> o.table == t)
  {
    var o := UpdateSpec(t, u, idText, a);
    if o.result.Ok? {
      var x := u.parse(idText).value;
      forall i, j | i in o.table && j in o.table && i != j ensures o.table[i].name != o.table[j].name {
        if i == x {
          assert j in t && j != x;
        } else if j == x {
          assert i in t && i != x;
        }
      }
    }
  }

  /** delete removes that id only, and succeeds exactly when the row exists. */
  lemma DeleteEffect(t: Table, u: UuidText, idText: string)
    requires UniqueNames(t)
    ensures var o := DeleteSpec(t, u, idText);
      && UniqueNames(o.table)
      && (o.result.Ok? <==> u.parse(idText).Ok? && u.parse(idText).value in t)
      && (o.result.Ok? ==>
            o.table.Keys == t.Keys - {u.parse(idText).value}
            && (forall y :: y in o.table ==> o.table[y] == t[y]))
      && (o.result.Err? ==> o.table == t)
  {
  }

  // ---------------------------------------------------------------------
  // Migration from mod-configuration
  // ---------------------------------------------------------------------

  /**
   * One element of the "configs" array: its id, and its value read as a
   * TenantAddress, None where the value is missing, is not JSON or does
   * not map onto a TenantAddress.
   */
  datatype ConfigItem = ConfigItem(id: Option<string>, value: Option<AddressData>)

  /** An address to insert: the UUID of its id column and the address. */
  type Migrated = (Uuid, AddressData)

  /**
   * parseAddress: nothing for an unreadable value or a blank name;
   * otherwise the address with the config entry's id, normalised (a
   * random one when that id is missing or does not parse).
   */
  function ParseAddress(u: UuidText, id: Option<string>, value: Option<AddressData>, random: Uuid): (r: Option<Migrated>)
    ensures r.Some? <==> value.Some? && !IsBlank(value.value.name)
    ensures r.Some? ==>
      r.value.1 == WithCanonicalId(u, value.value, id, random) && r.value.0 == CanonicalId(u, id, random)
  {
    if value.None? || IsBlank(value.value.name) then None
    else Some((CanonicalId(u, id, random), WithCanonicalId(u, value.value, id, random)))
  }

  /**
   * What the collection loop leaves: the addresses to insert, None when it
   * stopped early, and the ids of the DELETE requests it has sent.
   */
  datatype Collected = Collected(addresses: Option<seq<Migrated>>, deletions: seq<string>)

  /**
   * The loop over "configs" from element i on, with what earlier elements
   * collected: each element's address is parsed and kept, then a blank id
   * stops the loop with no addresses, and any other id has its entry
   * deleted.
   */
  function CollectFrom(u: UuidText, cs: seq<ConfigItem>, randoms: seq<Uuid>, i: nat,
                       addresses: seq<Migrated>, deletions: seq<string>): Collected
    requires |randoms| == |cs| && i <= |cs|
    decreases |cs| - i
  {
    if i == |cs| then Collected(Some(addresses), deletions)
    else
      var parsed := ParseAddress(u, cs[i].id, cs[i].value, randoms[i]);
      var addresses' := if parsed.Some? then addresses + [parsed.value] else addresses;
      if IsBlank(cs[i].id) then Collected(None, deletions)
      else CollectFrom(u, cs, randoms, i + 1, addresses', deletions + [cs[i].id.value])
  }

  /** The position of the first blank id, or the length when there is none. */
  function FirstBlank(cs: seq<ConfigItem>): (k: nat)
    ensures k <= |cs|
    ensures forall j :: 0 <= j < k ==> !IsBlank(cs[j].id)
    ensures k < |cs| ==> IsBlank(cs[k].id)
  {
    if cs == [] then 0
    else if IsBlank(cs[0].id) then 0
    else 1 + FirstBlank(cs[1..])
  }

  /** Every address the configs yield, in order. */
  function ParsedAll(u: UuidText, cs: seq<ConfigItem>, randoms: seq<Uuid>): seq<Migrated>
    requires |randoms| == |cs|
  {
    if cs == [] then []
    else
      var parsed := ParseAddress(u, cs[0].id, cs[0].value, randoms[0]);
      (if parsed.Some? then [parsed.value] else []) + ParsedAll(u, cs[1..], randoms[1..])
  }

  /** The ids of configs none of which has a blank id. */
  function Ids(cs: seq<ConfigItem>): (r: seq<string>)
    requires forall j :: 0 <= j < |cs| ==> cs[j].id.Some?
    ensures |r| == |cs| && forall j :: 0 <= j < |cs| ==> r[j] == cs[j].id.value
  {
    if cs == [] then [] else [cs[0].id.value] + Ids(cs[1..])
  }

  /** The loop from element i on stops early exactly when a blank id follows. */
  lemma {:induction false} CollectFromAborts(u: UuidText, cs: seq<ConfigItem>, randoms: seq<Uuid>, i: nat,
                                             addresses: seq<Migrated>, deletions: seq<string>)
    requires |randoms| == |cs| && i <= |cs|
    ensures CollectFrom(u, cs, randoms, i, addresses, deletions).addresses.None? <==> i + FirstBlank(cs[i..]) < |cs|
    decreases |cs| - i
  {
    if i < |cs| {
      assert cs[i..][0] == cs[i];
      if !IsBlank(cs[i].id) {
        var parsed := ParseAddress(u, cs[i].id, cs[i].value, randoms[i]);
        var addresses' := if parsed.Some? then addresses + [parsed.value] else addresses;
        CollectFromAborts(u, cs, randoms, i + 1, addresses', deletions + [cs[i].id.value]);
        CollectStep(u, cs, randoms, i);
      }
    }
  }

  /** The ids of the configs before the first blank id, in order. */
  function IdsBeforeBlank(cs: seq<ConfigItem>): seq<string> {
    if cs == [] || IsBlank(cs[0].id) then [] else [cs[0].id.value] + IdsBeforeBlank(cs[1..])
  }

  /** They are the ids of the prefix FirstBlank measures. */
  lemma {:induction false} IdsBeforeBlankPrefix(cs: seq<ConfigItem>)
    ensures IdsBeforeBlank(cs) == Ids(cs[..FirstBlank(cs)])
  {
    if cs != [] && !IsBlank(cs[0].id) {
      IdsBeforeBlankPrefix(cs[1..]);
      var k := FirstBlank(cs);
      assert cs[..k][1..] == cs[1..][..k - 1];
    }
  }

  /** The loop from element i on deletes the entries before the first blank id. */
  lemma {:induction false} CollectFromDeletes(u: UuidText, cs: seq<ConfigItem>, randoms: seq<Uuid>, i: nat,
                                              addresses: seq<Migrated>, deletions: seq<string>)
    requires |randoms| == |cs| && i <= |cs|
    ensures CollectFrom(u, cs, randoms, i, addresses, deletions).deletions == deletions + IdsBeforeBlank(cs[i..])
    decreases |cs| - i
  {
    if i == |cs| {
      assert cs[i..] == [];
    } else {
      assert cs[i..][0] == cs[i];
      if !IsBlank(cs[i].id) {
        var parsed := ParseAddress(u, cs[i].id, cs[i].value, randoms[i]);
        var addresses' := if parsed.Some? then addresses + [parsed.value] else addresses;
        var dels' := deletions + [cs[i].id.value];
        assert CollectFrom(u, cs, randoms, i, addresses, deletions) == CollectFrom(u, cs, randoms, i + 1, addresses', dels');
        CollectFromDeletes(u, cs, randoms, i + 1, addresses', dels');
        assert cs[i..][1..] == cs[i + 1..];
        assert IdsBeforeBlank(cs[i..]) == [cs[i].id.value] + IdsBeforeBlank(cs[i + 1..]);
      }
    }
  }

  /** When the loop from element i on runs to the end, it yields every parsed address. */
  lemma {:induction false} CollectFromAddresses(u: UuidText, cs: seq<ConfigItem>, randoms: seq<Uuid>, i: nat,
                                                addresses: seq<Migrated>, deletions: seq<string>)
    requires |randoms| == |cs| && i <= |cs|
    ensures var c := CollectFrom(u, cs, randoms, i, addresses, deletions);
      c.addresses.Some? ==> c.addresses.value == addresses + ParsedAll(u, cs[i..], randoms[i..])
    decreases |cs| - i
  {
    if i == |cs| {
      assert cs[i..] == [];
    } else if !IsBlank(cs[i].id) {
      var parsed := ParseAddress(u, cs[i].id, cs[i].value, randoms[i]);
      var head := if parsed.Some? then [parsed.value] else [];
      var addresses' := if parsed.Some? then addresses + [parsed.value] else addresses;
      assert addresses' == addresses + head;
      assert CollectFrom(u, cs, randoms, i, addresses, deletions)
        == CollectFrom(u, cs, randoms, i + 1, addresses', deletions + [cs[i].id.value]);
      CollectFromAddresses(u, cs, randoms, i + 1, addresses', deletions + [cs[i].id.value]);
      CollectStep(u, cs, randoms, i);
      assert addresses' + ParsedAll(u, cs[i + 1..], randoms[i + 1..])
        == addresses + ParsedAll(u, cs[i..], randoms[i..]);
    }
  }

  /** Unfolding FirstBlank, Ids and ParsedAll at an element with an id. */
  lemma CollectStep(u: UuidText, cs: seq<ConfigItem>, randoms: seq<Uuid>, i: nat)
    requires |randoms| == |cs| && i < |cs| && !IsBlank(cs[i].id)
    ensures FirstBlank(cs[i..]) == 1 + FirstBlank(cs[i + 1..])
    ensures var k := i + FirstBlank(cs[i..]);
      Ids(cs[i..k]) == [cs[i].id.value] + Ids(cs[i + 1..k])
    ensures var parsed := ParseAddress(u, cs[i].id, cs[i].value, randoms[i]);
      ParsedAll(u, cs[i..], randoms[i..])
        == (if parsed.Some? then [parsed.value] else []) + ParsedAll(u, cs[i + 1..], randoms[i + 1..])
  {
    assert cs[i..][0] == cs[i];
    assert cs[i..][1..] == cs[i + 1..];
    assert randoms[i..][1..] == randoms[i + 1..];
    var k := i + FirstBlank(cs[i..]);
    assert cs[i..k][1..] == cs[i + 1..k];
  }

  /** The collection of all configs. */
  function CollectSpec(u: UuidText, cs: seq<ConfigItem>, randoms: seq<Uuid>): Collected
    requires |randoms| == |cs|
  {
    CollectFrom(u, cs, randoms, 0, [], [])
  }

  /**
   * A blank id anywhere leaves nothing to insert, yet the entries before
   * the first blank id have already been deleted from mod-configuration;
   * without one, every parsed address is inserted and every entry deleted.
   */
  lemma CollectMeaning(u: UuidText, cs: seq<ConfigItem>, randoms: seq<Uuid>)
    requires |randoms| == |cs|
    ensures var c := CollectSpec(u, cs, randoms); var k := FirstBlank(cs);
      && (c.addresses.None? <==> exists j :: 0 <= j < |cs| && IsBlank(cs[j].id))
      && c.deletions == Ids(cs[..k])
      && (c.addresses.Some? ==> c.addresses.value == ParsedAll(u, cs, randoms) && c.deletions == Ids(cs))
  {
    CollectFromAborts(u, cs, randoms, 0, [], []);
    CollectFromDeletes(u, cs, randoms, 0, [], []);
    IdsBeforeBlankPrefix(cs);
    CollectFromAddresses(u, cs, randoms, 0, [], []);
    assert cs[0..] == cs && randoms[0..] == randoms;
    assert cs[..|cs|] == cs;
  }

  /**
   * One `INSERT ... ON CONFLICT (name) DO NOTHING`: NOT NULL is checked
   * first, a taken name skips the row, a taken id violates the primary key.
   */
  function InsertMigratedOne(t: Table, m: Migrated): Outcome<()> {
    var a := m.1;
    if a.name.None? || a.address.None? then Outcome(Err(PgError(NotNullViolation)), t)
    else if NameTaken(t, a.name.value) then Outcome(Ok(()), t)
    else if m.0 in t then Outcome(Err(PgError(UniqueViolation)), t)
    else Outcome(Ok(()), t[m.0 := AddressRow(a.name.value, a.address.value)])
  }

  /**
   * insertMigratedAddresses: every insert runs; the result is the first
   * failure, or success.
   */
  function InsertMigratedSpec(t: Table, ms: seq<Migrated>): Outcome<()>
    decreases |ms|
  {
    if ms == [] then Outcome(Ok(()), t)
    else
      var first := InsertMigratedOne(t, ms[0]);
      var rest := InsertMigratedSpec(first.table, ms[1..]);
      Outcome(if first.result.Err? then first.result else rest.result, rest.table)
  }

  /** One migrated insert keeps names unique and the rows there, and adds at most its own row. */
  lemma InsertOneKeeps(t: Table, m: Migrated)
    requires UniqueNames(t)
    ensures var t1 := InsertMigratedOne(t, m).table;
      && UniqueNames(t1)
      && (forall x :: x in t ==> x in t1 && t1[x] == t[x])
      && (forall x :: x in t1 && x !in t ==>
            x == m.0 && m.1.name == Some(t1[x].name) && m.1.address == Some(t1[x].address))
  {
    var t1 := InsertMigratedOne(t, m).table;
    if t1 != t {
      forall i, j | i in t1 && j in t1 && i != j ensures t1[i].name != t1[j].name {
        if i == m.0 {
          assert j in t;
        } else if j == m.0 {
          assert i in t;
        }
      }
    }
  }

  /**
   * Migrated inserts never touch an existing row (an address whose name is
   * taken is skipped), only add rows carrying a migrated address, and keep
   * names unique.
   */
  lemma {:induction false} InsertMigratedKeeps(t: Table, ms: seq<Migrated>)
    requires UniqueNames(t)
    ensures var t' := InsertMigratedSpec(t, ms).table;
      && UniqueNames(t')
      && (forall x :: x in t ==> x in t' && t'[x] == t[x])
      && (forall x :: x in t' && x !in t ==>
            exists i :: 0 <= i < |ms| && ms[i].0 == x
              && ms[i].1.name == Some(t'[x].name) && ms[i].1.address == Some(t'[x].address))
    decreases |ms|
  {
    if ms != [] {
      var t1 := InsertMigratedOne(t, ms[0]).table;
      InsertOneKeeps(t, ms[0]);
      InsertMigratedKeeps(t1, ms[1..]);
      var t' := InsertMigratedSpec(t, ms).table;
      assert t' == InsertMigratedSpec(t1, ms[1..]).table;
      forall x | x in t' && x !in t
        ensures exists i :: 0 <= i < |ms| && ms[i].0 == x
                   && ms[i].1.name == Some(t'[x].name) && ms[i].1.address == Some(t'[x].address)
      {
        if x in t1 {
          assert ms[0].0 == x && t'[x] == t1[x];
        } else {
          var i :| 0 <= i < |ms[1..]| && ms[1..][i].0 == x
                   && ms[1..][i].1.name == Some(t'[x].name) && ms[1..][i].1.address == Some(t'[x].address);
          assert ms[i + 1] == ms[1..][i];
        }
      }
    }
  }

  /** An address whose name is already stored is skipped without an error. */
  lemma TakenNameSkipped(t: Table, m: Migrated)
    requires m.1.name.Some? && m.1.address.Some? && NameTaken(t, m.1.name.value)
    ensures InsertMigratedOne(t, m) == Outcome(Ok(()), t)
  {
  }

  /**
   * The answer of mod-configuration to the GET of the tenant.addresses
   * entries: not usable (a status other than 200, or any failure, which is
   * ignored), or its "configs" (an absent array read as an empty one).
   */
  datatype ConfigsAnswer = NotOk | Configs(items: seq<ConfigItem>)

  /** A migration's result, its table and the entries it deleted in mod-configuration. */
  datatype Migration = Migration(outcome: Outcome<()>, deletions: seq<string>)

  /**
   * migrateData: skipped for a tenant at 1.3.0 or later, for an unusable
   * answer and for no configs; otherwise the collected addresses are
   * inserted, unless the collection stopped early.
   */
  function MigrationSpec(t: Table, u: UuidText, oldVersion: SemVer, answer: ConfigsAnswer, randoms: seq<Uuid>): Migration
    requires answer.Configs? ==> |randoms| == |answer.items|
  {
    if !Migrates(oldVersion) || answer.NotOk? || |answer.items| == 0 then Migration(Outcome(Ok(()), t), [])
    else
      var c := CollectSpec(u, answer.items, randoms);
      if c.addresses.None? then Migration(Outcome(Ok(()), t), c.deletions)
      else Migration(InsertMigratedSpec(t, c.addresses.value), c.deletions)
  }

  /**
   * A tenant at 1.3.0 or later, an unusable answer or a blank id leave the
   * table as it was and the migration successful; a migration never
   * changes a row that was there before and keeps names unique.
   */
  lemma MigrationEffect(t: Table, u: UuidText, oldVersion: SemVer, answer: ConfigsAnswer, randoms: seq<Uuid>)
    requires UniqueNames(t)
    requires answer.Configs? ==> |randoms| == |answer.items|
    ensures var m := MigrationSpec(t, u, oldVersion, answer, randoms);
      && UniqueNames(m.outcome.table)
      && (forall x :: x in t ==> x in m.outcome.table && m.outcome.table[x] == t[x])
      && (!Migrates(oldVersion) || answer.NotOk? ==> m == Migration(Outcome(Ok(()), t), []))
      && (answer.Configs? && (exists j :: 0 <= j < |answer.items| && IsBlank(answer.items[j].id)) ==>
            m.outcome == Outcome(Ok(()), t))
  {
    if answer.Configs? {
      CollectMeaning(u, answer.items, randoms);
      var c := CollectSpec(u, answer.items, randoms);
      if c.addresses.Some? {
        InsertMigratedKeeps(t, c.addresses.value);
      }
    }
  }

  // ---------------------------------------------------------------------
  // The objects
  // ---------------------------------------------------------------------

  /** A TenantAddress record; the storage rewrites its id in place. */
  class TenantAddress {
    var id: Option<string>
    var name: Option<string>
    var address: Option<string>

    function Data(): AddressData
      reads this
    {
      AddressData(id, name, address)
    }

    constructor (d: AddressData)
      ensures Data() == d
    {
      id, name, address := d.id, d.name, d.address;
    }

    /**
     * updateTenantAddressIdIfNeeded: set the id to the printed UUID that
     * `text` reads as, or to the printed random UUID; answer that UUID.
     */
    method UpdateIdIfNeeded(u: UuidText, text: Option<string>, random: Uuid) returns (x: Uuid)
      modifies this`id
      ensures x == CanonicalId(u, text, random)
      ensures Data() == WithCanonicalId(u, old(Data()), text, random)
    {
      if text.Some? && u.parse(text.value).Ok? {
        x := u.parse(text.value).value;
      } else {
        x := random;
      }
      id := Some(u.format(x));
    }
  }

  /**
   * TenantAddressesStorage over the tenant's tenant_addresses table, whose
   * rows are `rows`; `Valid` is the table's UNIQUE constraint on name.
   */
  class TenantAddressesStorage {
    var rows: Table

    ghost predicate Valid()
      reads this
    {
      UniqueNames(rows)
    }

    /** CREATE TABLE IF NOT EXISTS on a table that does not exist yet. */
    constructor ()
      ensures Valid() && rows == map[]
    {
      rows := map[];
    }

    method GetTenantAddresses(u: UuidText, offset: int, limit: int) returns (r: Result<seq<AddressData>>)
      requires Valid()
      ensures r == ListSpec(rows, u, offset, limit)
    {
      if offset < 0 {
        return Err(PgError(InvalidRowCountInOffset));
      } else if limit < 0 {
        return Err(PgError(InvalidRowCountInLimit));
      }
      r := ListSpec(rows, u, offset, limit);
    }

    method GetTenantAddress(u: UuidText, idText: string) returns (r: Result<AddressData>)
      ensures r == GetSpec(rows, u, idText)
    {
      var parsed := u.parse(idText);
      if parsed.Err? {
        return Err(parsed.error);
      }
      if parsed.value !in rows {
        return Err(NotFound);
      }
      r := Ok(AsAddress(u, parsed.value, rows[parsed.value]));
    }

    /**
     * createTenantAddress: the address object gets its normalised id
     * before the INSERT runs, and is the answer when the INSERT succeeds.
     */
    method CreateTenantAddress(u: UuidText, address: TenantAddress, random: Uuid) returns (r: Result<AddressData>)
      requires Valid()
      modifies this, address
      ensures Valid()
      ensures var o := CreateSpec(old(rows), u, old(address.Data()), random);
        r == o.result && rows == o.table
      ensures address.Data() == WithCanonicalId(u, old(address.Data()), old(address.id), random)
    {
      CreateEffect(rows, u, address.Data(), random);
      var x := address.UpdateIdIfNeeded(u, address.id, random);
      var a := address.Data();
      if a.name.None? || a.address.None? {
        return Err(PgError(NotNullViolation));
      }
      if x in rows || NameTaken(rows, a.name.value) {
        return Err(PgError(UniqueViolation));
      }
      rows := rows[x := AddressRow(a.name.value, a.address.value)];
      r := Ok(a);
    }

    method UpdateTenantAddress(u: UuidText, idText: string, a: AddressData) returns (r: Result<()>)
      requires Valid()
      modifies this
      ensures Valid()
      ensures var o := UpdateSpec(old(rows), u, idText, a);
        r == o.result && rows == o.table
    {
      UpdateEffect(rows, u, idText, a);
      var o := UpdateSpec(rows, u, idText, a);
      rows := o.table;
      r := o.result;
    }

    method DeleteTenantAddress(u: UuidText, idText: string) returns (r: Result<()>)
      requires Valid()
      modifies this
      ensures Valid()
      ensures var o := DeleteSpec(old(rows), u, idText);
        r == o.result && rows == o.table
    {
      DeleteEffect(rows, u, idText);
      var parsed := u.parse(idText);
      if parsed.Err? {
        return Err(parsed.error);
      }
      if parsed.value !in rows {
        return Err(NotFound);
      }
      rows := rows - {parsed.value};
      r := Ok(());
    }

    /**
     * init: the table exists already or is created empty; then the data
     * of mod-configuration is migrated. Answers the ids of the entries it
     * deleted there.
     */
    method Init(u: UuidText, oldVersion: SemVer, answer: ConfigsAnswer, randoms: seq<Uuid>)
      returns (r: Result<()>, deletions: seq<string>)
      requires Valid()
      requires answer.Configs? ==> |randoms| == |answer.items|
      modifies this
      ensures Valid()
      ensures var m := MigrationSpec(old(rows), u, oldVersion, answer, randoms);
        r == m.outcome.result && rows == m.outcome.table && deletions == m.deletions
    {
      MigrationEffect(rows, u, oldVersion, answer, randoms);
      if !Migrates(oldVersion) || answer.NotOk? || |answer.items| == 0 {
        return Ok(()), [];
      }
      var c := Collect(u, answer.items, randoms);
      deletions := c.deletions;
      if c.addresses.None? {
        return Ok(()), deletions;
      }
      r := InsertMigrated(c.addresses.value);
    }

    /** insertMigratedAddresses: one insert per address, in order. */
    method InsertMigrated(ms: seq<Migrated>) returns (r: Result<()>)
      requires Valid()
      modifies this
      ensures Valid()
      ensures var o := InsertMigratedSpec(old(rows), ms); r == o.result && rows == o.table
    {
      InsertMigratedKeeps(rows, ms);
      r := Ok(());
      var i := 0;
      while i < |ms|
        invariant 0 <= i <= |ms| && Valid()
        invariant r.Ok? ==> r == Ok(())
        invariant var o := InsertMigratedSpec(rows, ms[i..]);
          InsertMigratedSpec(old(rows), ms) == Outcome(if r.Err? then r else o.result, o.table)
      {
        assert ms[i..][0] == ms[i] && ms[i..][1..] == ms[i + 1..];
        InsertMigratedKeeps(rows, [ms[i]]);
        var one := InsertMigratedOne(rows, ms[i]);
        assert InsertMigratedSpec(rows, [ms[i]]).table == one.table;
        if r.Ok? && one.result.Err? {
          r := one.result;
        }
        rows := one.table;
        i := i + 1;
      }
      assert ms[i..] == [];
      assert InsertMigratedSpec(rows, ms[i..]) == Outcome(Ok(()), rows);
    }
  }

  /** The collection loop over the configs, as written: it returns early at a blank id. */
  method Collect(u: UuidText, cs: seq<ConfigItem>, randoms: seq<Uuid>) returns (c: Collected)
    requires |randoms| == |cs|
    ensures c == CollectSpec(u, cs, randoms)
  {
    var addresses: seq<Migrated> := [];
    var deletions: seq<string> := [];
    var i := 0;
    while i < |cs|
      invariant 0 <= i <= |cs|
      invariant CollectFrom(u, cs, randoms, i, addresses, deletions) == CollectSpec(u, cs, randoms)
    {
      var parsed := ParseAddress(u, cs[i].id, cs[i].value, randoms[i]);
      if parsed.Some? {
        addresses := addresses + [parsed.value];
      }
      if IsBlank(cs[i].id) {
        return Collected(None, deletions);
      }
      deletions := deletions + [cs[i].id.value];
      i := i + 1;
    }
    c := Collected(Some(addresses), deletions);
  }
}
