/**
 * TenantAddressesService: the /tenant-addresses routes. Each route answers
 * itself on success, or fails with the cause RouterImpl.commonError
 * answers; create and update first refuse an address without a name or an
 * address, and answer a unique violation 409.
 *
 * Integer.parseInt is `parseInt` (a NumberFormatException is an
 * IllegalArgument); JSON encoding is `encode` and `encodeList`.
 */
module TenantAddressesService {
  import opened Common
  import opened StringUtil
  import opened TenantAddresses
  import opened ErrorMapping

  const DefaultLimit := 50
  const DefaultOffset := 0

  /** getIntQuery: the default when the parameter is absent, else its first value parsed. */
  function GetIntQuery(params: seq<string>, default: int, parseInt: string -> Result<int>): Result<int> {
    if |params| == 0 then Ok(default) else parseInt(params[0])
  }

  /** addressInvalid: no address, or a blank name or address. */
  predicate AddressInvalid(a: Option<AddressData>) {
    a.None? || IsBlank(a.value.name) || IsBlank(a.value.address)
  }

  /** handleException: a unique violation is answered 409; anything else fails on. */
  function HandleException(e: Error): Result<Answer> {
    if e == PgError(UniqueViolation) then Ok(Answer(409, "name already exists")) else Err(e)
  }

  const MissingAnswer := Answer(400, "name or address missing")

  /** getTenantAddresses: limit, then offset, are read; 200 with the page. */
  function ListAnswer(t: Table, u: UuidText, limitParams: seq<string>, offsetParams: seq<string>,
                      parseInt: string -> Result<int>, encodeList: seq<AddressData> -> string): Result<Answer>
    requires UniqueNames(t)
  {
    var limit := GetIntQuery(limitParams, DefaultLimit, parseInt);
    if limit.Err? then Err(limit.error)
    else
      var offset := GetIntQuery(offsetParams, DefaultOffset, parseInt);
      if offset.Err? then Err(offset.error)
      else
        var l := ListSpec(t, u, offset.value, limit.value);
        if l.Err? then Err(l.error) else Ok(Answer(200, encodeList(l.value)))
  }

  /** getTenantAddress: 200 with the address. */
  function GetAnswer(t: Table, u: UuidText, idText: string, encode: AddressData -> string): Result<Answer> {
    var r := GetSpec(t, u, idText);
    if r.Err? then Err(r.error) else Ok(Answer(200, encode(r.value)))
  }

  /** createTenantAddress: 400 for a missing field, 201 with the created address, 409 on a conflict. */
  function CreateAnswer(t: Table, u: UuidText, a: AddressData, random: Uuid, encode: AddressData -> string): Outcome<Answer> {
    if AddressInvalid(Some(a)) then Outcome(Ok(MissingAnswer), t)
    else
      var o := CreateSpec(t, u, a, random);
      if o.result.Ok? then Outcome(Ok(Answer(201, encode(o.result.value))), o.table)
      else Outcome(HandleException(o.result.error), o.table)
  }

  /** updateTenantAddress: 400 for a missing field, 204 once updated, 409 on a conflict. */
  function UpdateAnswer(t: Table, u: UuidText, idText: string, a: AddressData): Outcome<Answer> {
    if AddressInvalid(Some(a)) then Outcome(Ok(MissingAnswer), t)
    else
      var o := UpdateSpec(t, u, idText, a);
      if o.result.Ok? then Outcome(Ok(Answer(204, "")), o.table)
      else Outcome(HandleException(o.result.error), o.table)
  }

  /** deleteTenantAddress: 204 once deleted; failures are not recovered. */
  function DeleteAnswer(t: Table, u: UuidText, idText: string): Outcome<Answer> {
    var o := DeleteSpec(t, u, idText);
    Outcome(if o.result.Ok? then Ok(Answer(204, "")) else Err(o.result.error), o.table)
  }

  /** What the client gets: the route's own answer, or RouterImpl.commonError of its failure. */
  function Respond(r: Result<Answer>, reasonPhrase: int -> string, messageOf: Error -> string): Answer {
    if r.Ok? then r.value else RouterCommonError(r.error, reasonPhrase, messageOf)
  }

  /**
   * A null address, or a blank name or address, is refused with 400 and
   * the table is never touched; any other address passes the database's
   * NOT NULL constraints, so a create or update of it never fails on them.
   */
  lemma MissingFieldRefused(t: Table, u: UuidText, idText: string, a: AddressData, random: Uuid,
                            encode: AddressData -> string)
    ensures AddressInvalid(None)
    ensures AddressInvalid(Some(a)) <==> IsBlank(a.name) || IsBlank(a.address)
    ensures AddressInvalid(Some(a)) ==>
      CreateAnswer(t, u, a, random, encode) == Outcome(Ok(MissingAnswer), t)
      && UpdateAnswer(t, u, idText, a) == Outcome(Ok(MissingAnswer), t)
    ensures !AddressInvalid(Some(a)) ==>
      CreateSpec(t, u, a, random).result != Err(PgError(NotNullViolation))
      && (u.parse(idText).Ok? ==> UpdateSpec(t, u, idText, a).result != Err(PgError(NotNullViolation)))
  {
  }

  /** A unique violation is answered 409 "name already exists"; every other failure passes through. */
  lemma HandleExceptionMeaning(e: Error)
    ensures HandleException(e).Ok? <==> e == PgError(UniqueViolation)
    ensures HandleException(e).Ok? ==> HandleException(e).value == Answer(409, "name already exists")
    ensures HandleException(e).Err? ==> HandleException(e).error == e
  {
  }

  /**
   * A complete address whose name another row has is answered 409 and
   * changes nothing, on create and on update; so is a create whose id is
   * taken, although the message speaks of the name.
   */
  lemma ConflictAnswered(t: Table, u: UuidText, idText: string, a: AddressData, random: Uuid,
                         encode: AddressData -> string)
    requires !AddressInvalid(Some(a))
    ensures NameTaken(t, a.name.value) || CanonicalId(u, a.id, random) in t ==>
      CreateAnswer(t, u, a, random, encode) == Outcome(Ok(Answer(409, "name already exists")), t)
    ensures u.parse(idText).Ok? && u.parse(idText).value in t && NameTakenByOther(t, u.parse(idText).value, a.name.value) ==>
      UpdateAnswer(t, u, idText, a) == Outcome(Ok(Answer(409, "name already exists")), t)
  {
  }

  /**
   * A create that succeeds is answered 201 with the stored address, and a
   * GET of the id in that answer is answered 200 with the same address.
   */
  lemma CreatedAnswered(t: Table, u: UuidText, a: AddressData, random: Uuid, encode: AddressData -> string)
    requires RoundTrips(u) && UniqueNames(t)
    requires !AddressInvalid(Some(a))
    requires CanonicalId(u, a.id, random) !in t && !NameTaken(t, a.name.value)
    ensures var created := WithCanonicalId(u, a, a.id, random);
      var o := CreateAnswer(t, u, a, random, encode);
      && o.result == Ok(Answer(201, encode(created)))
      && GetAnswer(o.table, u, created.id.value, encode) == Ok(Answer(200, encode(created)))
  {
    CreateEffect(t, u, a, random);
    CreateThenGet(t, u, a, random);
  }

  /**
   * Without limit and offset parameters the listing is the first 50
   * addresses by name; a parameter that is not a number fails with its
   * NumberFormatException, which is answered 400.
   */
  lemma ListDefaults(t: Table, u: UuidText, offsetParams: seq<string>, parseInt: string -> Result<int>,
                     encodeList: seq<AddressData> -> string, bad: string, m: string,
                     reasonPhrase: int -> string, messageOf: Error -> string)
    requires UniqueNames(t)
    ensures ListAnswer(t, u, [], [], parseInt, encodeList) == Ok(Answer(200, encodeList(ListSpec(t, u, 0, 50).value)))
    ensures |ListSpec(t, u, 0, 50).value| <= 50
    ensures parseInt(bad) == Err(IllegalArgument(m)) ==>
      Respond(ListAnswer(t, u, [bad], offsetParams, parseInt, encodeList), reasonPhrase, messageOf) == Answer(400, m)
  {
    ListMeaning(t, u, 0, 50);
  }

  /** A GET, PUT or DELETE of an id no row has is answered 404. */
  lemma UnknownIdAnswered404(t: Table, u: UuidText, idText: string, a: AddressData, encode: AddressData -> string,
                             reasonPhrase: int -> string, messageOf: Error -> string)
    requires u.parse(idText).Ok? && u.parse(idText).value !in t
    ensures Respond(GetAnswer(t, u, idText, encode), reasonPhrase, messageOf).status == 404
    ensures !AddressInvalid(Some(a)) ==>
      Respond(UpdateAnswer(t, u, idText, a).result, reasonPhrase, messageOf).status == 404
    ensures Respond(DeleteAnswer(t, u, idText).result, reasonPhrase, messageOf).status == 404
    ensures DeleteAnswer(t, u, idText).table == t && UpdateAnswer(t, u, idText, a).table == t
  {
  }
}
