/**
 * SettingsService: the /settings/entries routes. Each request makes its
 * storage from the headers, then runs one storage operation; a failure is
 * answered by the service's commonError.
 */
module SettingsService {
  import opened Common
  import opened SettingsEntry
  import opened SettingsPermissions
  import SettingsStorage
  import opened RequestHeaders
  import opened ErrorMapping

  type Table = SettingsStorage.Table
  type Outcome = SettingsStorage.Outcome<()>

  /** The listing's page when the request names none. */
  const DefaultLimit := 10
  const DefaultOffset := 0

  /** postSetting: create the body's entry; 204 on success. */
  function PostSetting(t: Table, h: Headers, body: EntryData, parseUuid: string -> Result<Uuid>,
                       parsePerms: string -> Result<Perms>): Outcome {
    var c := CallerOf(h, parseUuid, parsePerms);
    if c.Err? then SettingsStorage.Outcome(Err(c.error), t)
    else SettingsStorage.CreateSpec(t, c.value.permissions, c.value.currentUser, body)
  }

  /** getSetting: read the entry the path names; 200 with it on success. */
  function GetSetting(t: Table, h: Headers, pathId: string, parseUuid: string -> Result<Uuid>,
                      parsePerms: string -> Result<Perms>): Result<EntryData> {
    var c := CallerOf(h, parseUuid, parsePerms);
    if c.Err? then Err(c.error)
    else
      var id := parseUuid(pathId);
      if id.Err? then Err(id.error)
      else SettingsStorage.GetSpec(t, c.value.permissions, c.value.currentUser, id.value)
  }

  /** updateSetting: update the body's entry once the path names its id; 204 on success. */
  function PutSetting(t: Table, h: Headers, pathId: string, body: EntryData, parseUuid: string -> Result<Uuid>,
                      parsePerms: string -> Result<Perms>): Outcome {
    var p := PutTarget(h, pathId, body, parseUuid, parsePerms);
    if p.Err? then SettingsStorage.Outcome(Err(p.error), t)
    else SettingsStorage.UpdateSpec(t, p.value.0.permissions, p.value.0.currentUser, body)
  }

  /** deleteSetting: delete the entry the path names; 204 on success. */
  function DeleteSetting(t: Table, h: Headers, pathId: string, parseUuid: string -> Result<Uuid>,
                         parsePerms: string -> Result<Perms>): Outcome {
    var c := CallerOf(h, parseUuid, parsePerms);
    if c.Err? then SettingsStorage.Outcome(Err(c.error), t)
    else
      var id := parseUuid(pathId);
      if id.Err? then SettingsStorage.Outcome(Err(id.error), t)
      else SettingsStorage.DeleteSpec(t, c.value.permissions, c.value.currentUser, id.value)
  }

  /** The answer to a request that changes an entry: 204, or commonError of its failure. */
  function ChangeAnswer(r: Result<()>, messageOf: Error -> string): Answer {
    if r.Ok? then Answer(204, "") else ServiceError(r.error, messageOf)
  }

  /**
   * getSettings: limit and offset are looked up among the path
   * parameters, where a request's query string never puts them; limit 10
   * and offset 0 apply unless a value is found there.
   */
  function ListingPage(limit: Option<int>, offset: Option<int>): (int, int) {
    (if limit.Some? then limit.value else DefaultLimit, if offset.Some? then offset.value else DefaultOffset)
  }

  /** Without a tenant header every request fails alike, is answered 500 and changes nothing. */
  lemma NoTenant(t: Table, h: Headers, pathId: string, body: EntryData, parseUuid: string -> Result<Uuid>,
                 parsePerms: string -> Result<Perms>, messageOf: Error -> string)
    requires h.tenant.None?
    ensures PostSetting(t, h, body, parseUuid, parsePerms) == SettingsStorage.Outcome(Err(Failure("tenant required")), t)
    ensures GetSetting(t, h, pathId, parseUuid, parsePerms) == Err(Failure("tenant required"))
    ensures PutSetting(t, h, pathId, body, parseUuid, parsePerms) == SettingsStorage.Outcome(Err(Failure("tenant required")), t)
    ensures DeleteSetting(t, h, pathId, parseUuid, parsePerms) == SettingsStorage.Outcome(Err(Failure("tenant required")), t)
    ensures ChangeAnswer(Err(Failure("tenant required")), messageOf) == Answer(500, "tenant required")
  {
  }

  /**
   * A PUT whose path names another id than its body is answered 400 "id
   * mismatch" and never reaches the table; one that names the body's id is
   * the storage's update with the caller's permissions.
   */
  lemma PutMeaning(t: Table, h: Headers, pathId: string, body: EntryData, parseUuid: string -> Result<Uuid>,
                   parsePerms: string -> Result<Perms>, messageOf: Error -> string)
    requires CallerOf(h, parseUuid, parsePerms).Ok? && parseUuid(pathId).Ok?
    ensures var c := CallerOf(h, parseUuid, parsePerms).value; var o := PutSetting(t, h, pathId, body, parseUuid, parsePerms);
      && (body.id != Some(parseUuid(pathId).value) ==>
            o == SettingsStorage.Outcome(Err(UserError("id mismatch")), t)
            && ChangeAnswer(o.result, messageOf) == Answer(400, "id mismatch"))
      && (body.id == Some(parseUuid(pathId).value) ==>
            o == SettingsStorage.UpdateSpec(t, c.permissions, c.currentUser, body))
  {
    PutTargetMeaning(h, pathId, body, parseUuid, parsePerms);
  }

  /** The listing's page falls back to 10 rows from the first when the request names none. */
  lemma ListingPageDefaults(limit: int, offset: int)
    ensures ListingPage(None, None) == (10, 0)
    ensures ListingPage(Some(limit), Some(offset)) == (limit, offset)
    ensures ListingPage(Some(limit), None) == (limit, 0) && ListingPage(None, Some(offset)) == (10, offset)
  {
  }
}
