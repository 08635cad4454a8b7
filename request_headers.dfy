/**
 * The request rules SettingsService and ConfigService share: the storage
 * each request works with is made from the X-Okapi-Tenant,
 * X-Okapi-User-Id and X-Okapi-Permissions headers (their `create(ctx)`),
 * and a PUT must name in its path the id its body carries.
 *
 * UUID.fromString is `parseUuid`; `parsePerms` is `new JsonArray(text)`,
 * whose DecodeException is a Failure.
 */
module RequestHeaders {
  import opened Common
  import opened SettingsEntry
  import opened SettingsPermissions

  /** The three headers of a request, each possibly absent. */
  datatype Headers = Headers(tenant: Option<string>, userId: Option<string>, permissions: Option<string>)

  /** What a storage is made of: the tenant, the caller's id and permissions. */
  datatype Caller = Caller(tenant: string, currentUser: Option<Uuid>, permissions: Perms)

  /**
   * create(ctx): a missing tenant fails with "tenant required" before
   * anything else; a user id is parsed when present, the permissions when
   * present.
   */
  function CallerOf(h: Headers, parseUuid: string -> Result<Uuid>, parsePerms: string -> Result<Perms>): Result<Caller> {
    if h.tenant.None? then Err(Failure("tenant required"))
    else
      var user := if h.userId.None? then Ok(None) else
        (var p := parseUuid(h.userId.value); if p.Err? then Err(p.error) else Ok(Some(p.value)));
      if user.Err? then Err(user.error)
      else
        var perms := if h.permissions.None? then Ok([]) else parsePerms(h.permissions.value);
        if perms.Err? then Err(perms.error)
        else Ok(Caller(h.tenant.value, user.value, perms.value))
  }

  /**
   * Without a tenant every request fails the same way; without a user id
   * the caller is nobody, and without permissions it holds none; present
   * headers are read as they parse.
   */
  lemma CallerOfMeaning(h: Headers, parseUuid: string -> Result<Uuid>, parsePerms: string -> Result<Perms>)
    ensures h.tenant.None? ==> CallerOf(h, parseUuid, parsePerms) == Err(Failure("tenant required"))
    ensures var c := CallerOf(h, parseUuid, parsePerms);
      c.Ok? <==>
        && h.tenant.Some?
        && (h.userId.Some? ==> parseUuid(h.userId.value).Ok?)
        && (h.permissions.Some? ==> parsePerms(h.permissions.value).Ok?)
    ensures var c := CallerOf(h, parseUuid, parsePerms);
      c.Ok? ==>
        && c.value.tenant == h.tenant.value
        && c.value.currentUser == (if h.userId.None? then None else Some(parseUuid(h.userId.value).value))
        && c.value.permissions == (if h.permissions.None? then [] else parsePerms(h.permissions.value).value)
  {
  }

  /**
   * The PUT of an entry: the storage is made first, then the path id is
   * parsed, and it must equal the body's id ("id mismatch" otherwise);
   * only then does the request reach the storage, with this caller and id.
   */
  function PutTarget(h: Headers, pathId: string, body: EntryData, parseUuid: string -> Result<Uuid>,
                     parsePerms: string -> Result<Perms>): Result<(Caller, Uuid)> {
    var c := CallerOf(h, parseUuid, parsePerms);
    if c.Err? then Err(c.error)
    else
      var id := parseUuid(pathId);
      if id.Err? then Err(id.error)
      else if body.id != Some(id.value) then Err(UserError("id mismatch"))
      else Ok((c.value, id.value))
  }

  /**
   * A PUT reaches the storage exactly when the headers and the path are
   * well formed and the path names the body's id; a well-formed request
   * whose ids differ fails with "id mismatch".
   */
  lemma PutTargetMeaning(h: Headers, pathId: string, body: EntryData, parseUuid: string -> Result<Uuid>,
                         parsePerms: string -> Result<Perms>)
    ensures var p := PutTarget(h, pathId, body, parseUuid, parsePerms);
      && (p.Ok? <==>
            CallerOf(h, parseUuid, parsePerms).Ok? && parseUuid(pathId).Ok? && body.id == Some(parseUuid(pathId).value))
      && (p.Ok? ==> p.value == (CallerOf(h, parseUuid, parsePerms).value, parseUuid(pathId).value))
      && (CallerOf(h, parseUuid, parsePerms).Ok? && parseUuid(pathId).Ok? && body.id != Some(parseUuid(pathId).value) ==>
            p == Err(UserError("id mismatch")))
  {
  }
}
