/**
 * ConfigService: the /configurations/entries routes of the configuration
 * compatibility API. Requests make their storage from the headers as the
 * settings routes do; the listing is not implemented.
 */
module ConfigService {
  import opened Common
  import opened SettingsEntry
  import opened SettingsPermissions
  import SettingsStorage
  import ConfigStorage
  import opened RequestHeaders
  import opened ErrorMapping

  type Table = ConfigStorage.Table

  /** getConfigurationEntries: a failed future whatever the request. */
  function ListEntries(): Result<()> {
    Err(Failure("Not implemented"))
  }

  /** postConfigurationEntry: create the body's entry; 204 on success. */
  function PostEntry(t: Table, h: Headers, body: EntryData, parseUuid: string -> Result<Uuid>,
                     parsePerms: string -> Result<Perms>): SettingsStorage.Outcome<()> {
    var c := CallerOf(h, parseUuid, parsePerms);
    if c.Err? then SettingsStorage.Outcome(Err(c.error), t)
    else ConfigStorage.CreateSpec(t, c.value.permissions, c.value.currentUser, body)
  }

  /** getConfigurationEntry: read the entry the path names. */
  function GetEntry(t: Table, h: Headers, pathId: string, parseUuid: string -> Result<Uuid>,
                    parsePerms: string -> Result<Perms>): Result<Option<EntryData>> {
    var c := CallerOf(h, parseUuid, parsePerms);
    if c.Err? then Err(c.error)
    else
      var id := parseUuid(pathId);
      if id.Err? then Err(id.error)
      else ConfigStorage.GetSpec(t, c.value.permissions, c.value.currentUser, id.value)
  }

  /** The listing is answered 500 with "Not implemented". */
  lemma ListingNotImplemented(messageOf: Error -> string)
    ensures ListEntries().Err? && ServiceError(ListEntries().error, messageOf) == Answer(500, "Not implemented")
  {
  }

  /**
   * Without a tenant header a create, a read and a PUT fail alike before
   * the table is looked at.
   */
  lemma NoTenant(t: Table, h: Headers, pathId: string, body: EntryData, parseUuid: string -> Result<Uuid>,
                 parsePerms: string -> Result<Perms>)
    requires h.tenant.None?
    ensures PostEntry(t, h, body, parseUuid, parsePerms) == SettingsStorage.Outcome(Err(Failure("tenant required")), t)
    ensures GetEntry(t, h, pathId, parseUuid, parsePerms) == Err(Failure("tenant required"))
    ensures PutTarget(h, pathId, body, parseUuid, parsePerms) == Err(Failure("tenant required"))
  {
  }

  /**
   * A create that carries a tenant but no user id and no permissions
   * header is the storage's create for nobody holding no permission, which
   * refuses every entry as Forbidden.
   */
  lemma PostMeaning(t: Table, h: Headers, body: EntryData, parseUuid: string -> Result<Uuid>,
                    parsePerms: string -> Result<Perms>)
    requires h.tenant.Some? && h.userId.None? && h.permissions.None?
    ensures PostEntry(t, h, body, parseUuid, parsePerms) == ConfigStorage.CreateSpec(t, [], None, body)
    ensures PostEntry(t, h, body, parseUuid, parsePerms) == SettingsStorage.Outcome(Err(Forbidden), t)
  {
  }
}
