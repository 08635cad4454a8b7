/**
 * TenantService.postInit: the tenant init of mod-settings. When the module
 * is enabled or upgraded (the tenant attributes carry module_to), the
 * version table is set up and read, each part is initialised with the
 * version stored before this run (base URL, locale, tenant addresses, then
 * the settings table), and only when all of that succeeded is the stored
 * version moved to module_to.
 *
 * What each part reads from mod-configuration, the random ids it draws and
 * whether the settings table's init fails are inputs.
 */
module TenantService {
  import opened Common
  import opened Singleton
  import opened Version
  import BaseUrl
  import Locale
  import TenantAddresses

  /** The tenant's data: the version row, the base URL row, the locale row, the addresses. */
  datatype Tenant = Tenant(
    version: Table<SemVer>,
    baseUrl: Table<string>,
    locale: Table<Locale.LocaleRow>,
    addresses: TenantAddresses.Table)

  /** What the inits read from outside the database. */
  datatype Inputs = Inputs(
    baseUrl: BaseUrl.ConfigAnswer,
    locale: Option<Locale.LocaleData>,
    addresses: TenantAddresses.ConfigsAnswer,
    uuids: TenantAddresses.UuidText,
    randoms: seq<Uuid>,
    settingsInit: Result<()>)

  predicate InputsFit(i: Inputs) {
    i.addresses.Configs? ==> |i.randoms| == |i.addresses.items|
  }

  /** The result of postInit, the tenant it leaves and the mod-configuration entries it deleted. */
  datatype InitOutcome = InitOutcome(result: Result<()>, tenant: Tenant, deletions: seq<string>)

  /** postInit, step by step; `moduleTo` is None when the attributes have no module_to. */
  function PostInitSpec(s: Tenant, moduleTo: Option<SemVer>, i: Inputs): InitOutcome
    requires InputsFit(i)
  {
    if moduleTo.None? then InitOutcome(Ok(()), s, [])
    else
      var v := InitSpec(s.version, InitialVersion);
      var stored := ReadSpec(v);
      if stored.Err? then InitOutcome(Err(stored.error), s.(version := v), [])
      else
        var b := BaseUrl.InitStorageSpec(s.baseUrl, stored.value, i.baseUrl);
        var l := Locale.InitStorageSpec(s.locale, stored.value, i.locale);
        var m := TenantAddresses.MigrationSpec(s.addresses, i.uuids, stored.value, i.addresses, i.randoms);
        var t := Tenant(v, b, l, m.outcome.table);
        if m.outcome.result.Err? then InitOutcome(m.outcome.result, t, m.deletions)
        else if i.settingsInit.Err? then InitOutcome(i.settingsInit, t, m.deletions)
        else InitOutcome(Ok(()), t.(version := UpdateSpec(v, moduleTo.value)), m.deletions)
  }

  /** Without module_to (the module is being disabled) nothing happens. */
  lemma NoModuleTo(s: Tenant, i: Inputs)
    requires InputsFit(i)
    ensures PostInitSpec(s, None, i) == InitOutcome(Ok(()), s, [])
  {
  }

  /**
   * The stored version becomes module_to exactly when every init
   * succeeded; after a failure it reads as it did before the run.
   */
  lemma VersionHandOff(s: Tenant, moduleTo: SemVer, i: Inputs)
    requires InputsFit(i)
    ensures var o := PostInitSpec(s, Some(moduleTo), i);
      && (o.result.Ok? ==> ReadSpec(o.tenant.version) == Ok(moduleTo))
      && (o.result.Err? ==> o.tenant.version == InitSpec(s.version, InitialVersion))
      && (Single(s.version) && o.result.Err? ==> o.tenant.version == s.version)
  {
  }

  /**
   * A tenant whose stored version is 1.3.0 or later takes nothing over
   * from mod-configuration: its base URL, locale and addresses stay as
   * they are and no entry is deleted there; so running postInit again
   * after an upgrade to 1.3.0 or later leaves the data alone.
   */
  lemma UpgradedTenantKeepsData(s: Tenant, moduleTo: SemVer, i: Inputs)
    requires InputsFit(i)
    requires Single(s.version) && Single(s.baseUrl) && Single(s.locale)
    requires !Migrates(s.version.rows[0])
    ensures var o := PostInitSpec(s, Some(moduleTo), i);
      && o.tenant.baseUrl == s.baseUrl && o.tenant.locale == s.locale
      && o.tenant.addresses == s.addresses && o.deletions == []
      && o.result == i.settingsInit
  {
    match i.settingsInit
    case Ok(()) =>
    case Err(_) =>
  }

  /**
   * The first init of a tenant reads version 0.0.0 and so migrates: the
   * base URL found in mod-configuration replaces the default one, and the
   * tenant ends at module_to when every init succeeds.
   */
  lemma FirstInitMigrates(s: Tenant, moduleTo: SemVer, i: Inputs, url: string)
    requires InputsFit(i)
    requires s.version == Table([], false) && s.baseUrl == Table([], false)
    requires i.baseUrl == BaseUrl.Entry(Some(url))
    ensures var o := PostInitSpec(s, Some(moduleTo), i);
      && ReadSpec(o.tenant.baseUrl) == Ok(BaseUrl.Stripped(url))
      && (o.result.Ok? ==> o.tenant.version == Table([moduleTo], true))
  {
    assert Migrates(InitialVersion) by {
      MigratesExamples();
    }
  }

  /**
   * postInit over the storages: the version table's init, the read of the
   * stored version, then each part's init with it, then setVersion.
   */
  method PostInit(moduleTo: Option<SemVer>, version: VersionStorage, baseUrl: BaseUrl.BaseUrlStorage,
                  locale: Locale.LocaleStorage, localeMigrated: Locale.LocaleSettings?,
                  addresses: TenantAddresses.TenantAddressesStorage, i: Inputs)
    returns (r: Result<()>, deletions: seq<string>)
    requires InputsFit(i) && addresses.Valid()
    requires i.locale == (if localeMigrated == null then None else Some(localeMigrated.Data()))
    modifies version.table, baseUrl.table, locale.table, localeMigrated, addresses
    ensures addresses.Valid()
    ensures var o := PostInitSpec(
        Tenant(old(version.table.State()), old(baseUrl.table.State()), old(locale.table.State()), old(addresses.rows)),
        moduleTo, i);
      && r == o.result && deletions == o.deletions
      && version.table.State() == o.tenant.version
      && baseUrl.table.State() == o.tenant.baseUrl
      && locale.table.State() == o.tenant.locale
      && addresses.rows == o.tenant.addresses
  {
    if moduleTo.None? {
      return Ok(()), [];
    }
    version.Init();
    var stored := version.GetVersion();
    if stored.Err? {
      return Err(stored.error), [];
    }
    baseUrl.Init(stored.value, i.baseUrl);
    var lr := locale.Init(stored.value, localeMigrated);
    assert lr == Ok(());  // a database without faults never fails this init
    var ar;
    ar, deletions := addresses.Init(i.uuids, stored.value, i.addresses, i.randoms);
    if ar.Err? {
      return ar, deletions;
    }
    if i.settingsInit.Err? {
      return i.settingsInit, deletions;
    }
    version.SetVersion(moduleTo.value);
    r := Ok(());
  }
}
