/**
 * LocaleStorage and LocaleService: the tenant's locale settings (locale,
 * currency, time zone, numbering system), a singleton row set to
 * en-US/USD/UTC/latn on the first init, taken over once from
 * mod-configuration after sanitising, and replaced by PUT /locale after
 * validation.
 */
module Locale {
  import opened Common
  import opened StringUtil
  import opened Singleton
  import opened Version

  /** The four fields of a LocaleSettings object; each may be null. */
  datatype LocaleData = LocaleData(
    locale: Option<string>,
    currency: Option<string>,
    timezone: Option<string>,
    numberingSystem: Option<string>)

  /** A row of the locale table: all four columns are NOT NULL. */
  datatype LocaleRow = LocaleRow(locale: string, currency: string, timezone: string, numberingSystem: string)

  const DefaultLocale := LocaleRow("en-US", "USD", "UTC", "latn")

  function AsData(r: LocaleRow): LocaleData {
    LocaleData(Some(r.locale), Some(r.currency), Some(r.timezone), Some(r.numberingSystem))
  }

  /** The numbering systems accepted, compared exactly. */
  predicate KnownNumberingSystem(ns: Option<string>) {
    ns == Some("latn") || ns == Some("arab")
  }

  /** What updateLocaleSanitized makes of a record: defaults for the blank
      fields and for an unknown numbering system. */
  function Sanitized(d: LocaleData): LocaleData {
    LocaleData(
      if IsBlank(d.locale) then Some("en-US") else d.locale,
      if IsBlank(d.currency) then Some("USD") else d.currency,
      if IsBlank(d.timezone) then Some("UTC") else d.timezone,
      if !KnownNumberingSystem(d.numberingSystem) then Some("latn") else d.numberingSystem)
  }

  /**
   * setLocale's checks, in the order locale, timezone, currency,
   * numberingSystem; the first failure is the answer. A valid record is
   * the row to store.
   */
  function ValidateLocale(d: LocaleData): Result<LocaleRow> {
    if IsBlank(d.locale) then Err(UserError("locale missing"))
    else if IsBlank(d.timezone) then Err(UserError("timezone missing"))
    else if IsBlank(d.currency) then Err(UserError("currency missing"))
    else if !KnownNumberingSystem(d.numberingSystem) then Err(UserError("numberingSystem must be latn or arab"))
    else Ok(LocaleRow(d.locale.value, d.currency.value, d.timezone.value, d.numberingSystem.value))
  }

  /** A record is accepted exactly when no field is blank and the numbering
      system is known, and then it is stored as given. */
  lemma ValidateLocaleMeaning(d: LocaleData)
    ensures ValidateLocale(d).Ok? <==>
      !IsBlank(d.locale) && !IsBlank(d.timezone) && !IsBlank(d.currency) && KnownNumberingSystem(d.numberingSystem)
    ensures ValidateLocale(d).Ok? ==> AsData(ValidateLocale(d).value) == d
  {
  }

  /** The tests' rejections: a blank field, and numbering systems that are
      not exactly latn or arab. */
  lemma ValidateLocaleExamples(d: LocaleData)
    requires d == LocaleData(Some("de-DE"), Some("EUR"), Some("Europe/Berlin"), Some("arab"))
    ensures ValidateLocale(d) == Ok(LocaleRow("de-DE", "EUR", "Europe/Berlin", "arab"))
    ensures ValidateLocale(d.(locale := Some(" "))) == Err(UserError("locale missing"))
    ensures ValidateLocale(d.(timezone := None, currency := None)) == Err(UserError("timezone missing"))
    ensures ValidateLocale(d.(currency := Some(""))) == Err(UserError("currency missing"))
    ensures ValidateLocale(d.(numberingSystem := Some("LATN"))).Err?
    ensures ValidateLocale(d.(numberingSystem := Some("latin"))).Err?
    ensures ValidateLocale(d.(numberingSystem := Some(" latn"))).Err?
  {
    BlankExamples();
    assert IndexOfNonWhitespace("EUR", 0) == 0;
    assert IndexOfNonWhitespace("Europe/Berlin", 0) == 0;
  }

  /** A sanitised record always passes the service's validation. */
  lemma SanitizedValid(d: LocaleData)
    ensures ValidateLocale(Sanitized(d)).Ok?
  {
    BlankExamples();
    assert IndexOfNonWhitespace("USD", 0) == 0;
    assert IndexOfNonWhitespace("UTC", 0) == 0;
  }

  /**
   * Sanitising leaves a field that is not blank (and a known numbering
   * system) alone, so it is idempotent and keeps a valid record as it is.
   */
  lemma SanitizedKeeps(d: LocaleData)
    ensures !IsBlank(d.locale) ==> Sanitized(d).locale == d.locale
    ensures !IsBlank(d.currency) ==> Sanitized(d).currency == d.currency
    ensures !IsBlank(d.timezone) ==> Sanitized(d).timezone == d.timezone
    ensures KnownNumberingSystem(d.numberingSystem) ==> Sanitized(d).numberingSystem == d.numberingSystem
    ensures Sanitized(Sanitized(d)) == Sanitized(d)
    ensures ValidateLocale(d).Ok? ==> Sanitized(d) == d
  {
    SanitizedValid(d);
  }

  /** A LocaleSettings object, whose setters change its fields in place. */
  class LocaleSettings {
    var locale: Option<string>
    var currency: Option<string>
    var timezone: Option<string>
    var numberingSystem: Option<string>

    function Data(): LocaleData
      reads this
    {
      LocaleData(locale, currency, timezone, numberingSystem)
    }

    constructor (d: LocaleData)
      ensures Data() == d
    {
      locale, currency, timezone, numberingSystem := d.locale, d.currency, d.timezone, d.numberingSystem;
    }

    /** The sanitising half of updateLocaleSanitized: each blank field and
        an unknown numbering system is set to its default. */
    method Sanitize()
      modifies this
      ensures Data() == Sanitized(old(Data()))
    {
      if IsBlank(locale) {
        locale := Some("en-US");
      }
      if IsBlank(timezone) {
        timezone := Some("UTC");
      }
      if IsBlank(currency) {
        currency := Some("USD");
      }
      if numberingSystem != Some("latn") && numberingSystem != Some("arab") {
        numberingSystem := Some("latn");
      }
    }
  }

  /** updateLocale: the UPDATE fails on a null column and otherwise overwrites the row. */
  function UpdateLocaleSpec(t: Table<LocaleRow>, d: LocaleData): Change<LocaleRow> {
    if d.locale.None? || d.currency.None? || d.timezone.None? || d.numberingSystem.None? then
      Change(Err(PgError(NotNullViolation)), t)
    else
      Change(Ok(()), UpdateSpec(t, LocaleRow(d.locale.value, d.currency.value, d.timezone.value, d.numberingSystem.value)))
  }

  /**
   * The table a tenant init leaves: the default row unless there is one,
   * then, for a tenant older than 1.3.0, the record taken from
   * mod-configuration, sanitised, when there is one.
   */
  function InitStorageSpec(t: Table<LocaleRow>, oldVersion: SemVer, migrated: Option<LocaleData>): Table<LocaleRow> {
    var t0 := InitSpec(t, DefaultLocale);
    if Migrates(oldVersion) && migrated.Some? then UpdateLocaleSpec(t0, Sanitized(migrated.value)).table else t0
  }

  /** LocaleStorage over the tenant's locale table. */
  class LocaleStorage {
    const table: SingletonTable<LocaleRow>

    constructor (table: SingletonTable<LocaleRow>)
      ensures this.table == table
    {
      this.table := table;
    }

    /** getLocale: the four columns of the row. */
    method GetLocale() returns (r: Result<LocaleData>)
      ensures table.rows == [] ==> r.Err?
      ensures table.rows != [] ==> r == Ok(AsData(table.rows[0]))
    {
      var row := table.Read();
      if row.Err? {
        return Err(row.error);
      }
      r := Ok(AsData(row.value));
    }

    method UpdateLocale(d: LocaleData) returns (r: Result<()>)
      modifies table
      ensures Change(r, table.State()) == UpdateLocaleSpec(old(table.State()), d)
    {
      if d.locale.None? || d.currency.None? || d.timezone.None? || d.numberingSystem.None? {
        return Err(PgError(NotNullViolation));
      }
      table.Update(LocaleRow(d.locale.value, d.currency.value, d.timezone.value, d.numberingSystem.value));
      r := Ok(());
    }

    /**
     * updateLocaleSanitized: nothing for a null record; otherwise the
     * record is sanitised in place and stored, which cannot fail on a
     * null column.
     */
    method UpdateLocaleSanitized(settings: LocaleSettings?) returns (r: Result<()>)
      modifies table, settings
      ensures settings == null ==> r == Ok(()) && unchanged(table)
      ensures settings != null ==>
        && settings.Data() == Sanitized(old(settings.Data()))
        && r == Ok(())
        && table.State() == UpdateLocaleSpec(old(table.State()), settings.Data()).table
    {
      if settings == null {
        return Ok(());
      }
      settings.Sanitize();
      SanitizedValid(old(settings.Data()));
      r := UpdateLocale(settings.Data());
    }

    /**
     * init: create the row, then, for a tenant older than 1.3.0, store the
     * record taken from mod-configuration (null when there is none),
     * sanitised.
     */
    method Init(oldVersion: SemVer, migrated: LocaleSettings?) returns (r: Result<()>)
      modifies table, migrated
      ensures r == Ok(())
      ensures table.State() ==
        InitStorageSpec(old(table.State()), oldVersion, if migrated == null then None else Some(old(migrated.Data())))
    {
      table.Init(DefaultLocale);
      if Migrates(oldVersion) {
        r := UpdateLocaleSanitized(migrated);
      } else {
        r := Ok(());
      }
    }
  }

  /**
   * On a guarded table, a migration stores the sanitised record, which
   * then reads back as a record the service would accept; without a
   * record, or for a tenant at 1.3.0 or later, the row stays as it was.
   */
  lemma MigrationEffect(t: Table<LocaleRow>, oldVersion: SemVer, migrated: Option<LocaleData>)
    requires Single(t)
    ensures var t' := InitStorageSpec(t, oldVersion, migrated);
      && Single(t')
      && (Migrates(oldVersion) && migrated.Some? ==>
            ReadSpec(t').Ok? && AsData(ReadSpec(t').value) == Sanitized(migrated.value)
            && ValidateLocale(AsData(ReadSpec(t').value)).Ok?)
      && (!Migrates(oldVersion) || migrated.None? ==> t' == t)
  {
    if migrated.Some? {
      SanitizedValid(migrated.value);
    }
  }

  /**
   * PUT /locale: a refused record is answered 400 with the first reason
   * and leaves the row alone; an accepted one replaces all four fields and
   * is answered 201, or 500 when the database fails (`fault`).
   */
  method SetLocale(storage: LocaleStorage, d: LocaleData, fault: Option<string>) returns (a: Answer)
    modifies storage.table
    ensures ValidateLocale(d).Err? ==> a == Answer(400, ValidateLocale(d).error.message) && unchanged(storage.table)
    ensures ValidateLocale(d).Ok? && fault.Some? ==> a == Answer(500, "") && unchanged(storage.table)
    ensures ValidateLocale(d).Ok? && fault.None? ==>
      a == Answer(201, "") && storage.table.State() == UpdateSpec(old(storage.table.State()), ValidateLocale(d).value)
  {
    if IsBlank(d.locale) {
      return Answer(400, "locale missing");
    } else if IsBlank(d.timezone) {
      return Answer(400, "timezone missing");
    } else if IsBlank(d.currency) {
      return Answer(400, "currency missing");
    } else if d.numberingSystem != Some("latn") && d.numberingSystem != Some("arab") {
      return Answer(400, "numberingSystem must be latn or arab");
    }
    if fault.Some? {
      return Answer(500, "");
    }
    var r := storage.UpdateLocale(d);
    a := if r.Ok? then Answer(201, "") else Answer(500, "");
  }
}
