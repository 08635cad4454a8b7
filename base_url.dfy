/**
 * BaseUrlStorage and BaseUrlService: the tenant's base URL, a singleton
 * row set to http://localhost:3000 on the first init, taken over once from
 * mod-configuration (without trailing slashes), and replaced by PUT
 * /base-url after validation.
 */
module BaseUrl {
  import opened Common
  import opened StringUtil
  import opened Singleton
  import opened Version

  const DefaultBaseUrl := "http://localhost:3000"

  /** The longest prefix of url that does not end with '/'. */
  function Stripped(url: string): (r: string)
    ensures |r| <= |url| && url[..|r|] == r
    ensures !EndsWith(r, "/")
    ensures forall i :: |r| <= i < |url| ==> url[i] == '/'
    decreases |url|
  {
    if |url| > 0 && url[|url| - 1] == '/' then
      var r := Stripped(url[..|url| - 1]);
      assert url[..|url| - 1][..|r|] == url[..|r|];
      r
    else url
  }

  /**
   * stripTrailingSlashes: move `end` back over the trailing slashes and
   * cut there.
   */
  method StripTrailingSlashes(url: string) returns (r: string)
    ensures r == Stripped(url)
  {
    var end := |url|;
    assert url[..end] == url;
    while end > 0 && url[end - 1] == '/'
      invariant 0 <= end <= |url|
      invariant Stripped(url[..end]) == Stripped(url)
    {
      assert url[..end][..end - 1] == url[..end - 1];
      end := end - 1;
    }
    assert end == 0 || url[..end][end - 1] != '/';
    r := url[..end];
  }

  /** Any string with the properties Stripped promises is Stripped itself. */
  lemma {:induction false} StrippedUnique(url: string, r: string)
    requires |r| <= |url| && url[..|r|] == r && !EndsWith(r, "/")
    requires forall i :: |r| <= i < |url| ==> url[i] == '/'
    ensures Stripped(url) == r
    decreases |url|
  {
    assert url[..|url|] == url;
    if |url| > 0 && url[|url| - 1] == '/' {
      assert |r| < |url|;
      assert url[..|url| - 1][..|r|] == r;
      StrippedUnique(url[..|url| - 1], r);
    } else {
      assert |r| == |url|;
    }
  }

  /** Stripping twice is stripping once; a url not ending in '/' is kept. */
  lemma StrippedIdempotent(url: string)
    ensures Stripped(Stripped(url)) == Stripped(url)
    ensures !EndsWith(url, "/") ==> Stripped(url) == url
  {
    var r := Stripped(url);
    assert r[..|r|] == r;
    StrippedUnique(r, r);
    assert url[..|url|] == url;
    if !EndsWith(url, "/") {
      StrippedUnique(url, url);
    }
  }

  /** The table of the stripTrailingSlashes test. */
  lemma StrippedExamples()
    ensures Stripped("") == "" && Stripped("/") == ""
    ensures Stripped("https://example.org") == "https://example.org"
    ensures Stripped("https://example.org/") == "https://example.org"
    ensures Stripped("https://example.org//") == "https://example.org"
  {
    assert "https://example.org//"[..20] == "https://example.org/";
    assert "https://example.org/"[..19] == "https://example.org";
    assert "/"[..0] == "";
  }

  /**
   * setBaseUrl's checks: a blank value is missing, then a value ending in
   * a slash is refused; anything else is the new base URL, as given.
   */
  function ValidateBaseUrl(baseUrl: Option<string>): (r: Result<string>)
    ensures r.Ok? <==> !IsBlank(baseUrl) && !EndsWith(baseUrl.value, "/")
    ensures r.Ok? ==> r.value == baseUrl.value
  {
    if IsBlank(baseUrl) then Err(UserError("baseUrl is missing"))
    else if EndsWith(baseUrl.value, "/") then Err(UserError("baseUrl must not end with a slash"))
    else Ok(baseUrl.value)
  }

  /** The blank check comes first: "/" and " " are missing, "/x/" ends with a slash. */
  lemma ValidateBaseUrlExamples()
    ensures ValidateBaseUrl(None) == Err(UserError("baseUrl is missing"))
    ensures ValidateBaseUrl(Some(" ")) == Err(UserError("baseUrl is missing"))
    ensures ValidateBaseUrl(Some("/")) == Err(UserError("baseUrl must not end with a slash"))
    ensures ValidateBaseUrl(Some("https://example.org")) == Ok("https://example.org")
  {
    assert IndexOfNonWhitespace("/", 0) == 0;
    assert IndexOfNonWhitespace(" ", 0) == 1;
    assert IndexOfNonWhitespace("https://example.org", 0) == 0;
  }

  /** Whatever a migration makes of a url passes the service's check, unless it is blank. */
  lemma StrippedPassesValidation(url: string)
    requires !JavaIsBlank(Stripped(url))
    ensures ValidateBaseUrl(Some(Stripped(url))) == Ok(Stripped(url))
  {
  }

  /**
   * What the GET of mod-configuration's FOLIO_HOST entry yields: nothing
   * (a status other than 200, no entry, any failure), or the first entry
   * with its value, which may be missing.
   */
  datatype ConfigAnswer = NoEntry | Entry(value: Option<string>)

  /** The base URL a migration stores: the entry's value without trailing
      slashes; a missing value fails inside the lookup, which is ignored. */
  function MigratedBaseUrl(a: ConfigAnswer): Option<string> {
    if a.Entry? && a.value.Some? then Some(Stripped(a.value.value)) else None
  }

  /**
   * The table a tenant init leaves: the default row unless there is one,
   * then, for a tenant older than 1.3.0, the migrated value when there is
   * one.
   */
  function InitStorageSpec(t: Table<string>, oldVersion: SemVer, answer: ConfigAnswer): Table<string> {
    var t0 := InitSpec(t, DefaultBaseUrl);
    if Migrates(oldVersion) && MigratedBaseUrl(answer).Some? then UpdateSpec(t0, MigratedBaseUrl(answer).value) else t0
  }

  /** BaseUrlStorage over the tenant's baseurl table. */
  class BaseUrlStorage {
    const table: SingletonTable<string>

    constructor (table: SingletonTable<string>)
      ensures this.table == table
    {
      this.table := table;
    }

    /**
     * init: create the row, then, for a tenant older than 1.3.0, store the
     * migrated value when there is one.
     */
    method Init(oldVersion: SemVer, answer: ConfigAnswer)
      modifies table
      ensures table.State() == InitStorageSpec(old(table.State()), oldVersion, answer)
    {
      table.Init(DefaultBaseUrl);
      if Migrates(oldVersion) {
        var migrated := MigratedBaseUrl(answer);
        if migrated.Some? {
          table.Update(migrated.value);
        }
      }
    }

    method GetBaseUrl() returns (r: Result<string>)
      ensures r == ReadSpec(table.State())
    {
      r := table.Read();
    }

    method UpdateBaseUrl(baseUrl: string)
      modifies table
      ensures table.State() == UpdateSpec(old(table.State()), baseUrl)
    {
      table.Update(baseUrl);
    }
  }

  /**
   * Migrating a guarded table: a tenant older than 1.3.0 gets the
   * entry's value without its trailing slashes, or keeps its row when
   * there is none; a newer tenant keeps its row.
   */
  lemma MigrationEffect(t: Table<string>, oldVersion: SemVer, answer: ConfigAnswer)
    requires Single(t)
    ensures var t' := InitStorageSpec(t, oldVersion, answer);
      && Single(t')
      && (Migrates(oldVersion) && answer.Entry? && answer.value.Some? ==>
            ReadSpec(t') == Ok(Stripped(answer.value.value)))
      && (!Migrates(oldVersion) || MigratedBaseUrl(answer).None? ==> t' == t)
  {
  }

  /**
   * PUT /base-url: a refused value is answered 400 with the reason and
   * leaves the row alone; an accepted one is stored as given and answered
   * 201, or 500 when the database fails (`fault`).
   */
  method SetBaseUrl(storage: BaseUrlStorage, baseUrl: Option<string>, fault: Option<string>) returns (a: Answer)
    modifies storage.table
    ensures ValidateBaseUrl(baseUrl).Err? ==>
      a == Answer(400, ValidateBaseUrl(baseUrl).error.message) && unchanged(storage.table)
    ensures ValidateBaseUrl(baseUrl).Ok? && fault.Some? ==> a == Answer(500, "") && unchanged(storage.table)
    ensures ValidateBaseUrl(baseUrl).Ok? && fault.None? ==>
      a == Answer(201, "") && storage.table.State() == UpdateSpec(old(storage.table.State()), baseUrl.value)
  {
    if IsBlank(baseUrl) {
      return Answer(400, "baseUrl is missing");
    } else if EndsWith(baseUrl.value, "/") {
      return Answer(400, "baseUrl must not end with a slash");
    }
    if fault.Some? {
      return Answer(500, "");
    }
    storage.UpdateBaseUrl(baseUrl.value);
    a := Answer(201, "");
  }
}
