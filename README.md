# mod-settings, modelled in Dafny

This project models the core of mod-settings, the FOLIO module that stores
settings for each tenant. Its parts:

- **Settings entries.** Each entry has an id, a scope, a key, a JSON value and an optional owning user. The settings storage creates, reads, updates, upserts, deletes and lists them in one table per tenant. Permission tokens decide which rows a caller may read or write (`mod-settings.global|users|owner.read|write.<scope>`). They also decide which rows a listing may show. The listing is streamed as one JSON document.
- **The configuration compatibility API.** Its own `config.<right>.<type>.<scope>` tokens guard a legacy configuration table. The table has a single unique index.
- **The settings router.** It serves:
  - the tenant's base URL and locale, each held as a single row;
  - the tenant addresses, ordered by name, with unique names;
  - the upload of a JSON array of entries, upserted as they stream in;
  - mapping each failure to an HTTP status.
- **The tenant init.** It creates the version table and reads the version stored before the run. For tenants that were below 1.3.0, it moves the base URL, locale and addresses over from mod-configuration. When every part succeeds, it records the new version.

Each Java class is a module. A value type such as an entry, a row or an error is a `datatype`. A class whose fields the source updates in place is a Dafny `class`: the entries, the storages over their tables, the singleton tables, the streamed HTTP response and the upload's shared state. Each storage operation has two parts:

- a specification function on the table, such as `SettingsStorage.CreateSpec`;
- a method that changes the table, whose postcondition says the new table and the result are what that function gives.

What the source promises is then proved as lemmas about the specification functions, for example: a create is read back by a get; an upsert keeps the unique indexes; every listed row passes the point read check; an addresses page is ordered by name and consecutive pages concatenate; the upload's counters count the upserts' results.

Java `null` is `Option`. Exceptions and failed futures are the `Error` datatype:

- `ForbiddenException`, `NotFoundException` and `UserException`;
- `IllegalArgumentException`;
- a PostgreSQL error, identified by its SQLSTATE;
- any other failure.

Everything the code calls but does not define is a parameter or an input. That covers UUID parsing and printing, `new JsonArray(text)`, JSON encoding, `Integer.parseInt`, reason phrases, exception messages, random UUIDs, the answers of mod-configuration, the CQL query, the order the database scans rows in, and database faults.

`MainVerticle` mounts `RouterImpl`, which routes the settings operations through its own `commonError`. `SettingsService` still defines a router, a `commonError` and a failure handler of its own, and `ConfigService` defines the same three. These are modelled as written. `ErrorMapping.ServiceAgreesWithRouter` states the one place where the two differ: a malformed UUID gets 500 from the services' `commonError` but 400 from `RouterImpl`'s.

Some behaviour of the code may be surprising. Each point is stated as a lemma rather than reported as a bug:

- **Update permissions (`SettingsStorage.UpdateChecksSuppliedEntryOnly`).** An update of a settings entry checks the write permission against the supplied entry, not against the stored row.
- **Duplicate updates (`SettingsStorage.UpdateDuplicateIsNotFound`).** An update that would duplicate another entry is answered 404.
- **Duplicate ids (`TenantAddressesService.ConflictAnswered`).** A tenant address created with a taken id is answered 409 "name already exists".
- **Migration deletions (`TenantAddresses.CollectMeaning`).** The addresses migration has already deleted the entries before the first blank id when that id makes it give up.

## Model

| member | source | states |
|---|---|---|
| StringUtil.IndexOfNonWhitespace | src/main/java/org/folio/settings/server/util/StringUtil.java:7-9 | the index it returns is the first non-whitespace character at or after `from`, or the length when everything after `from` is whitespace |
| StringUtil.BlankIffAllWhitespace | src/main/java/org/folio/settings/server/util/StringUtil.java:7-9 | `String.isBlank` holds exactly when every character is whitespace, both directions |
| StringUtil.IsBlankCases | src/main/java/org/folio/settings/server/util/StringUtil.java:7-9 | null and "" are blank; a string with any non-whitespace character is not |
| StringUtil.BlankExamples | src/test/java/org/folio/settings/server/service/LocaleServiceTest.java:92-98 | "", " " and "  " are blank and "de-DE" is not, as the locale tests use them |
| StringUtil.EndsWithSlash | src/main/java/org/folio/settings/server/service/BaseUrlService.java:40 | `endsWith("/")` holds exactly when the last character is '/' |
| ValueMap.Keys | src/main/java/org/folio/settings/server/data/Entry.java:22 | the keys of the value map, one per binding, in insertion order |
| ValueMap.Lookup | src/main/java/org/folio/settings/server/data/Entry.java:22 | a key is found exactly when it is one of the keys, and what is found is a binding of that key |
| ValueMap.Put | src/main/java/org/folio/settings/server/data/Entry.java:50-53 | `put` grows the map by one exactly when the key is new |
| ValueMap.PutLookup | src/main/java/org/folio/settings/server/data/Entry.java:50-53 | after put(k, v) the key k maps to v and every other key keeps its value |
| ValueMap.PutOrder | src/main/java/org/folio/settings/server/data/Entry.java:50-53 | a present key keeps its place in the iteration order; a new key is appended at the end |
| ValueMap.PutDistinct | src/main/java/org/folio/settings/server/data/Entry.java:50-53 | put never makes a key appear twice |
| ValueMap.PutPut | src/main/java/org/folio/settings/server/data/Entry.java:50-53 | putting a key twice is the same as putting the second value only |
| SettingsEntry.FromRow | src/main/java/org/folio/settings/server/storage/SettingsStorage.java:168-177 | an entry read back from a row carries that row's id and owner, and passes validation |
| SettingsEntry.ValidateData | src/main/java/org/folio/settings/server/data/Entry.java:78-88 | validation succeeds exactly when id, scope and key are set; otherwise the first missing field of id, scope, key gives the IllegalArgumentException's message |
| SettingsEntry.ValidateExamples | src/test/java/org/folio/settings/server/data/EntryTest.java:12-30 | the four rows of the validation test: a full entry passes; no id, no scope or no key fail with their messages |
| SettingsEntry.Entry.constructor | src/main/java/org/folio/settings/server/data/Entry.java:13-24 | a new entry has every field null and an empty value map |
| SettingsEntry.Entry.SetId | src/main/java/org/folio/settings/server/data/Entry.java:30-32 | sets the id and nothing else |
| SettingsEntry.Entry.SetScope | src/main/java/org/folio/settings/server/data/Entry.java:38-40 | sets the scope and nothing else |
| SettingsEntry.Entry.SetKey | src/main/java/org/folio/settings/server/data/Entry.java:46-48 | sets the key and nothing else |
| SettingsEntry.Entry.SetUserId | src/main/java/org/folio/settings/server/data/Entry.java:70-72 | sets the owner and nothing else |
| SettingsEntry.Entry.SetValue | src/main/java/org/folio/settings/server/data/Entry.java:50-53 | the value map becomes put(old, k, v): k maps to v, other keys keep their values, and no key appears twice |
| SettingsEntry.Entry.GetValue | src/main/java/org/folio/settings/server/data/Entry.java:59-64 | the JsonObject built by putting each binding in turn holds the same bindings in the same order |
| SettingsEntry.Entry.Validate | src/main/java/org/folio/settings/server/data/Entry.java:78-88 | the method answers as ValidateData of the entry's fields |
| ConfigEntry.Entry.constructor | src/main/java/org/folio/config/server/data/Entry.java:14-25 | a new configuration entry has every field null and an empty value map |
| ConfigEntry.Entry.SetId | src/main/java/org/folio/config/server/data/Entry.java:31-33 | sets the id and nothing else |
| ConfigEntry.Entry.SetScope | src/main/java/org/folio/config/server/data/Entry.java:39-41 | sets the scope and nothing else |
| ConfigEntry.Entry.SetKey | src/main/java/org/folio/config/server/data/Entry.java:47-49 | sets the key and nothing else |
| ConfigEntry.Entry.SetUserId | src/main/java/org/folio/config/server/data/Entry.java:67-69 | sets the owner and nothing else |
| ConfigEntry.Entry.SetValue | src/main/java/org/folio/config/server/data/Entry.java:51-54 | put(k, v) on the value map: k maps to v, other keys keep their values, no key twice |
| ConfigEntry.Entry.GetValue | src/main/java/org/folio/config/server/data/Entry.java:56-61 | the JsonObject copy has as many bindings as the map and looks up every key the same way |
| Paging.Page | src/main/java/org/folio/settings/server/storage/SettingsStorage.java:357-359 | LIMIT/OFFSET: the page has min(limit, rows after offset) rows, and its i-th row is the (offset+i)-th row selected |
| Paging.PagesPartition | src/main/java/org/folio/settings/server/storage/TenantAddressesStorage.java:149-155 | consecutive pages concatenate to the larger page, so paging neither repeats nor skips a row |
| NameOrder.LexLeRefl | src/main/java/org/folio/settings/server/storage/TenantAddressesStorage.java:149-155 | every name sorts at or before itself |
| NameOrder.LexLeAntisym | src/main/java/org/folio/settings/server/storage/TenantAddressesStorage.java:149-155 | two names that sort at or before each other are equal |
| NameOrder.LexLeTrans | src/main/java/org/folio/settings/server/storage/TenantAddressesStorage.java:149-155 | the name order is transitive |
| NameOrder.LexLeTotal | src/main/java/org/folio/settings/server/storage/TenantAddressesStorage.java:149-155 | any two names are comparable |
| NameOrder.LexLeTotalOrder | src/main/java/org/folio/settings/server/storage/TenantAddressesStorage.java:149-155 | ORDER BY name sorts by a total order: reflexive, antisymmetric, transitive and total |
| Singleton.InitFresh | src/main/java/org/folio/settings/server/storage/VersionStorage.java:26-61 | the first init of an empty tenant leaves exactly the default row, guarded by the trigger, and a read returns it |
| Singleton.InitAgain | src/main/java/org/folio/settings/server/storage/VersionStorage.java:33-40 | a later init is a no-op: the guarded INSERT fails with P0001 and that error is swallowed |
| Singleton.SingleKept | src/main/java/org/folio/settings/server/storage/VersionStorage.java:42-79 | on a guarded table INSERT and DELETE fail with P0001 and change nothing; UPDATE keeps one row and the next read, even after another init, returns the new value |
| Singleton.UnguardedInsert | src/main/java/org/folio/settings/server/storage/VersionStorage.java:33-40 | before the trigger exists nothing stops a second row: the INSERT succeeds and adds one |
| Singleton.SingletonTable.constructor | src/main/java/org/folio/settings/server/storage/VersionStorage.java:29-31 | a new schema has no row and no trigger |
| Singleton.SingletonTable.Init | src/main/java/org/folio/settings/server/storage/VersionStorage.java:26-61 | the table becomes InitSpec of the old one: the default row only without the trigger, and the trigger afterwards |
| Singleton.SingletonTable.Insert | src/main/java/org/folio/settings/server/storage/VersionStorage.java:42-59 | the result and new table are InsertSpec: refused with P0001 once the trigger exists |
| Singleton.SingletonTable.Delete | src/main/java/org/folio/settings/server/storage/VersionStorage.java:42-59 | the result and new table are DeleteSpec: refused with P0001 once the trigger exists |
| Singleton.SingletonTable.Read | src/main/java/org/folio/settings/server/storage/VersionStorage.java:66-70 | reads the first row; an empty table fails as `iterator().next()` does |
| Singleton.SingletonTable.Update | src/main/java/org/folio/settings/server/storage/VersionStorage.java:75-79 | UPDATE without WHERE: every row becomes the new value |
| Version.LessTotal | src/main/java/org/folio/settings/server/storage/BaseUrlStorage.java:81-85 | the version order is a strict total order |
| Version.MigratesExamples | src/test/java/org/folio/settings/server/service/LocaleServiceTest.java:201-208 | 0.0.0 and 1.2.0 migrate; 1.3.0, 1.11.4 and 2.0.0 do not (11 > 3 numerically) |
| Version.VersionStorage.constructor | src/main/java/org/folio/settings/server/storage/VersionStorage.java:18-21 | the storage works on the given module_version table |
| Version.VersionStorage.Init | src/main/java/org/folio/settings/server/storage/VersionStorage.java:26-61 | init stores 0.0.0 in a fresh table and leaves a guarded one-row table alone |
| Version.VersionStorage.GetVersion | src/main/java/org/folio/settings/server/storage/VersionStorage.java:66-70 | the version read is the first row, or a failure for an empty table |
| Version.VersionStorage.SetVersion | src/main/java/org/folio/settings/server/storage/VersionStorage.java:75-79 | every row becomes v, so a later read of a non-empty table returns v, and a one-row guarded table stays that way |
| BaseUrl.Stripped | src/main/java/org/folio/settings/server/storage/BaseUrlStorage.java:124-130 | the result is a prefix of the url, does not end with '/', and everything cut off is '/' |
| BaseUrl.StripTrailingSlashes | src/main/java/org/folio/settings/server/storage/BaseUrlStorage.java:124-130 | the loop that moves `end` back over the slashes returns Stripped(url) |
| BaseUrl.StrippedUnique | src/main/java/org/folio/settings/server/storage/BaseUrlStorage.java:124-130 | the three properties of Stripped determine it: any string with them is Stripped(url) |
| BaseUrl.StrippedIdempotent | src/main/java/org/folio/settings/server/storage/BaseUrlStorage.java:124-130 | stripping twice equals stripping once; a url without a trailing slash is kept as is |
| BaseUrl.StrippedExamples | src/test/java/org/folio/settings/server/storage/BaseUrlStorageTest.java:11-21 | the five rows of the stripTrailingSlashes test |
| BaseUrl.ValidateBaseUrl | src/main/java/org/folio/settings/server/service/BaseUrlService.java:36-49 | a base URL is accepted exactly when it is not blank and does not end with '/', and is then stored as given |
| BaseUrl.ValidateBaseUrlExamples | src/main/java/org/folio/settings/server/service/BaseUrlService.java:38-42 | the blank check comes first: null and " " are missing, "/" ends with a slash, a plain url passes |
| BaseUrl.StrippedPassesValidation | src/main/java/org/folio/settings/server/storage/BaseUrlStorage.java:108 | a migrated base URL that is not blank would pass PUT /base-url's own check |
| BaseUrl.BaseUrlStorage.constructor | src/main/java/org/folio/settings/server/storage/BaseUrlStorage.java:27-30 | the storage works on the given baseurl table |
| BaseUrl.BaseUrlStorage.Init | src/main/java/org/folio/settings/server/storage/BaseUrlStorage.java:35-92 | init creates the default row if there is none, then for a tenant older than 1.3.0 stores the mod-configuration value without trailing slashes when there is one |
| BaseUrl.BaseUrlStorage.GetBaseUrl | src/main/java/org/folio/settings/server/storage/BaseUrlStorage.java:135-139 | the base URL read is the first row, or a failure for an empty table |
| BaseUrl.BaseUrlStorage.UpdateBaseUrl | src/main/java/org/folio/settings/server/storage/BaseUrlStorage.java:144-148 | every row becomes the new base URL |
| BaseUrl.MigrationEffect | src/main/java/org/folio/settings/server/storage/BaseUrlStorage.java:81-118 | on a guarded table, a tenant older than 1.3.0 with a FOLIO_HOST value reads that value without trailing slashes afterwards; otherwise the row is unchanged; one row either way |
| BaseUrl.SetBaseUrl | src/main/java/org/folio/settings/server/service/BaseUrlService.java:36-49 | PUT /base-url: 400 with the reason and no change for a refused value; 201 and the value stored for an accepted one; 500 and no change when the database fails |
| Locale.ValidateLocaleMeaning | src/main/java/org/folio/settings/server/service/LocaleService.java:37-55 | a record is accepted exactly when no field is blank and the numbering system is exactly latn or arab, and it is then stored unchanged |
| Locale.ValidateLocaleExamples | src/test/java/org/folio/settings/server/service/LocaleServiceTest.java:92-140 | the tests' cases: a full de-DE record is accepted; blank fields give their messages in check order; LATN, latin and " latn" are refused |
| Locale.SanitizedValid | src/main/java/org/folio/settings/server/storage/LocaleStorage.java:162-180 | a sanitised record always passes setLocale's validation |
| Locale.SanitizedKeeps | src/main/java/org/folio/settings/server/storage/LocaleStorage.java:162-180 | sanitising keeps every field that is not blank and a known numbering system; it is idempotent and keeps a valid record unchanged |
| Locale.LocaleSettings.constructor | src/main/java/org/folio/settings/server/storage/LocaleStorage.java:140-144 | a LocaleSettings object holds the four given fields |
| Locale.LocaleSettings.Sanitize | src/main/java/org/folio/settings/server/storage/LocaleStorage.java:166-178 | the setters leave the object's fields equal to Sanitized of the old ones |
| Locale.LocaleStorage.constructor | src/main/java/org/folio/settings/server/storage/LocaleStorage.java:29-32 | the storage works on the given locale table |
| Locale.LocaleStorage.GetLocale | src/main/java/org/folio/settings/server/storage/LocaleStorage.java:135-146 | the four columns of the first row, or a failure for an empty table |
| Locale.LocaleStorage.UpdateLocale | src/main/java/org/folio/settings/server/storage/LocaleStorage.java:151-160 | a null field fails with a NOT NULL violation and changes nothing; otherwise every row becomes the record |
| Locale.LocaleStorage.UpdateLocaleSanitized | src/main/java/org/folio/settings/server/storage/LocaleStorage.java:162-180 | null does nothing; otherwise the object is sanitised in place and stored, which always succeeds |
| Locale.LocaleStorage.Init | src/main/java/org/folio/settings/server/storage/LocaleStorage.java:37-100 | init creates the default row if there is none, then for a tenant older than 1.3.0 stores the mod-configuration record, sanitised, when there is one; in a database without faults it never fails |
| Locale.MigrationEffect | src/main/java/org/folio/settings/server/storage/LocaleStorage.java:89-100 | on a guarded table a migrated record reads back sanitised and valid; without a record or at 1.3.0 or later the row is unchanged |
| Locale.SetLocale | src/main/java/org/folio/settings/server/service/LocaleService.java:37-55 | PUT /locale: 400 with the first reason and no change for a refused record; 201 and all four fields replaced for an accepted one; 500 when the database fails |
| SettingsPermissions.GlobalTokens | src/main/java/org/folio/settings/server/storage/SettingsStorage.java:106-111 | keeps exactly the string items that begin with `mod-settings.global.` |
| SettingsPermissions.OwnerlessNeedsGlobalToken | src/main/java/org/folio/settings/server/storage/SettingsStorage.java:105-111 | for an ownerless entry only the global tokens count and the caller does not: the decision is the same with only those tokens and any caller |
| SettingsPermissions.UsersTokenGrantsEveryOwner | src/main/java/org/folio/settings/server/storage/SettingsStorage.java:112-117 | a users token grants every owned entry of its scope, whoever asks |
| SettingsPermissions.OwnedNeedsOwnerOrUsers | src/main/java/org/folio/settings/server/storage/SettingsStorage.java:112-122 | an owned entry is granted to a caller who is not its owner exactly when a users token grants it, and to its owner exactly when a users or an owner token does |
| SettingsPermissions.OnConflictClause | src/main/java/org/folio/settings/server/storage/SettingsStorage.java:179-183 | the conflict target is (scope, key, userId) exactly when the entry has an owner, else (scope, key) |
| SettingsPermissions.IndexOf | src/main/java/org/folio/settings/server/storage/SettingsStorage.java:130-132 | `String.indexOf(c, from)`: -1, or an index at or after `from` holding c |
| SettingsPermissions.IndexOfFirst | src/main/java/org/folio/settings/server/storage/SettingsStorage.java:130-132 | no index from `from` up to the one found (or to the end, when none is found) holds c |
| SettingsPermissions.IndexOfIs | src/main/java/org/folio/settings/server/storage/SettingsStorage.java:130-132 | the index of c found from `from` is `at` when s[at] is c and nothing before it from `from` is |
| SettingsPermissions.ParseSegments | src/main/java/org/folio/settings/server/storage/SettingsStorage.java:129-141 | a token of three dot-free segments a.b.c and a remainder is read exactly when a is mod-settings, c is read and the remainder is non-empty, and then yields (b, remainder) |
| SettingsPermissions.ParseReadTokenSome | src/main/java/org/folio/settings/server/storage/SettingsStorage.java:129-141 | whatever the listing reads from a token is its canonical reading: the token is `mod-settings.<right>.read.<scope>` with a dot-free right and a non-empty scope |
| SettingsPermissions.ParseCanonical | src/main/java/org/folio/settings/server/storage/SettingsStorage.java:129-141 | a canonical read token is read as its right and scope |
| SettingsPermissions.ReversedUnparsed | src/main/java/org/folio/settings/server/storage/SettingsStorage.java:133-135 | the listing never reads the reversed form `mod-settings.<right>.<scope>.read` of a dot-free scope other than "read" |
| SettingsPermissions.ParseReadTokenIff | src/main/java/org/folio/settings/server/storage/SettingsStorage.java:129-141 | a token is read as (right, scope) exactly when it is the canonical read token for them, both directions |
| SettingsPermissions.RightsForHas | src/main/java/org/folio/settings/server/storage/SettingsStorage.java:138-140 | a right an item gives its scope is in that scope's collected rights set |
| SettingsPermissions.RightsForFrom | src/main/java/org/folio/settings/server/storage/SettingsStorage.java:138-140 | every collected right was given by some item |
| SettingsPermissions.RightsForMembership | src/main/java/org/folio/settings/server/storage/SettingsStorage.java:128-144 | a right is collected for a scope exactly when some item gives it |
| SettingsPermissions.ScopesAreNonEmptyRights | src/main/java/org/folio/settings/server/storage/SettingsStorage.java:137-140 | a scope is a key of the scope map exactly when its rights set is non-empty |
| SettingsPermissions.ScopeLimitsExact | src/main/java/org/folio/settings/server/storage/SettingsStorage.java:146-163 | a scope's limits admit exactly the rows of that scope its rights grant: global the ownerless rows, users every owned row, owner the caller's own rows |
| SettingsPermissions.TokenCollected | src/main/java/org/folio/settings/server/storage/SettingsStorage.java:128-144 | a canonical read token is in the list exactly when its right is collected for its scope |
| SettingsPermissions.ScopeLimitsOfScope | src/main/java/org/folio/settings/server/storage/SettingsStorage.java:147 | every limit emitted for a scope restricts rows to that scope |
| SettingsPermissions.LimitSetMember | src/main/java/org/folio/settings/server/storage/SettingsStorage.java:146-164 | each limit comes from its own scope, which has a read token |
| SettingsPermissions.ScopeNonEmpty | src/main/java/org/folio/settings/server/storage/SettingsStorage.java:137 | a scope read from a token is never empty |
| SettingsPermissions.VisibleIsCanonical | src/main/java/org/folio/settings/server/storage/SettingsStorage.java:125-166 | soundness: a row some limit admits is granted by a canonical read token |
| SettingsPermissions.CanonicalIsVisible | src/main/java/org/folio/settings/server/storage/SettingsStorage.java:125-166 | completeness: a row a canonical read token grants is admitted by some limit |
| SettingsPermissions.VisibleIffCanonicalRead | src/main/java/org/folio/settings/server/storage/SettingsStorage.java:125-166 | a listing shows exactly the rows that canonical read tokens grant, both directions |
| SettingsPermissions.LimitsSound | src/main/java/org/folio/settings/server/storage/SettingsStorage.java:103-166 | every row a listing limit admits also passes checkDesiredPermissions("read") with the same permissions and caller |
| SettingsPermissions.NoScopesNoLimits | src/main/java/org/folio/settings/server/storage/SettingsStorage.java:145-165 | without any read token there are no limits |
| SettingsPermissions.ReversedTokenNotListed | src/main/java/org/folio/settings/server/storage/SettingsStorage.java:107-110 | `mod-settings.global.ui.read` grants a point read of an ownerless "ui" entry but yields no listing limit at all |
| SettingsPermissions.OwnerTokenWithoutCallerGivesNoLimits | src/main/java/org/folio/settings/server/storage/SettingsStorage.java:157-162 | a single owner read token without a caller id gives no limits, so the listing is refused |
| SettingsPermissions.OwnerUiTokenWithoutCaller | src/main/java/org/folio/settings/server/storage/SettingsStorage.java:157-162 | `mod-settings.owner.read.ui` alone gives an anonymous caller no limits |
| SettingsPermissions.LimitSetOrderIndependent | src/main/java/org/folio/settings/server/storage/SettingsStorage.java:125-166 | the limits depend only on which tokens are present, not on their order or repeats |
| SettingsPermissions.ScopesSnoc | src/main/java/org/folio/settings/server/storage/SettingsStorage.java:128-144 | one more item adds its scope to the keys and its right to that scope's set |
| SettingsPermissions.StepOfMeaning | src/main/java/org/folio/settings/server/storage/SettingsStorage.java:138-140 | putIfAbsent then add: the item's scope joins the keys and its right joins that scope's set, nothing else changes |
| SettingsPermissions.CollectStep | src/main/java/org/folio/settings/server/storage/SettingsStorage.java:128-144 | one step of the forEach keeps the scope map equal to the scopes and rights of the items seen so far |
| SettingsPermissions.LimitsOverStep | src/main/java/org/folio/settings/server/storage/SettingsStorage.java:146-164 | emitting one more scope adds exactly that scope's limits |
| SettingsPermissions.LimitsOverAll | src/main/java/org/folio/settings/server/storage/SettingsStorage.java:125-166 | once every scope of the collected map is emitted, the limits are those of the permissions |
| SettingsPermissions.CollectScopes | src/main/java/org/folio/settings/server/storage/SettingsStorage.java:127-144 | the forEach loop leaves the map from each scope with read tokens to its set of rights |
| SettingsPermissions.EmitLimits | src/main/java/org/folio/settings/server/storage/SettingsStorage.java:145-164 | the loop over the scope map, in any order, emits exactly the limits of every scope |
| SettingsPermissions.GetCqlLimitPermissions | src/main/java/org/folio/settings/server/storage/SettingsStorage.java:125-166 | the list holds exactly the limits of the permissions (as a set; the order follows the map's iteration) |
| SettingsListing.Selected | src/main/java/org/folio/settings/server/storage/SettingsStorage.java:342-356 | the selected rows are exactly the scanned rows the query accepts and some limit admits, and they are a subsequence of the scan, so scan order is kept |
| SettingsListing.SelectedReadable | src/main/java/org/folio/settings/server/storage/SettingsStorage.java:340-365 | every listed row also passes the point read check for the same permissions and caller |
| SettingsListing.SelectedIffCanonicalRead | src/main/java/org/folio/settings/server/storage/SettingsStorage.java:340-365 | a row the query accepts is listed exactly when a canonical read token grants it |
| SettingsListing.JoinSnoc | src/main/java/org/folio/settings/server/storage/SettingsStorage.java:382-388 | writing one more row after at least one adds a comma and the row |
| SettingsListing.JoinConcat | src/main/java/org/folio/settings/server/storage/SettingsStorage.java:382-388 | two non-empty runs of rows join with exactly one comma between them, so commas sit only between rows |
| SettingsListing.JoinEnds | src/main/java/org/folio/settings/server/storage/SettingsStorage.java:382-388 | the joined rows begin with the first row's text and end with the last row's |
| SettingsListing.ResultInfoShape | src/main/java/org/folio/settings/server/storage/SettingsStorage.java:418-428 | resultInfo always has totalRecords (null when unknown) and a diagnostics array, which holds one message exactly when a diagnostic was given |
| SettingsListing.Response.constructor | src/main/java/org/folio/settings/server/storage/SettingsStorage.java:367-379 | a fresh response: not chunked, no content type, nothing written, not ended |
| SettingsListing.Response.Write | src/main/java/org/folio/settings/server/storage/SettingsStorage.java:379 | write appends its text to the body |
| SettingsListing.Response.End | src/main/java/org/folio/settings/server/storage/SettingsStorage.java:427 | end marks the response ended |
| SettingsListing.StreamRows | src/main/java/org/folio/settings/server/storage/SettingsStorage.java:380-388 | the row handler with its `first` flag writes the encoded rows separated by commas, none before the first |
| SettingsListing.ResultFooter | src/main/java/org/folio/settings/server/storage/SettingsStorage.java:418-428 | the footer closes the array, writes resultInfo and the closing brace, and ends the response |
| SettingsListing.StreamedTextFramed | src/main/java/org/folio/settings/server/storage/SettingsStorage.java:367-411 | an opened listing writes header, joined rows and footer; it succeeds exactly when the footer has a total; after a failure the footer's diagnostic is the exception's message, absent when that message is null, and a diagnostic is only ever written for a failed listing |
| SettingsListing.StreamResult | src/main/java/org/folio/settings/server/storage/SettingsStorage.java:367-411 | streamResult writes StreamedText of the cursor and fails or succeeds as it ends; a query that cannot be prepared writes nothing, otherwise the response is chunked JSON and ended |
| SettingsStorage.CollideIsPartialIndexes | src/main/java/org/folio/settings/server/storage/SettingsStorage.java:86-90 | two rows collide exactly when they sit in the same partial unique index and agree on its columns |
| SettingsStorage.FromRowOf | src/main/java/org/folio/settings/server/storage/SettingsStorage.java:168-177 | a complete entry stored under its id reads back as itself |
| SettingsStorage.CollidingIdUnique | src/main/java/org/folio/settings/server/storage/SettingsStorage.java:318-328 | in a unique table the row an upsert conflicts with is the only one |
| SettingsStorage.CreateEffect | src/main/java/org/folio/settings/server/storage/SettingsStorage.java:191-210 | createEntry keeps the table unique; success adds exactly the entry under its new id and changes no other row; failure changes nothing |
| SettingsStorage.CreateForbidden | src/main/java/org/folio/settings/server/storage/SettingsStorage.java:192-207 | without the write permission, or when the entry already exists, createEntry fails Forbidden and changes nothing |
| SettingsStorage.CreateTwice | src/main/java/org/folio/settings/server/storage/SettingsStorage.java:195-207 | a second create of the same entry fails Forbidden, and only the first row holds the entry |
| SettingsStorage.CreateThenGet | src/main/java/org/folio/settings/server/storage/SettingsStorage.java:191-229 | after a successful create, a get of its id by a caller who may read it returns the entry created |
| SettingsStorage.GetMeaning | src/main/java/org/folio/settings/server/storage/SettingsStorage.java:218-242 | getEntry succeeds exactly when the id exists and the caller may read the stored entry, and returns it; every failure is NotFound |
| SettingsStorage.DeleteEffect | src/main/java/org/folio/settings/server/storage/SettingsStorage.java:250-268 | deleteEntry succeeds exactly when the id exists and the caller may write the stored entry, then removes that id only; a failure is NotFound and changes nothing |
| SettingsStorage.UpdateEffect | src/main/java/org/folio/settings/server/storage/SettingsStorage.java:276-303 | updateEntry keeps the table unique; success replaces exactly that id's row with the entry; failure changes nothing |
| SettingsStorage.UpdateChecksSuppliedEntryOnly | src/main/java/org/folio/settings/server/storage/SettingsStorage.java:277-279 | the write check is made on the supplied entry only, so an update may rewrite a row whose stored owner the caller could not write |
| SettingsStorage.UpdateDuplicateIsNotFound | src/main/java/org/folio/settings/server/storage/SettingsStorage.java:294-301 | an update that would duplicate another row's entry (23505) is answered NotFound and changes nothing |
| SettingsStorage.UpsertKeepsUnique | src/main/java/org/folio/settings/server/storage/SettingsStorage.java:310-329 | upsertEntry keeps the table unique, whatever id it draws |
| SettingsStorage.UpsertEffect | src/main/java/org/folio/settings/server/storage/SettingsStorage.java:310-329 | a supplied id is refused; a conflict only replaces the existing row's value and answers false; otherwise the new row is added under the drawn id and the answer is true |
| SettingsStorage.UpsertTwice | src/main/java/org/folio/settings/server/storage/SettingsStorage.java:318-328 | upserting the same entry twice inserts once (true), then only rewrites the value (false) |
| SettingsStorage.Scan | src/main/java/org/folio/settings/server/storage/SettingsStorage.java:381 | the scanned rows are the table's rows in the database's order |
| SettingsStorage.ListedRows | src/main/java/org/folio/settings/server/storage/SettingsStorage.java:340-365 | a row is selected by getEntries exactly when the query accepts it and a canonical read token grants it, and each selected row passes the point read check |
| SettingsStorage.ListingTotal | src/main/java/org/folio/settings/server/storage/SettingsStorage.java:357-364 | without faults totalRecords counts every selected row, and the page holds at most `limit` rows (exactly `limit` when enough rows follow the offset) |
| SettingsStorage.SettingsTable.constructor | src/main/java/org/folio/settings/server/storage/SettingsStorage.java:77-92 | a freshly created settings table is empty, hence unique |
| SettingsStorage.Storage.constructor | src/main/java/org/folio/settings/server/storage/SettingsStorage.java:65-70 | the storage holds the caller's permissions and user id and the tenant's table |
| SettingsStorage.Storage.CreateEntry | src/main/java/org/folio/settings/server/storage/SettingsStorage.java:191-210 | result and new table are CreateSpec of the old table; the table stays unique |
| SettingsStorage.Storage.GetEntry | src/main/java/org/folio/settings/server/storage/SettingsStorage.java:218-242 | the result is GetSpec of the table |
| SettingsStorage.Storage.DeleteEntry | src/main/java/org/folio/settings/server/storage/SettingsStorage.java:250-268 | result and new table are DeleteSpec of the old table; the table stays unique |
| SettingsStorage.Storage.UpdateEntry | src/main/java/org/folio/settings/server/storage/SettingsStorage.java:276-303 | result and new table are UpdateSpec of the old table; the table stays unique |
| SettingsStorage.Storage.UpsertEntry | src/main/java/org/folio/settings/server/storage/SettingsStorage.java:310-329 | result, new table and the entry's id are UpsertSpec of the old ones; no other field of the entry changes; the table stays unique |
| SettingsStorage.Storage.GetEntries | src/main/java/org/folio/settings/server/storage/SettingsStorage.java:340-365 | without any limit the listing is Forbidden and writes nothing; otherwise it streams the page of rows the limits and query select, with their total |
| ConfigStorage.OwnerlessConfigAccess | src/main/java/org/folio/config/server/storage/ConfigStorage.java:72-77 | an ownerless entry is granted exactly when the permissions hold `config.global.<type>.<scope>`; for a type and a scope that differ and hold no dot, the scope-before-type token alone grants nothing |
| ConfigStorage.OwnedConfigAccess | src/main/java/org/folio/config/server/storage/ConfigStorage.java:72-83 | an owned entry is granted by the others token whoever calls; without it exactly when the caller is the owner and holds the user token; an anonymous caller needs the others token |
| ConfigStorage.CreateEffect | src/main/java/org/folio/config/server/storage/ConfigStorage.java:90-101 | createEntry keeps the table unique; without the write permission it is Forbidden; a failure changes nothing; success adds exactly the entry's row under its new id |
| ConfigStorage.OwnerlessDuplicatesAccepted | src/main/java/org/folio/config/server/storage/ConfigStorage.java:59-60 | the one index on (scope, key, userId) admits a second ownerless row with the same scope and key, which the settings table refuses; an owned duplicate is a unique violation |
| ConfigStorage.GetMeaning | src/main/java/org/folio/config/server/storage/ConfigStorage.java:119-134 | getEntry answers no entry exactly for an absent id, Forbidden exactly for a row the caller may not read, and otherwise the stored entry, which the caller may read |
| ConfigStorage.CreateThenGet | src/main/java/org/folio/config/server/storage/ConfigStorage.java:90-134 | a created entry reads back as itself, or Forbidden for a caller without the read permission |
| ConfigStorage.ConfigTable.constructor | src/main/java/org/folio/config/server/storage/ConfigStorage.java:50-62 | a freshly created config table is empty, hence unique |
| ConfigStorage.Storage.constructor | src/main/java/org/folio/config/server/storage/ConfigStorage.java:39-44 | the storage holds the caller's permissions and user id and the tenant's table |
| ConfigStorage.Storage.CreateEntry | src/main/java/org/folio/config/server/storage/ConfigStorage.java:90-101 | result and new table are CreateSpec of the old table; the table stays unique |
| ConfigStorage.Storage.GetEntry | src/main/java/org/folio/config/server/storage/ConfigStorage.java:119-134 | the result is GetSpec of the table |
| ConfigService.ListingNotImplemented | src/main/java/org/folio/config/server/service/ConfigService.java:131-133 | the listing always fails, and is answered 500 "Not implemented" |
| ConfigService.NoTenant | src/main/java/org/folio/config/server/service/ConfigService.java:104-110 | without a tenant header create, get and PUT fail with "tenant required" and leave the table alone |
| ConfigService.PostMeaning | src/main/java/org/folio/config/server/service/ConfigService.java:135-151 | a create without user id and permissions headers is the storage's create for nobody with no permissions, so it is Forbidden |
| RequestHeaders.CallerOfMeaning | src/main/java/org/folio/settings/server/service/SettingsService.java:103-128 | create(ctx) succeeds exactly when a tenant is given and the given user id and permissions parse; no user id means nobody, no permissions header means none |
| RequestHeaders.PutTargetMeaning | src/main/java/org/folio/settings/server/service/SettingsService.java:165-180 | a PUT reaches the storage exactly when the headers and the path parse and the path names the body's id; otherwise with well-formed parts it fails "id mismatch" |
| SettingsService.NoTenant | src/main/java/org/folio/settings/server/service/SettingsService.java:103-110 | without a tenant header post, get, put and delete all fail "tenant required", change nothing, and are answered 500 |
| SettingsService.PutMeaning | src/main/java/org/folio/settings/server/service/SettingsService.java:165-185 | a PUT naming another id is answered 400 "id mismatch" and changes nothing; one naming the body's id is the storage's update for that caller |
| SettingsService.ListingPageDefaults | src/main/java/org/folio/settings/server/service/SettingsService.java:204-219 | getSettings lists 10 rows from offset 0 unless a limit or offset is found among the path parameters it looks them up in; one given in the query string is never read there |
| ErrorMapping.RouterCommonErrorMeaning | src/main/java/org/folio/settings/server/main/RouterImpl.java:55-73 | the body is the cause's message; 403 exactly for Forbidden, 404 exactly for NotFound, 400 exactly for a user error or IllegalArgumentException, 500 exactly for the rest |
| ErrorMapping.RouterFailureMeaning | src/main/java/org/folio/settings/server/main/RouterImpl.java:51-73 | a failure without a cause is answered with the context's code and its reason phrase; a known kind keeps its status; any other cause gets the context's code |
| ErrorMapping.ServiceAgreesWithRouter | src/main/java/org/folio/settings/server/service/SettingsService.java:52-62 | the services' commonError answers like RouterImpl's except IllegalArgumentException, which it answers 500 where the router answers 400; the body is the same |
| ErrorMapping.FailureHandlersAgree | src/main/java/org/folio/settings/server/service/SettingsService.java:46-50 | for a failure without a cause the services' failure handler answers as RouterImpl's does |
| TenantAddresses.LeastExists | src/main/java/org/folio/settings/server/storage/TenantAddressesStorage.java:150-151 | a non-empty table has a row whose name sorts first |
| TenantAddresses.LeastUnique | src/main/java/org/folio/settings/server/storage/TenantAddressesStorage.java:53 | with unique names that row is the only one |
| TenantAddresses.SortedByName | src/main/java/org/folio/settings/server/storage/TenantAddressesStorage.java:150-151 | ORDER BY name lists every row of the table once, by strictly increasing name |
| TenantAddresses.AsAddresses | src/main/java/org/folio/settings/server/storage/TenantAddressesStorage.java:197-204 | each row becomes a TenantAddress with its id as text, in the rows' order |
| TenantAddresses.ListMeaning | src/main/java/org/folio/settings/server/storage/TenantAddressesStorage.java:149-155 | the listing fails exactly for a negative offset or limit (offset first); a page holds at most `limit` rows of the table, by strictly increasing name; offset 0 with a limit covering the table lists every row |
| TenantAddresses.ListRows | src/main/java/org/folio/settings/server/storage/TenantAddressesStorage.java:149-155 | every listed address is a row of the table |
| TenantAddresses.ListOrdered | src/main/java/org/folio/settings/server/storage/TenantAddressesStorage.java:150-151 | a page lists names in strictly increasing order |
| TenantAddresses.ListAll | src/main/java/org/folio/settings/server/storage/TenantAddressesStorage.java:149-155 | a first page as long as the table lists every row |
| TenantAddresses.ListPages | src/main/java/org/folio/settings/server/storage/TenantAddressesStorage.java:149-155 | a page of a rows followed by the page of b rows after it is the page of a + b rows |
| TenantAddresses.CanonicalIdMeaning | src/main/java/org/folio/settings/server/storage/TenantAddressesStorage.java:216-223 | a parseable id keeps the UUID it denotes, any other id becomes the random one, and normalising is idempotent |
| TenantAddresses.NotFoundById | src/main/java/org/folio/settings/server/storage/TenantAddressesStorage.java:160-214 | get, update and delete of an id no row has fail NotFound and change nothing |
| TenantAddresses.UnparsableId | src/main/java/org/folio/settings/server/storage/TenantAddressesStorage.java:160-195 | get, update and delete of an id text that does not parse fail with the parse error and change nothing |
| TenantAddresses.CreateEffect | src/main/java/org/folio/settings/server/storage/TenantAddressesStorage.java:170-176 | create succeeds exactly when name and address are given and the normalised id and the name are free; it then adds exactly that row and answers the normalised address; failure changes nothing; names stay unique |
| TenantAddresses.CreateThenGet | src/main/java/org/folio/settings/server/storage/TenantAddressesStorage.java:160-176 | the address create answers is what a get by its id reads back |
| TenantAddresses.UpdateEffect | src/main/java/org/folio/settings/server/storage/TenantAddressesStorage.java:181-186 | update succeeds exactly when the row exists, both columns are given and no other row has the name; it rewrites that row only; failure changes nothing |
| TenantAddresses.DeleteEffect | src/main/java/org/folio/settings/server/storage/TenantAddressesStorage.java:191-195 | delete succeeds exactly when the row exists and removes that id only |
| TenantAddresses.ParseAddress | src/main/java/org/folio/settings/server/storage/TenantAddressesStorage.java:118-127 | an address is kept exactly when its value reads and its name is not blank; it then carries the config entry's id, normalised |
| TenantAddresses.FirstBlank | src/main/java/org/folio/settings/server/storage/TenantAddressesStorage.java:100-102 | the first element with a blank id: every earlier one has an id |
| TenantAddresses.CollectFromAborts | src/main/java/org/folio/settings/server/storage/TenantAddressesStorage.java:91-109 | the loop from element i stops early exactly when a blank id follows |
| TenantAddresses.CollectFromDeletes | src/main/java/org/folio/settings/server/storage/TenantAddressesStorage.java:100-108 | the loop from element i deletes the entries before the first blank id, in order |
| TenantAddresses.CollectFromAddresses | src/main/java/org/folio/settings/server/storage/TenantAddressesStorage.java:95-98 | a loop that runs to the end keeps every parsed address, in order |
| TenantAddresses.CollectMeaning | src/main/java/org/folio/settings/server/storage/TenantAddressesStorage.java:89-113 | a blank id anywhere leaves nothing to insert, yet the entries before the first blank id are deleted; without one every parsed address is kept and every entry deleted |
| TenantAddresses.InsertMigratedKeeps | src/main/java/org/folio/settings/server/storage/TenantAddressesStorage.java:133-144 | the migrated inserts never change a stored row (a taken name is skipped), add only rows carrying a migrated address, and keep names unique |
| TenantAddresses.TakenNameSkipped | src/main/java/org/folio/settings/server/storage/TenantAddressesStorage.java:140-141 | ON CONFLICT (name) DO NOTHING: a complete address whose name is stored is skipped without error |
| TenantAddresses.MigrationEffect | src/main/java/org/folio/settings/server/storage/TenantAddressesStorage.java:59-116 | a tenant at 1.3.0 or later or an unusable answer changes nothing and deletes nothing; a blank id leaves the table alone; a migration never changes a stored row and keeps names unique |
| TenantAddresses.TenantAddress.constructor | src/main/java/org/folio/settings/server/storage/TenantAddressesStorage.java:199-202 | a TenantAddress holds the fields it is made with |
| TenantAddresses.TenantAddress.UpdateIdIfNeeded | src/main/java/org/folio/settings/server/storage/TenantAddressesStorage.java:216-223 | the id field becomes the printed canonical id, and nothing else changes |
| TenantAddresses.TenantAddressesStorage.constructor | src/main/java/org/folio/settings/server/storage/TenantAddressesStorage.java:48-57 | a newly created table is empty |
| TenantAddresses.TenantAddressesStorage.GetTenantAddresses | src/main/java/org/folio/settings/server/storage/TenantAddressesStorage.java:149-155 | the result is ListSpec of the rows |
| TenantAddresses.TenantAddressesStorage.GetTenantAddress | src/main/java/org/folio/settings/server/storage/TenantAddressesStorage.java:160-165 | the result is GetSpec of the rows |
| TenantAddresses.TenantAddressesStorage.CreateTenantAddress | src/main/java/org/folio/settings/server/storage/TenantAddressesStorage.java:170-176 | result and rows are CreateSpec of the old rows; the address object's id is normalised even when the insert fails; names stay unique |
| TenantAddresses.TenantAddressesStorage.UpdateTenantAddress | src/main/java/org/folio/settings/server/storage/TenantAddressesStorage.java:181-186 | result and rows are UpdateSpec of the old rows; names stay unique |
| TenantAddresses.TenantAddressesStorage.DeleteTenantAddress | src/main/java/org/folio/settings/server/storage/TenantAddressesStorage.java:191-195 | result and rows are DeleteSpec of the old rows; names stay unique |
| TenantAddresses.TenantAddressesStorage.Init | src/main/java/org/folio/settings/server/storage/TenantAddressesStorage.java:43-70 | result, rows and deletions are MigrationSpec of the old rows; names stay unique |
| TenantAddresses.TenantAddressesStorage.InsertMigrated | src/main/java/org/folio/settings/server/storage/TenantAddressesStorage.java:133-144 | every insert runs in turn; the result is the first failure, the rows those of InsertMigratedSpec |
| TenantAddresses.Collect | src/main/java/org/folio/settings/server/storage/TenantAddressesStorage.java:89-113 | the loop over the configs, returning early at a blank id, computes CollectSpec |
| TenantAddressesService.MissingFieldRefused | src/main/java/org/folio/settings/server/service/TenantAddressesService.java:58-82 | a null address or a blank name or address is answered 400 "name or address missing" and the table is untouched; any other address never trips NOT NULL |
| TenantAddressesService.HandleExceptionMeaning | src/main/java/org/folio/settings/server/service/TenantAddressesService.java:115-121 | exactly a unique violation is answered 409 "name already exists"; any other failure passes on unchanged |
| TenantAddressesService.ConflictAnswered | src/main/java/org/folio/settings/server/service/TenantAddressesService.java:58-89 | a taken name (or, on create, a taken id) is answered 409 and changes nothing |
| TenantAddressesService.CreatedAnswered | src/main/java/org/folio/settings/server/service/TenantAddressesService.java:45-71 | a successful create is answered 201 with the stored address, and a GET of its id 200 with the same address |
| TenantAddressesService.ListDefaults | src/main/java/org/folio/settings/server/service/TenantAddressesService.java:22-40 | without parameters the listing is the first 50 addresses; a limit that is not a number is answered 400 with its message |
| TenantAddressesService.UnknownIdAnswered404 | src/main/java/org/folio/settings/server/service/TenantAddressesService.java:45-102 | GET, PUT and DELETE of an id no row has are answered 404 and change nothing |
| TenantService.NoModuleTo | src/main/java/org/folio/settings/server/service/TenantService.java:16-19 | without module_to postInit does nothing and succeeds |
| TenantService.VersionHandOff | src/main/java/org/folio/settings/server/service/TenantService.java:16-27 | the stored version becomes module_to when every init succeeded; after a failure it stays as the version table's init left it |
| TenantService.UpgradedTenantKeepsData | src/main/java/org/folio/settings/server/service/TenantService.java:22-36 | a tenant at 1.3.0 or later keeps its base URL, locale and addresses and deletes nothing in mod-configuration |
| TenantService.FirstInitMigrates | src/main/java/org/folio/settings/server/service/TenantService.java:22-36 | a first init reads 0.0.0, takes over the base URL from mod-configuration stripped, and ends at module_to on success |
| TenantService.PostInit | src/main/java/org/folio/settings/server/service/TenantService.java:16-36 | the storages' inits in order yield PostInitSpec's result, deletions and tables; the addresses stay valid |
| Upload.ContentTypeExamples | src/main/java/org/folio/settings/server/service/UploadService.java:26-29 | a content type starting with application/json is accepted, parameters included; a missing or other one is a user error |
| Upload.ContentTypeMeaning | src/main/java/org/folio/settings/server/service/UploadService.java:26-29 | a Content-Type is accepted exactly when it is present and starts with application/json; every other one is the user error "Content-Type must be application/json" |
| Upload.UploadMeaning | src/main/java/org/folio/settings/server/service/UploadService.java:24-78 | a refused Content-Type is the user error and no event is handled; an accepted upload's counters count the upserts that came back true and false, and its answer on success is exactly those counts |
| Upload.UploadEntries | src/main/java/org/folio/settings/server/service/UploadService.java:24-38 | the Content-Type is checked before the headers are read; a refusal makes no storage and no Uploader and leaves the table unchanged; otherwise a fresh Uploader in the initial state over the caller's storage, or the header failure |
| Upload.InitInv | src/main/java/org/folio/settings/server/service/UploadService.java:32-38 | the upload starts in a state satisfying the invariant |
| Upload.DoneInv | src/main/java/org/folio/settings/server/service/UploadService.java:50-64 | an upsert's completion keeps the invariant |
| Upload.StepInv | src/main/java/org/folio/settings/server/service/UploadService.java:39-74 | every handler keeps the invariant: pending counts the upserts in flight, the parser is paused at 5 and running at 2 or fewer, success only after the end with nothing in flight, the answer written exactly on success |
| Upload.SettleOnce | src/main/java/org/folio/settings/server/service/UploadService.java:56-74 | once the promise settles it stays settled the same way and the answer is never rewritten |
| Upload.UpsertFailureFails | src/main/java/org/folio/settings/server/service/UploadService.java:56 | a failed upsert fails an unsettled upload with its error |
| Upload.ParseErrorFails | src/main/java/org/folio/settings/server/service/UploadService.java:74 | a parse error fails an unsettled upload as a user error with its message |
| Upload.PendingBounded | src/main/java/org/folio/settings/server/service/UploadService.java:47-49 | while values come only when the parser is not paused, at most 5 upserts are in flight |
| Upload.Run | src/main/java/org/folio/settings/server/service/UploadService.java:39-74 | every state a run of events reaches satisfies the invariant |
| Upload.CountersCountDeliveries | src/main/java/org/folio/settings/server/service/UploadService.java:51-54 | over any run, inserted counts the upserts that came back true and updated those that came back false |
| Upload.StepCounts | src/main/java/org/folio/settings/server/service/UploadService.java:51-54 | one event moves a counter only when it is a completion with that result |
| Upload.SuccessMeans | src/main/java/org/folio/settings/server/service/UploadService.java:61-78 | the upload succeeds exactly when input ended, every upsert came back and no failure came first; the answer then holds the counters |
| Upload.Uploader.constructor | src/main/java/org/folio/settings/server/service/UploadService.java:30-38 | counters at 0, nothing in flight, parser running |
| Upload.Uploader.OnStartArray | src/main/java/org/folio/settings/server/service/UploadService.java:40-41 | the new state is Step of StartArray |
| Upload.Uploader.OnEndArray | src/main/java/org/folio/settings/server/service/UploadService.java:42-43 | the new state is Step of EndArray |
| Upload.Uploader.OnValue | src/main/java/org/folio/settings/server/service/UploadService.java:44-50 | the new state is Step of the value, and the table and the entry's id are the storage's UpsertSpec |
| Upload.Uploader.Fail | src/main/java/org/folio/settings/server/service/UploadService.java:56 | the new state is TryFail of the old |
| Upload.Uploader.Complete | src/main/java/org/folio/settings/server/service/UploadService.java:62 | the new state is TryComplete of the old |
| Upload.Uploader.Receive | src/main/java/org/folio/settings/server/service/UploadService.java:51-56 | the new state is Received of the old |
| Upload.Uploader.ReleaseSlot | src/main/java/org/folio/settings/server/service/UploadService.java:57-64 | the new state is Release of the old |
| Upload.Uploader.OnDone | src/main/java/org/folio/settings/server/service/UploadService.java:51-64 | the new state is Step of the completion, and the invariant holds |
| Upload.Uploader.OnEnd | src/main/java/org/folio/settings/server/service/UploadService.java:67-72 | the new state is Step of the end of input, and the invariant holds |
| Upload.Uploader.OnParseError | src/main/java/org/folio/settings/server/service/UploadService.java:74 | the new state is Step of the parse error, and the invariant holds |

## Left out

- **CQL.** The CQL query of the settings listing (field allow-list, translation to SQL) is a predicate on rows given as an input. A malformed query is a fault that happens before any row is written.
- **SQL itself.** Statement text, prepared statements, the connection pool and connection failures are not modelled. Database errors appear only where the code reacts to them: the unique and not-null violations (SQLSTATE 23505 and 23502) and negative LIMIT and OFFSET. Other faults are inputs.
- **Negative settings listing page.** The settings listing takes its limit and offset as natural numbers. PostgreSQL's refusal of negative values is modelled for the tenant addresses listing only.
- **Collation.** Ordering by name uses code-point order, not the database's collation.
- **Concurrency.**
  - `Future.all` over the deletions in mod-configuration and over the migrated inserts runs its futures in list order.
  - Upload completions may arrive in any order; `Upload.Event` models each one as a separate event.
- **HTTP details.** Chunked encoding, content headers, body size limits and the OpenAPI validation are not modelled. A response is its status and body text, and the settings listing's body is the sequence of texts it writes.
- **JSON.**
  - Jackson's mapping of a body onto an `Entry` or `TenantAddress` is done before the model begins; a body that does not map is a failure.
  - JSON encoding and the `JsonArray` parser are inputs.
  - The incremental parser of the upload is the stream of events it delivers.
  - A JSON number is an integer. A value holding a fraction such as 1.5 cannot be written in the model; entry values are opaque to every proof, so nothing proved depends on this.
- **Calls to mod-configuration.** The GET and DELETE requests of the migrations, and `PercentCodec`, are not modelled. The answers are inputs and the deletions are the list of ids requested.
- **Version strings.** SemVer text and pre-release tags are not modelled; a version is its major, minor and patch numbers.
- **Unmodelled classes.** `TimeUtil`, `Metadata`, `UserUtil` and `MainVerticle` are not part of this model.
- **Tenant init of the services.** `SettingsService.postInit` and `ConfigService.postInit` only create their tables. This is stated by `SettingsStorage.SettingsTable.constructor` and `ConfigStorage.ConfigTable.constructor`.
- **Configuration routes missing from the storage.** `ConfigService` calls `updateEntry` and `deleteEntry`, which `ConfigStorage` does not define, so those two routes are modelled only up to the storage call: `RequestHeaders.PutTarget` for the PUT.
- **The configuration GET of an absent id.** The storage answers no entry, `ConfigStorage.GetSpec`'s `Ok(None)`. What the route then makes of `JsonObject.mapFrom(null)` is not modelled.
- **The settings listing route.** `SettingsService.getSettings` calls `getEntries(query, offset, limit)`, while the storage's `getEntries` also takes the response to stream into. Only the choice of limit and offset (`SettingsService.ListingPageDefaults`) and the storage's listing are modelled. The route looks up query, limit and offset among the path parameters, so a limit or offset sent in the query string is not read and the defaults 10 and 0 apply.
- **Synchronous and asynchronous failures.** A route that throws and a route whose future fails are answered alike, so both are a failed `Result`.
- Upload.Uploader.OnValue: applies the upsert to the table when the value is handled, so upserts reach the table in the order they were issued. The source leaves up to five upserts in flight and the database may apply them in another order. Upserts of different (scope, key, userId) rows commute, so the model is exact for them. When one entry appears twice within that window, the source does not fix which value is stored last or which upsert answers true; the model picks issue order.
- SettingsListing.StreamedResult: a count or stream exception whose message is null fails the listing with an empty message text; what the route then answers for a null message is not modelled.
- SettingsPermissions.GetCqlLimitPermissions: states which limits the list holds, not their order, which follows the iteration order of a Java `HashMap`.
- ConfigEntry.Entry.GetValue: states that the copy has the same size and the same value under every key, not that it lists the keys in the same order.
- SettingsEntry.FromRow: uses the stored value as it is, while `fromRow` copies it key by key into a new entry. The two agree because a JSON object read back from a JSONB column has distinct keys; the model's `Row` does not require that.
