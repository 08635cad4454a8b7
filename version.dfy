/**
 * VersionStorage: the module_version singleton holding the module version
 * the tenant was last initialised to, and the semantic versions the
 * migrations compare with it.
 */
module Version {
  import opened Common
  import opened Singleton

  /**
   * A semantic version (okapi's SemVer) by its numeric components;
   * pre-release and build parts, and the text form, are not modelled.
   */
  datatype SemVer = SemVer(major: nat, minor: nat, patch: nat)

  /** SemVer.compareTo(a, b) < 0: component by component. */
  predicate Less(a: SemVer, b: SemVer) {
    || a.major < b.major
    || (a.major == b.major && a.minor < b.minor)
    || (a.major == b.major && a.minor == b.minor && a.patch < b.patch)
  }

  /** The version stored by the first init of a tenant. */
  const InitialVersion := SemVer(0, 0, 0)

  /** The release whose tenant init takes data over from mod-configuration. */
  const MigrationRelease := SemVer(1, 3, 0)

  /**
   * The migrations run when `SEM_VER_1_3_0.compareTo(old) <= 0` fails,
   * that is when the stored version is older than 1.3.0.
   */
  predicate Migrates(stored: SemVer) {
    Less(stored, MigrationRelease)
  }

  /** The order is a strict total order, so exactly one of a < b, a == b, b < a holds. */
  lemma LessTotal(a: SemVer, b: SemVer, c: SemVer)
    ensures !Less(a, a)
    ensures Less(a, b) && Less(b, c) ==> Less(a, c)
    ensures a == b || Less(a, b) || Less(b, a)
    ensures !(Less(a, b) && Less(b, a))
  {
  }

  /**
   * A fresh tenant (0.0.0) and one last initialised to 1.2.0 migrate;
   * 1.3.0 and 1.11.4 do not, since 11 > 3 numerically.
   */
  lemma MigratesExamples()
    ensures Migrates(InitialVersion) && Migrates(SemVer(1, 2, 0))
    ensures !Migrates(SemVer(1, 3, 0)) && !Migrates(SemVer(1, 11, 4)) && !Migrates(SemVer(2, 0, 0))
  {
  }

  /** VersionStorage over the tenant's module_version table. */
  class VersionStorage {
    const table: SingletonTable<SemVer>

    constructor (table: SingletonTable<SemVer>)
      ensures this.table == table
    {
      this.table := table;
    }

    /** init: the table, the row 0.0.0 unless there is one, the trigger. */
    method Init()
      modifies table
      ensures table.State() == InitSpec(old(table.State()), InitialVersion)
      ensures old(table.State()) == Table([], false) ==> table.State() == Table([InitialVersion], true)
      ensures Single(old(table.State())) ==> table.State() == old(table.State())
    {
      table.Init(InitialVersion);
    }

    method GetVersion() returns (r: Result<SemVer>)
      ensures r == ReadSpec(table.State())
    {
      r := table.Read();
    }

    /** setVersion: UPDATE of the one row; a later getVersion returns v. */
    method SetVersion(v: SemVer)
      modifies table
      ensures table.State() == UpdateSpec(old(table.State()), v)
      ensures old(table.State()).rows != [] ==> ReadSpec(table.State()) == Ok(v)
      ensures Single(old(table.State())) ==> Single(table.State())
    {
      table.Update(v);
    }
  }
}
