/**
 * The permission rules of SettingsStorage: the point check an entry must
 * pass to be read or written (checkDesiredPermissions), and the per-scope
 * limits a listing is restricted to (getCqlLimitPermissions).
 *
 * A permission token is `mod-settings.<right>.<type>.<scope>` with right
 * one of global, users, owner and type read or write. The point check also
 * accepts `mod-settings.<right>.<scope>.<type>`; the listing reads only the
 * first form.
 */
module SettingsPermissions {
  import opened Common
  import opened SettingsEntry

  const PermPrefix := "mod-settings"
  const PermUsers := "users"
  const PermGlobal := "global"
  const PermOwner := "owner"
  const PermRead := "read"
  const PermWrite := "write"

  /** An element of the X-Okapi-Permissions JSON array: a string, or any
      other JSON value (which no rule looks at). */
  datatype PermItem = PStr(s: string) | PNonString

  type Perms = seq<PermItem>

  /** JsonArray.contains of a string. */
  predicate Contains(perms: Perms, token: string) {
    PStr(token) in perms
  }

  /** String concatenation of a possibly null scope: null prints as "null". */
  function ScopeText(scope: Option<string>): string {
    if scope.None? then "null" else scope.value
  }

  function Token(right: string, kind: string, scope: string): string {
    PermPrefix + "." + right + "." + kind + "." + scope
  }

  function ReversedToken(right: string, kind: string, scope: string): string {
    PermPrefix + "." + right + "." + scope + "." + kind
  }

  /** The permissions hold a token for `right` on (kind, scope), in either order. */
  predicate Grants(perms: Perms, right: string, kind: string, scope: string) {
    Contains(perms, Token(right, kind, scope)) || Contains(perms, ReversedToken(right, kind, scope))
  }

  /**
   * checkDesiredPermissions(type, permissions, entry, currentUser):
   * an ownerless entry needs a global token; an owned entry is allowed by a
   * users token, or by an owner token when the caller is the owner.
   */
  predicate CheckDesiredPermissions(kind: string, perms: Perms, e: EntryData, currentUser: Option<Uuid>) {
    var scope := ScopeText(e.scope);
    if e.userId.None? then
      Grants(perms, PermGlobal, kind, scope)
    else if Grants(perms, PermUsers, kind, scope) then
      true
    else
      Grants(perms, PermOwner, kind, scope) && currentUser.Some? && currentUser == e.userId
  }

  /** The string items that begin with `mod-settings.global.`. */
  function GlobalTokens(perms: Perms): (r: Perms)
    ensures forall t :: PStr(t) in r <==> PStr(t) in perms && StartsWithGlobal(t)
  {
    if perms == [] then []
    else if perms[0].PStr? && StartsWithGlobal(perms[0].s) then [perms[0]] + GlobalTokens(perms[1..])
    else GlobalTokens(perms[1..])
  }

  predicate StartsWithGlobal(t: string) {
    var p := PermPrefix + "." + PermGlobal + ".";
    |p| <= |t| && t[..|p|] == p
  }

  /**
   * For an ownerless entry only global tokens count and the caller does
   * not: dropping every users/owner token and forgetting the caller leave
   * the decision as it was.
   */
  lemma OwnerlessNeedsGlobalToken(kind: string, perms: Perms, e: EntryData, cu: Option<Uuid>, cu': Option<Uuid>)
    requires e.userId.None?
    ensures CheckDesiredPermissions(kind, perms, e, cu) == CheckDesiredPermissions(kind, GlobalTokens(perms), e, cu')
  {
    var p := PermPrefix + "." + PermGlobal + ".";
    var scope := ScopeText(e.scope);
    var t1 := Token(PermGlobal, kind, scope);
    var t2 := ReversedToken(PermGlobal, kind, scope);
    assert t1 == p + (kind + "." + scope);
    assert t2 == p + (scope + "." + kind);
    assert StartsWithGlobal(t1) && StartsWithGlobal(t2);
  }

  /** A users token grants the entries of every owner, whoever asks. */
  lemma UsersTokenGrantsEveryOwner(kind: string, perms: Perms, e: EntryData, cu: Option<Uuid>)
    requires e.userId.Some? && Contains(perms, Token(PermUsers, kind, ScopeText(e.scope)))
    ensures CheckDesiredPermissions(kind, perms, e, cu)
  {
  }

  /**
   * A caller who is not the owner of an owned entry gets it exactly when a
   * users token grants it; an owner token alone never lets anyone at
   * another user's entry, nor lets an anonymous caller at any.
   */
  lemma OwnedNeedsOwnerOrUsers(kind: string, perms: Perms, e: EntryData, cu: Option<Uuid>)
    requires e.userId.Some?
    ensures cu != e.userId ==>
      (CheckDesiredPermissions(kind, perms, e, cu) <==> Grants(perms, PermUsers, kind, ScopeText(e.scope)))
    ensures cu == e.userId ==>
      (CheckDesiredPermissions(kind, perms, e, cu) <==>
        Grants(perms, PermUsers, kind, ScopeText(e.scope)) || Grants(perms, PermOwner, kind, ScopeText(e.scope)))
  {
  }

  /**
   * getOnConflictClause: the partial unique index an insert of this entry
   * can collide in.
   */
  datatype ConflictTarget = ScopeKeyUserId | ScopeKey

  function OnConflictClause(e: EntryData): (c: ConflictTarget)
    ensures c == ScopeKeyUserId <==> e.userId.Some?
  {
    if e.userId.Some? then ScopeKeyUserId else ScopeKey
  }

  // ---------------------------------------------------------------------
  // Token parsing for listings
  // ---------------------------------------------------------------------

  /**
   * String.indexOf(c, from): the first index >= from holding c, or -1.
   * A negative `from` counts as 0.
   */
  function IndexOf(s: string, c: char, from: int): (r: int)
    ensures r == -1 || (0 <= r < |s| && from <= r && s[r] == c)
  {
    if from < 0 then IndexFrom(s, c, 0) else IndexFrom(s, c, from)
  }

  function IndexFrom(s: string, c: char, from: nat): (r: int)
    decreases |s| - from
    ensures r == -1 || (from <= r < |s| && s[r] == c)
  {
    if from >= |s| then -1
    else if s[from] == c then from
    else IndexFrom(s, c, from + 1)
  }

  /** No position before the one IndexFrom finds (or before the end, when it finds none) holds c. */
  lemma {:induction false} IndexFromFirst(s: string, c: char, from: nat, j: int)
    requires from <= j < |s| && (IndexFrom(s, c, from) == -1 || j < IndexFrom(s, c, from))
    ensures s[j] != c
    decreases |s| - from
  {
    if j > from && s[from] != c {
      IndexFromFirst(s, c, from + 1, j);
    }
  }

  /** The index IndexOf finds is the first one holding c. */
  lemma IndexOfFirst(s: string, c: char, from: int, j: int)
    requires 0 <= j < |s| && from <= j && (IndexOf(s, c, from) == -1 || j < IndexOf(s, c, from))
    ensures s[j] != c
  {
    IndexFromFirst(s, c, if from < 0 then 0 else from, j);
  }

  /**
   * The per-token test of getCqlLimitPermissions: three dots, the first
   * segment `mod-settings`, the third `read` and a non-empty remainder.
   * The result is the pair (right, scope); the scope may contain dots.
   */
  function ParseReadToken(s: string): Option<(string, string)> {
    var off1 := IndexOf(s, '.', 0);
    var off2 := IndexOf(s, '.', off1 + 1);
    var off3 := IndexOf(s, '.', off2 + 1);
    if off1 > 0 && off2 > 0 && off3 > 0 && s[..off1] == PermPrefix && s[off2 + 1..off3] == PermRead then
      var scope := s[off3 + 1..];
      if scope != "" then Some((s[off1 + 1..off2], scope)) else None
    else None
  }

  /** The first index of c at or after `from` is `at` when s[at] is c and
      nothing between is. */
  lemma IndexOfIs(s: string, c: char, from: int, at: int)
    requires 0 <= from <= at < |s| && s[at] == c && c !in s[from..at]
    ensures IndexOf(s, c, from) == at
  {
    var r := IndexOf(s, c, from);
    if r == -1 || at < r {
      IndexOfFirst(s, c, from, at);
    }
  }

  /** In pre + seg + "." + post, the first dot from |pre| on ends seg, when seg has none. */
  lemma DotAfter(s: string, pre: string, seg: string, post: string)
    requires '.' !in seg && s == pre + seg + "." + post
    ensures IndexOf(s, '.', |pre|) == |pre| + |seg|
  {
    assert s[|pre|..|pre| + |seg|] == seg;
    assert s[|pre| + |seg|] == '.';
    IndexOfIs(s, '.', |pre|, |pre| + |seg|);
  }

  /** The dots of a token made of three dot-free segments and a remainder are found where they are. */
  lemma SegmentDots(s: string, a: string, b: string, c: string, rest: string)
    requires '.' !in a && '.' !in b && '.' !in c
    requires s == a + "." + b + "." + c + "." + rest
    ensures IndexOf(s, '.', 0) == |a|
    ensures IndexOf(s, '.', |a| + 1) == |a| + 1 + |b|
    ensures IndexOf(s, '.', |a| + |b| + 2) == |a| + |b| + 2 + |c|
  {
    DotAfter(s, [], a, b + "." + c + "." + rest);
    DotAfter(s, a + ".", b, c + "." + rest);
    DotAfter(s, a + "." + b + ".", c, rest);
  }

  /** The segments of such a token are the slices between its dots. */
  lemma SegmentSlices(s: string, a: string, b: string, c: string, rest: string)
    requires s == a + "." + b + "." + c + "." + rest
    ensures var n1 := |a|; var n2 := n1 + 1 + |b|; var n3 := n2 + 1 + |c|;
      s[..n1] == a && s[n1 + 1..n2] == b && s[n2 + 1..n3] == c && s[n3 + 1..] == rest
  {
  }

  /**
   * A token made of three dot-free segments and a remainder is read by the
   * listing exactly when its first segment is `mod-settings`, its third
   * `read` and its remainder non-empty; it then yields the second segment
   * and the remainder.
   */
  lemma ParseSegments(s: string, a: string, b: string, c: string, rest: string)
    requires '.' !in a && '.' !in b && '.' !in c
    requires s == a + "." + b + "." + c + "." + rest
    ensures ParseReadToken(s) == if a == PermPrefix && c == PermRead && rest != "" then Some((b, rest)) else None
  {
    SegmentDots(s, a, b, c, rest);
    SegmentSlices(s, a, b, c, rest);
    if a == PermPrefix {
      assert |a| > 0;
    }
  }

  /** What the listing reads from a token is its canonical reading. */
  lemma ParseReadTokenSome(s: string)
    requires ParseReadToken(s).Some?
    ensures var (right, scope) := ParseReadToken(s).value;
      '.' !in right && scope != "" && s == Token(right, PermRead, scope)
  {
    var off1 := IndexOf(s, '.', 0);
    var off2 := IndexOf(s, '.', off1 + 1);
    var off3 := IndexOf(s, '.', off2 + 1);
    var right := s[off1 + 1..off2];
    forall j | 0 <= j < |right| ensures right[j] != '.' {
      IndexOfFirst(s, '.', off1 + 1, off1 + 1 + j);
    }
    assert s == s[..off1] + [s[off1]] + s[off1 + 1..off2] + [s[off2]] + s[off2 + 1..off3] + [s[off3]] + s[off3 + 1..];
  }

  /** A canonical read token is read by the listing as its right and scope. */
  lemma ParseCanonical(right: string, scope: string)
    requires '.' !in right && scope != ""
    ensures ParseReadToken(Token(right, PermRead, scope)) == Some((right, scope))
  {
    ParseSegments(Token(right, PermRead, scope), PermPrefix, right, PermRead, scope);
  }

  /**
   * The listing never reads a token in the reversed form
   * `mod-settings.<right>.<scope>.read` (unless the scope is itself "read").
   */
  lemma ReversedUnparsed(right: string, scope: string)
    requires '.' !in right && '.' !in scope && scope != PermRead
    ensures ParseReadToken(ReversedToken(right, PermRead, scope)).None?
  {
    ParseSegments(ReversedToken(right, PermRead, scope), PermPrefix, right, scope, PermRead);
  }

  /**
   * A token is read by the listing exactly when it is the canonical
   * `mod-settings.<right>.read.<scope>` with a dot-free right and a
   * non-empty scope; it then yields that right and that scope.
   */
  lemma ParseReadTokenIff(s: string, right: string, scope: string)
    ensures ParseReadToken(s) == Some((right, scope)) <==>
      '.' !in right && scope != "" && s == Token(right, PermRead, scope)
  {
    if ParseReadToken(s) == Some((right, scope)) {
      ParseReadTokenSome(s);
    }
    if '.' !in right && scope != "" && s == Token(right, PermRead, scope) {
      ParseCanonical(right, scope);
    }
  }

  /** The right a permission item adds for `scope`, if it is a read token for it. */
  function ItemRights(item: PermItem, scope: string): set<string> {
    if item.PStr? then
      var parsed := ParseReadToken(item.s);
      if parsed.Some? && parsed.value.1 == scope then {parsed.value.0} else {}
    else {}
  }

  /** The scopes the listing has read tokens for (the scope map's keys). */
  function ItemScopes(item: PermItem): set<string> {
    if item.PStr? && ParseReadToken(item.s).Some? then {ParseReadToken(item.s).value.1} else {}
  }

  /** The rights set collected for `scope` from all items, in list order. */
  function RightsFor(perms: Perms, scope: string): set<string> {
    if perms == [] then {}
    else RightsFor(perms[..|perms| - 1], scope) + ItemRights(perms[|perms| - 1], scope)
  }

  function Scopes(perms: Perms): set<string> {
    if perms == [] then {}
    else Scopes(perms[..|perms| - 1]) + ItemScopes(perms[|perms| - 1])
  }

  /** The right an item adds is collected. */
  lemma {:induction false} RightsForHas(perms: Perms, scope: string, right: string, i: nat)
    requires i < |perms| && right in ItemRights(perms[i], scope)
    ensures right in RightsFor(perms, scope)
    decreases |perms|
  {
    var p := perms[..|perms| - 1];
    if i < |p| {
      assert p[i] == perms[i];
      RightsForHas(p, scope, right, i);
    }
  }

  /** A collected right comes from some item. */
  lemma {:induction false} RightsForFrom(perms: Perms, scope: string, right: string)
    requires right in RightsFor(perms, scope)
    ensures exists i :: 0 <= i < |perms| && right in ItemRights(perms[i], scope)
  {
    var p := perms[..|perms| - 1];
    if right in RightsFor(p, scope) {
      RightsForFrom(p, scope, right);
      var i :| 0 <= i < |p| && right in ItemRights(p[i], scope);
      assert perms[i] == p[i];
    } else {
      assert right in ItemRights(perms[|perms| - 1], scope);
    }
  }

  /** A right is collected for a scope exactly when some item is the
      canonical read token for it. */
  lemma RightsForMembership(perms: Perms, scope: string, right: string)
    ensures right in RightsFor(perms, scope) <==> exists i :: 0 <= i < |perms| && right in ItemRights(perms[i], scope)
  {
    if right in RightsFor(perms, scope) {
      RightsForFrom(perms, scope, right);
    }
    if exists i :: 0 <= i < |perms| && right in ItemRights(perms[i], scope) {
      var i :| 0 <= i < |perms| && right in ItemRights(perms[i], scope);
      RightsForHas(perms, scope, right, i);
    }
  }

  /** A scope is a key of the scope map exactly when its rights set is non-empty. */
  lemma {:induction false} ScopesAreNonEmptyRights(perms: Perms, scope: string)
    ensures scope in Scopes(perms) <==> RightsFor(perms, scope) != {}
  {
    if perms != [] {
      ScopesAreNonEmptyRights(perms[..|perms| - 1], scope);
    }
  }

  /** A row restriction of a listing, in place of the CQL text it is built as. */
  datatype Limit =
    | WholeScope(scope: string)             // scope == "s"
    | Ownerless(scope: string)              // (scope == "s" not userId = "")
    | Owned(scope: string)                  // (scope == "s" and userId = "")
    | OwnedBy(scope: string, user: Uuid)    // (scope == "s" and userId == "u")

  predicate Matches(l: Limit, row: Row) {
    match l
    case WholeScope(s) => row.scope == s
    case Ownerless(s) => row.scope == s && row.userId.None?
    case Owned(s) => row.scope == s && row.userId.Some?
    case OwnedBy(s, u) => row.scope == s && row.userId == Some(u)
  }

  /** The limits one scope's rights set contributes. */
  function ScopeLimits(scope: string, rights: set<string>, cu: Option<Uuid>): seq<Limit> {
    if PermGlobal in rights then
      if PermUsers in rights then [WholeScope(scope)]
      else if PermOwner in rights && cu.Some? then [Ownerless(scope), OwnedBy(scope, cu.value)]
      else [Ownerless(scope)]
    else
      if PermUsers in rights then [Owned(scope)]
      else if PermOwner in rights && cu.Some? then [OwnedBy(scope, cu.value)]
      else []
  }

  /** The rows a rights set grants for its scope, right by right. */
  predicate RightsGrant(rights: set<string>, cu: Option<Uuid>, row: Row) {
    || (row.userId.None? && PermGlobal in rights)
    || (row.userId.Some? && PermUsers in rights)
    || (row.userId.Some? && PermOwner in rights && cu == row.userId)
  }

  /**
   * The limits of a scope admit exactly the rows of that scope its rights
   * grant: global the ownerless rows, users every owned row, owner the
   * caller's own rows.
   */
  lemma ScopeLimitsExact(scope: string, rights: set<string>, cu: Option<Uuid>, row: Row)
    requires row.scope == scope
    ensures (exists l :: l in ScopeLimits(scope, rights, cu) && Matches(l, row)) <==> RightsGrant(rights, cu, row)
  {
    var ls := ScopeLimits(scope, rights, cu);
    if RightsGrant(rights, cu, row) {
      if PermGlobal in rights && PermUsers in rights {
        assert Matches(ls[0], row);
      } else if PermGlobal in rights && PermOwner in rights && cu.Some? {
        if row.userId.None? { assert Matches(ls[0], row); } else { assert Matches(ls[1], row); }
      } else {
        assert Matches(ls[0], row);
      }
    }
  }

  /** Every limit of the permissions, over all scopes with read tokens. */
  function LimitSet(perms: Perms, cu: Option<Uuid>): set<Limit> {
    set sc, l | sc in Scopes(perms) && l in ScopeLimits(sc, RightsFor(perms, sc), cu) :: l
  }

  /** A row is listed when some limit admits it. */
  predicate Visible(perms: Perms, cu: Option<Uuid>, row: Row) {
    exists l :: l in LimitSet(perms, cu) && Matches(l, row)
  }

  /**
   * Read access through canonical tokens only: a
   * `mod-settings.<right>.read.<scope>` token whose right grants the row.
   */
  predicate CanonicalRead(perms: Perms, cu: Option<Uuid>, row: Row) {
    && row.scope != ""
    && ( || (row.userId.None? && Contains(perms, Token(PermGlobal, PermRead, row.scope)))
         || (row.userId.Some? && Contains(perms, Token(PermUsers, PermRead, row.scope)))
         || (row.userId.Some? && cu == row.userId && Contains(perms, Token(PermOwner, PermRead, row.scope))))
  }

  /** The canonical token for a right is in the list exactly when the right
      is collected for the scope. */
  lemma TokenCollected(perms: Perms, right: string, scope: string)
    requires '.' !in right && scope != ""
    ensures Contains(perms, Token(right, PermRead, scope)) <==> right in RightsFor(perms, scope)
  {
    RightsForMembership(perms, scope, right);
    var t := Token(right, PermRead, scope);
    ParseReadTokenIff(t, right, scope);
    if Contains(perms, t) {
      var i :| 0 <= i < |perms| && perms[i] == PStr(t);
      assert right in ItemRights(perms[i], scope);
    }
    if right in RightsFor(perms, scope) {
      var i :| 0 <= i < |perms| && right in ItemRights(perms[i], scope);
      ParseReadTokenIff(perms[i].s, right, scope);
      assert perms[i] == PStr(t);
    }
  }

  /** Every limit a scope contributes restricts rows to that scope. */
  lemma ScopeLimitsOfScope(scope: string, rights: set<string>, cu: Option<Uuid>, l: Limit)
    requires l in ScopeLimits(scope, rights, cu)
    ensures l.scope == scope
  {
  }

  /** A limit of the permissions comes from its own scope, which has read tokens. */
  lemma LimitSetMember(perms: Perms, cu: Option<Uuid>, l: Limit)
    requires l in LimitSet(perms, cu)
    ensures l.scope in Scopes(perms) && l in ScopeLimits(l.scope, RightsFor(perms, l.scope), cu)
  {
    var sc :| sc in Scopes(perms) && l in ScopeLimits(sc, RightsFor(perms, sc), cu);
    ScopeLimitsOfScope(sc, RightsFor(perms, sc), cu, l);
  }

  /** A scope read from a token is never empty. */
  lemma ScopeNonEmpty(perms: Perms, sc: string)
    requires sc in Scopes(perms)
    ensures sc != ""
  {
    ScopesAreNonEmptyRights(perms, sc);
    var r :| r in RightsFor(perms, sc);
    RightsForMembership(perms, sc, r);
    var i :| 0 <= i < |perms| && r in ItemRights(perms[i], sc);
    ParseReadTokenIff(perms[i].s, r, sc);
  }

  /** Soundness: a row some limit admits is granted by a canonical read token. */
  lemma VisibleIsCanonical(perms: Perms, cu: Option<Uuid>, row: Row)
    requires Visible(perms, cu, row)
    ensures CanonicalRead(perms, cu, row)
  {
    var sc := row.scope;
    var l :| l in LimitSet(perms, cu) && Matches(l, row);
    LimitSetMember(perms, cu, l);
    assert l.scope == sc;
    ScopeNonEmpty(perms, sc);
    TokenCollected(perms, PermGlobal, sc);
    TokenCollected(perms, PermUsers, sc);
    TokenCollected(perms, PermOwner, sc);
    ScopeLimitsExact(sc, RightsFor(perms, sc), cu, row);
  }

  /** Completeness: a row a canonical read token grants is admitted by some limit. */
  lemma CanonicalIsVisible(perms: Perms, cu: Option<Uuid>, row: Row)
    requires CanonicalRead(perms, cu, row)
    ensures Visible(perms, cu, row)
  {
    var sc := row.scope;
    var rights := RightsFor(perms, sc);
    TokenCollected(perms, PermGlobal, sc);
    TokenCollected(perms, PermUsers, sc);
    TokenCollected(perms, PermOwner, sc);
    ScopeLimitsExact(sc, rights, cu, row);
    var l :| l in ScopeLimits(sc, rights, cu) && Matches(l, row);
    ScopesAreNonEmptyRights(perms, sc);
    assert l in LimitSet(perms, cu);
  }

  /**
   * A listing shows exactly the rows canonical read tokens grant: nothing
   * more (the limits are sound) and nothing less.
   */
  lemma VisibleIffCanonicalRead(perms: Perms, cu: Option<Uuid>, row: Row)
    ensures Visible(perms, cu, row) <==> CanonicalRead(perms, cu, row)
  {
    if Visible(perms, cu, row) {
      VisibleIsCanonical(perms, cu, row);
    }
    if CanonicalRead(perms, cu, row) {
      CanonicalIsVisible(perms, cu, row);
    }
  }

  /**
   * Soundness of the listing limits: every row a derived limit admits
   * also passes the point read check for the same permissions and caller.
   */
  lemma LimitsSound(perms: Perms, cu: Option<Uuid>, l: Limit, id: Uuid, row: Row)
    requires l in LimitSet(perms, cu) && Matches(l, row)
    ensures CheckDesiredPermissions(PermRead, perms, FromRow(id, row), cu)
  {
    VisibleIsCanonical(perms, cu, row);
  }

  /** No scope with a read token, no limit. */
  lemma NoScopesNoLimits(perms: Perms, cu: Option<Uuid>)
    requires Scopes(perms) == {}
    ensures LimitSet(perms, cu) == {}
  {
  }

  /**
   * The point check also accepts the reversed token form, which the
   * listing does not read: `mod-settings.global.ui.read` lets a caller get
   * an ownerless "ui" entry by id, yet yields no listing limit at all.
   */
  lemma ReversedTokenNotListed(id: Uuid, row: Row)
    requires row.scope == "ui" && row.userId.None?
    ensures CheckDesiredPermissions(PermRead, [PStr("mod-settings.global.ui.read")], FromRow(id, row), None)
    ensures LimitSet([PStr("mod-settings.global.ui.read")], None) == {}
  {
    var perms := [PStr("mod-settings.global.ui.read")];
    assert ReversedToken(PermGlobal, PermRead, "ui") == "mod-settings.global.ui.read";
    ReversedUnparsed(PermGlobal, "ui");
    assert perms[..0] == [];
    assert Scopes(perms) == {};
    NoScopesNoLimits(perms, None);
  }

  /**
   * With only an owner read token and no caller id, the limits are empty,
   * so the listing is refused whatever the table holds.
   */
  lemma OwnerTokenWithoutCallerGivesNoLimits(scope: string)
    requires scope != ""
    ensures LimitSet([PStr(Token(PermOwner, PermRead, scope))], None) == {}
  {
    var perms := [PStr(Token(PermOwner, PermRead, scope))];
    ParseCanonical(PermOwner, scope);
    assert perms[..0] == [];
    assert Scopes(perms) == {scope};
    assert RightsFor(perms, scope) == {PermOwner};
    assert ScopeLimits(scope, {PermOwner}, None) == [];
    forall l | l in LimitSet(perms, None) ensures false {
      LimitSetMember(perms, None, l);
    }
  }

  /** `mod-settings.owner.read.ui` alone lists nothing for an anonymous caller. */
  lemma OwnerUiTokenWithoutCaller()
    ensures LimitSet([PStr("mod-settings.owner.read.ui")], None) == {}
  {
    assert Token(PermOwner, PermRead, "ui") == "mod-settings.owner.read.ui";
    OwnerTokenWithoutCallerGivesNoLimits("ui");
  }

  /** The limits do not depend on the order of the tokens, nor on repeats. */
  lemma LimitSetOrderIndependent(p: Perms, q: Perms, cu: Option<Uuid>)
    requires forall x :: x in p <==> x in q
    ensures LimitSet(p, cu) == LimitSet(q, cu)
  {
    forall sc ensures RightsFor(p, sc) == RightsFor(q, sc) {
      forall r ensures r in RightsFor(p, sc) <==> r in RightsFor(q, sc) {
        RightsForMembership(p, sc, r);
        RightsForMembership(q, sc, r);
        if exists i :: 0 <= i < |p| && r in ItemRights(p[i], sc) {
          var i :| 0 <= i < |p| && r in ItemRights(p[i], sc);
          assert p[i] in q;
        }
        if exists i :: 0 <= i < |q| && r in ItemRights(q[i], sc) {
          var i :| 0 <= i < |q| && r in ItemRights(q[i], sc);
          assert q[i] in p;
        }
      }
    }
    forall sc ensures sc in Scopes(p) <==> sc in Scopes(q) {
      ScopesAreNonEmptyRights(p, sc);
      ScopesAreNonEmptyRights(q, sc);
    }
  }

  /** The scope map after the items of `p`: its keys are the scopes with
      read tokens, each mapped to its rights set. */
  predicate Collected(m: map<string, set<string>>, p: Perms) {
    m.Keys == Scopes(p) && forall sc :: sc in m ==> m[sc] == RightsFor(p, sc)
  }

  /** The scopes and rights of one more item. */
  lemma ScopesSnoc(perms: Perms, i: nat)
    requires i < |perms|
    ensures Scopes(perms[..i + 1]) == Scopes(perms[..i]) + ItemScopes(perms[i])
    ensures forall sc :: RightsFor(perms[..i + 1], sc) == RightsFor(perms[..i], sc) + ItemRights(perms[i], sc)
  {
    var q := perms[..i + 1];
    assert q[..|q| - 1] == perms[..i] && q[|q| - 1] == perms[i];
  }

  /** One item of the collecting loop: putIfAbsent(scope, {}) then add(right). */
  predicate StepOf(m: map<string, set<string>>, item: PermItem, m': map<string, set<string>>) {
    if item.PStr? && ParseReadToken(item.s).Some? then
      var (right, scope) := ParseReadToken(item.s).value;
      m' == m[scope := (if scope in m then m[scope] else {}) + {right}]
    else m' == m
  }

  /** The step adds the item's scope to the keys and its right to that scope's set. */
  lemma StepOfMeaning(m: map<string, set<string>>, item: PermItem, m': map<string, set<string>>)
    requires StepOf(m, item, m')
    ensures m'.Keys == m.Keys + ItemScopes(item)
    ensures forall sc :: sc in m' ==> m'[sc] == (if sc in m then m[sc] else {}) + ItemRights(item, sc)
  {
  }

  lemma CollectStep(perms: Perms, i: nat, m: map<string, set<string>>, m': map<string, set<string>>)
    requires i < |perms| && Collected(m, perms[..i])
    requires StepOf(m, perms[i], m')
    ensures Collected(m', perms[..i + 1])
  {
    ScopesSnoc(perms, i);
    StepOfMeaning(m, perms[i], m');
    forall sc | sc in m' ensures m'[sc] == RightsFor(perms[..i + 1], sc) {
      ScopesAreNonEmptyRights(perms[..i], sc);
    }
  }

  /** The limits of the scopes in `done`, each with its collected rights. */
  function LimitsOver(m: map<string, set<string>>, done: set<string>, cu: Option<Uuid>): set<Limit>
    requires done <= m.Keys
  {
    set sc, l | sc in done && l in ScopeLimits(sc, m[sc], cu) :: l
  }

  /** Emitting one more scope adds exactly that scope's limits. */
  lemma LimitsOverStep(m: map<string, set<string>>, done: set<string>, sc: string, cu: Option<Uuid>)
    requires done <= m.Keys && sc in m
    ensures forall l :: l in LimitsOver(m, done + {sc}, cu) <==>
      l in LimitsOver(m, done, cu) || l in ScopeLimits(sc, m[sc], cu)
  {
  }

  /** Once every scope is emitted, the limits are those of the permissions. */
  lemma LimitsOverAll(m: map<string, set<string>>, perms: Perms, cu: Option<Uuid>)
    requires Collected(m, perms)
    ensures LimitsOver(m, m.Keys, cu) == LimitSet(perms, cu)
  {
  }

  /**
   * The first half of getCqlLimitPermissions: permissions.forEach over
   * the items, putting each read token's right into its scope's set.
   */
  method CollectScopes(perms: Perms) returns (scopeMap: map<string, set<string>>)
    ensures Collected(scopeMap, perms)
  {
    scopeMap := map[];
    var i := 0;
    while i < |perms|
      invariant 0 <= i <= |perms|
      invariant Collected(scopeMap, perms[..i])
    {
      ghost var before := scopeMap;
      var item := perms[i];
      if item.PStr? && ParseReadToken(item.s).Some? {
        var (right, scope) := ParseReadToken(item.s).value;
        if scope !in scopeMap {
          scopeMap := scopeMap[scope := {}];
        }
        scopeMap := scopeMap[scope := scopeMap[scope] + {right}];
      }
      CollectStep(perms, i, before, scopeMap);
      i := i + 1;
    }
    assert perms[..i] == perms;
  }

  /**
   * getCqlLimitPermissions: collect each read token's right into a map
   * from scope to rights set, then emit each scope's limits, visiting the
   * scopes in the map's own (unspecified) order.
   */
  method GetCqlLimitPermissions(perms: Perms, cu: Option<Uuid>) returns (limits: seq<Limit>)
    ensures forall l :: l in limits <==> l in LimitSet(perms, cu)
  {
    var scopeMap := CollectScopes(perms);
    limits := EmitLimits(scopeMap, cu);
    LimitsOverAll(scopeMap, perms, cu);
  }

  /** The second half: scopeMap.forEach, emitting each scope's limits. */
  method EmitLimits(scopeMap: map<string, set<string>>, cu: Option<Uuid>) returns (limits: seq<Limit>)
    ensures forall l :: l in limits <==> l in LimitsOver(scopeMap, scopeMap.Keys, cu)
  {
    limits := [];
    var todo := scopeMap.Keys;
    ghost var done: set<string> := {};
    while todo != {}
      invariant todo <= scopeMap.Keys && done == scopeMap.Keys - todo
      invariant forall l :: l in limits <==> l in LimitsOver(scopeMap, done, cu)
      decreases |todo|
    {
      var scope :| scope in todo;
      var rights := scopeMap[scope];
      var added: seq<Limit>;
      if PermGlobal in rights {
        if PermUsers in rights {
          added := [WholeScope(scope)];
        } else if PermOwner in rights && cu.Some? {
          added := [Ownerless(scope), OwnedBy(scope, cu.value)];
        } else {
          added := [Ownerless(scope)];
        }
      } else {
        if PermUsers in rights {
          added := [Owned(scope)];
        } else if PermOwner in rights && cu.Some? {
          added := [OwnedBy(scope, cu.value)];
        } else {
          added := [];
        }
      }
      assert added == ScopeLimits(scope, rights, cu);
      LimitsOverStep(scopeMap, done, scope, cu);
      limits := limits + added;
      todo := todo - {scope};
      done := done + {scope};
    }
  }
}
