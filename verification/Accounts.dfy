/** User documents and the tokens issued for them: registration, login, password change, admin
    patches and bootstrap, and the three places where a token's version is checked. A token is a
    record that only these steps can make. */
module Accounts {
  import opened LocationStore

  type Id = string

  /** A venue has neither a role nor credentials, and is run by the user `manager`. */
  datatype User = User(role: Option<string>, tier: string, tokenVersion: int, venue: bool, manager: Id)

  datatype Token = Token(sub: Id, role: string, tier: string, tv: int)

  /** The users collection, every id it ever held, and every token ever issued. */
  datatype Accounts = Accounts(users: map<Id, User>, used: set<Id>, issued: set<Token>)

  const VALID_USER_TIERS := {"regular", "premium", "unrestricted"}
  const VALID_USER_ROLES := {"user", "admin", "venue_manager"}

  function SanitizeTier(tier: string): string {
    if tier in VALID_USER_TIERS then tier else "regular"
  }

  function SanitizeRole(role: Option<string>): string {
    if role.Some? && role.value in VALID_USER_ROLES then role.value else "user"
  }

  // ----- Ids as written -----

  predicate HexDigit(c: char) {
    ('0' <= c <= '9') || ('a' <= c <= 'f') || ('A' <= c <= 'F')
  }

  function Lower(c: char): char {
    if 'A' <= c <= 'F' then c - 'A' + 'a' else c
  }

  /** Reads an object id of either letter case; ids are written back in lower case. */
  function ParseId(text: string): Option<Id> {
    if |text| == 24 && forall i :: 0 <= i < 24 ==> HexDigit(text[i])
    then Some(seq(24, i requires 0 <= i < |text| => Lower(text[i])))
    else None
  }

  /** The spelling the database itself uses. */
  predicate Canonical(text: string) {
    ParseId(text) == Some(text)
  }

  lemma ParsedIsCanonical(text: string)
    requires ParseId(text).Some?
    ensures Canonical(ParseId(text).value)
  {
    var id := ParseId(text).value;
    assert forall i :: 0 <= i < 24 ==>
      HexDigit(text[i]) && id[i] == Lower(text[i]) && HexDigit(id[i]) && Lower(id[i]) == id[i];
    assert ParseId(id).value == id;
  }

  // ----- Versions as stored -----

  const U32 := 0x1_0000_0000
  const I32_MAX := 0x7FFF_FFFF

  /** Whether a stored version can be read as a signed 32-bit number. */
  predicate Readable(version: int) {
    -I32_MAX - 1 <= version <= I32_MAX
  }

  function NonNegative(version: int): int {
    if version < 0 then 0 else version
  }

  function AsU32(version: int): int {
    if version < 0 then version + U32 else version
  }

  function LoginToken(id: Id, u: User): Token {
    Token(id, SanitizeRole(u.role), SanitizeTier(u.tier), NonNegative(u.tokenVersion))
  }

  /** The token handed out after a password change or an admin's change to their own account keeps
      the stored tier as it is. */
  function MakeToken(id: Id, u: User): Token {
    Token(id, SanitizeRole(u.role), u.tier, NonNegative(u.tokenVersion))
  }

  // ----- Checking a token -----

  predicate RegisteredRole(role: string) {
    role in VALID_USER_ROLES
  }

  /** The central verification: an unreadable version counts as zero. */
  predicate VerifiedByAuthority(a: Accounts, tok: Token) {
    && tok in a.issued
    && (RegisteredRole(tok.role) ==>
          && tok.sub in a.users
          && (if Readable(a.users[tok.sub].tokenVersion) then AsU32(a.users[tok.sub].tokenVersion) else 0) == tok.tv)
  }

  /** The extractor of the other services: a negative version counts as zero, an unreadable one is
      an error. */
  predicate VerifiedByExtractor(a: Accounts, tok: Token) {
    && tok in a.issued
    && (RegisteredRole(tok.role) ==>
          && tok.sub in a.users && Readable(a.users[tok.sub].tokenVersion)
          && NonNegative(a.users[tok.sub].tokenVersion) == tok.tv)
  }

  /** The check of the tier administration: a user that is gone counts as version zero too. */
  predicate VerifiedForTierAdmin(a: Accounts, tok: Token) {
    && tok in a.issued && tok.role == "admin"
    && (if tok.sub in a.users && Readable(a.users[tok.sub].tokenVersion) then AsU32(a.users[tok.sub].tokenVersion)
        else 0) == tok.tv
  }

  predicate AcceptedAsRegistered(a: Accounts, tok: Token) {
    VerifiedByExtractor(a, tok) && RegisteredRole(tok.role)
  }

  predicate AcceptedAsAdmin(a: Accounts, tok: Token) {
    VerifiedByExtractor(a, tok) && tok.role == "admin"
  }

  predicate AcceptedByGateway(a: Accounts, tok: Token) {
    VerifiedByAuthority(a, tok) && RegisteredRole(tok.role)
  }

  // ----- Steps -----

  /** One user document written and some tokens made. */
  function Changed(a: Accounts, id: Id, u: User, made: set<Token>): Accounts {
    a.(users := a.users[id := u], used := a.used + {id}, issued := a.issued + made)
  }

  function NewUser(): User {
    User(Some("user"), "regular", 0, false, "")
  }

  /** A new account under an id the database makes up: canonical and never used before. */
  function Registered(a: Accounts, id: Id): Accounts {
    if id in a.used || !Canonical(id) then a
    else Changed(a, id, NewUser(), {Token(id, "user", "regular", 0)})
  }

  function LoggedIn(a: Accounts, id: Id): Accounts {
    if id in a.users && !a.users[id].venue && Readable(a.users[id].tokenVersion)
    then Changed(a, id, a.users[id], {LoginToken(id, a.users[id])})
    else a
  }

  function Bumped(u: User): User {
    u.(tokenVersion := u.tokenVersion + 1)
  }

  /** A token for the changed user, unless its version can no longer be read. */
  function Reissue(id: Id, u: User): set<Token> {
    if Readable(u.tokenVersion) then {MakeToken(id, u)} else {}
  }

  function PasswordChanged(a: Accounts, tok: Token): Accounts {
    if !AcceptedAsRegistered(a, tok) then a
    else
      var u := Bumped(a.users[tok.sub]);
      Changed(a, tok.sub, u, Reissue(tok.sub, u))
  }

  predicate AdminExists(a: Accounts) {
    exists id :: id in a.users && a.users[id].role == Some("admin")
  }

  function Bootstrapped(a: Accounts, path: string): Accounts {
    if ParseId(path).None? || AdminExists(a) || ParseId(path).value !in a.users then a
    else
      var id := ParseId(path).value;
      Changed(a, id, Bumped(a.users[id]).(role := Some("admin")), {})
  }

  predicate ValidTierName(tier: string) {
    0 < |tier| <= 64
  }

  /** Whether an admin patch goes through: the token is an admin's, the self-modification guard is
      off or the path names someone else, and what is given is valid and not nothing. */
  predicate PatchAllowed(a: Accounts, tok: Token, path: string, tier: Option<string>, role: Option<string>,
                         guard: bool) {
    && AcceptedAsAdmin(a, tok)
    && !(guard && tok.sub == path)
    && ParseId(path).Some?
    && (tier.Some? ==> ValidTierName(tier.value))
    && (role.Some? ==> role.value in VALID_USER_ROLES)
    && (tier.Some? || role.Some?)
    && ParseId(path).value in a.users
  }

  function PatchedUser(u: User, tier: Option<string>, role: Option<string>): User {
    Bumped(u).(tier := if tier.Some? then tier.value else u.tier, role := if role.Some? then role else u.role)
  }

  /** The guard keeps admins off their own account exactly if the path spells it as the database does:
      it compares texts, the look-up compares ids. */
  lemma SelfPatchRefusedIff(a: Accounts, tok: Token, path: string, tier: Option<string>, role: Option<string>)
    requires ParseId(path) == Some(tok.sub) && PatchAllowed(a, tok, path, tier, role, false)
    ensures !PatchAllowed(a, tok, path, tier, role, true) <==> Canonical(path)
  {
    hide ParseId;
  }

  /** Sets what is given and bumps the version, and with `reissue` hands an admin who changed their
      own account a fresh token. The handlers for the tier alone and the role alone do not reissue. */
  function Patched(a: Accounts, tok: Token, path: string, tier: Option<string>, role: Option<string>, guard: bool,
                   reissue: bool): Accounts {
    if !PatchAllowed(a, tok, path, tier, role, guard) then a
    else
      var id := ParseId(path).value;
      var u := PatchedUser(a.users[id], tier, role);
      Changed(a, id, u, if reissue && tok.sub == path then Reissue(id, u) else {})
  }

  function VenueCreated(a: Accounts, tok: Token, id: Id): Accounts {
    if !AcceptedAsRegistered(a, tok) || tok.role != "venue_manager" || id in a.used || !Canonical(id) then a
    else Changed(a, id, User(None, "regular", 0, true, tok.sub), {})
  }

  function UsersDeleted(a: Accounts, ids: set<Id>): Accounts {
    a.(users := a.users - ids)
  }

  /** A venue changes hands; the new manager's id is kept as written. */
  function ManagerReassigned(a: Accounts, tok: Token, path: string, manager: string): Accounts {
    if !AcceptedAsAdmin(a, tok) || ParseId(path).None? || ParseId(manager).None?
       || ParseId(manager).value !in a.users || a.users[ParseId(manager).value].role != Some("venue_manager")
       || ParseId(path).value !in a.users || !a.users[ParseId(path).value].venue then a
    else
      var id := ParseId(path).value;
      Changed(a, id, a.users[id].(manager := manager), {})
  }

  // ----- What every step keeps -----

  /** A stored version is never negative, and an admin's is positive, since every way to become one
      bumps it. */
  predicate UserFits(a: Accounts, id: Id)
    requires id in a.users
  {
    var u := a.users[id];
    && id in a.used
    && u.tokenVersion >= 0
    && (!u.venue ==> u.role.Some?)
    && (u.role.Some? ==> u.role.value in VALID_USER_ROLES)
    && (u.role == Some("admin") ==> u.tokenVersion >= 1)
  }

  /** A token is no newer than its user and, if current, carries the stored role and tier, up to the
      sanitising of tiers a login does not know. */
  predicate TokenFits(a: Accounts, tok: Token) {
    && RegisteredRole(tok.role)
    && tok.sub in a.used && tok.tv >= 0
    && (tok.role == "admin" ==> tok.tv >= 1)
    && (tok.sub in a.users ==>
          var u := a.users[tok.sub];
          && !u.venue && tok.tv <= u.tokenVersion
          && (tok.tv == u.tokenVersion ==>
                u.role == Some(tok.role) && (tok.tier == u.tier || tok.tier == SanitizeTier(u.tier))))
  }

  ghost predicate Sound(a: Accounts) {
    && (forall id :: id in a.used ==> Canonical(id))
    && (forall id :: id in a.users ==> UserFits(a, id))
    && (forall tok :: tok in a.issued ==> TokenFits(a, tok))
  }

  /** Versions only grow, used ids stay used and deleted users stay deleted. */
  ghost predicate Advances(a: Accounts, b: Accounts) {
    && a.used <= b.used && a.issued <= b.issued
    && (forall id :: id in a.used && id in b.users ==>
          id in a.users && a.users[id].tokenVersion <= b.users[id].tokenVersion)
  }

  /** Writing one document keeps everything when the document fits, the version has not gone back
      and the old tokens of that user either still match or have been outrun. */
  lemma ChangedSound(a: Accounts, id: Id, u: User, made: set<Token>)
    requires Sound(a) && Canonical(id)
    requires UserFits(Changed(a, id, u, made), id)
    requires id in a.used ==> id in a.users && u.venue == a.users[id].venue
    requires id in a.users ==> u.tokenVersion > a.users[id].tokenVersion || (u == a.users[id].(manager := u.manager))
    requires forall tok :: tok in made ==> tok.sub == id && TokenFits(Changed(a, id, u, made), tok)
    ensures Sound(Changed(a, id, u, made)) && Advances(a, Changed(a, id, u, made))
  {
  }

  lemma RegisteredSound(a: Accounts, id: Id)
    requires Sound(a)
    ensures Sound(Registered(a, id)) && Advances(a, Registered(a, id))
  {
    hide ParseId;
    if Registered(a, id) != a {
      ChangedSound(a, id, NewUser(), {Token(id, "user", "regular", 0)});
    }
  }

  lemma LoggedInSound(a: Accounts, id: Id)
    requires Sound(a)
    ensures Sound(LoggedIn(a, id)) && Advances(a, LoggedIn(a, id))
  {
    hide ParseId;
    if LoggedIn(a, id) != a {
      assert UserFits(a, id);
      ChangedSound(a, id, a.users[id], {LoginToken(id, a.users[id])});
    }
  }

  /** Every change to a user that bumps the version, with a token for the changed user or without. */
  lemma BumpSound(a: Accounts, id: Id, u: User, made: set<Token>)
    requires Sound(a) && id in a.users && u.tokenVersion == a.users[id].tokenVersion + 1 && u.venue == a.users[id].venue
    requires u.role == a.users[id].role || (u.role.Some? && u.role.value in VALID_USER_ROLES)
    requires made == {} || (made == {MakeToken(id, u)} && !u.venue)
    ensures Sound(Changed(a, id, u, made)) && Advances(a, Changed(a, id, u, made))
  {
    hide ParseId;
    assert UserFits(a, id);
    ChangedSound(a, id, u, made);
  }

  lemma PasswordChangedSound(a: Accounts, tok: Token)
    requires Sound(a)
    ensures Sound(PasswordChanged(a, tok)) && Advances(a, PasswordChanged(a, tok))
  {
    hide ParseId, MakeToken;
    if AcceptedAsRegistered(a, tok) {
      assert TokenFits(a, tok);
      var u := Bumped(a.users[tok.sub]);
      BumpSound(a, tok.sub, u, Reissue(tok.sub, u));
    }
  }

  lemma BootstrappedSound(a: Accounts, path: string)
    requires Sound(a)
    ensures Sound(Bootstrapped(a, path)) && Advances(a, Bootstrapped(a, path))
  {
    hide ParseId;
    if Bootstrapped(a, path) != a {
      var id := ParseId(path).value;
      BumpSound(a, id, Bumped(a.users[id]).(role := Some("admin")), {});
    }
  }

  lemma PatchedSound(a: Accounts, tok: Token, path: string, tier: Option<string>, role: Option<string>, guard: bool,
                     reissue: bool)
    requires Sound(a)
    ensures var b := Patched(a, tok, path, tier, role, guard, reissue); Sound(b) && Advances(a, b)
  {
    hide ParseId, MakeToken;
    if PatchAllowed(a, tok, path, tier, role, guard) {
      var id := ParseId(path).value;
      var u := PatchedUser(a.users[id], tier, role);
      assert TokenFits(a, tok) && Canonical(tok.sub);
      BumpSound(a, id, u, if reissue && tok.sub == path then Reissue(id, u) else {});
    }
  }

  lemma VenueCreatedSound(a: Accounts, tok: Token, id: Id)
    requires Sound(a)
    ensures Sound(VenueCreated(a, tok, id)) && Advances(a, VenueCreated(a, tok, id))
  {
    hide ParseId;
    if VenueCreated(a, tok, id) != a {
      ChangedSound(a, id, User(None, "regular", 0, true, tok.sub), {});
    }
  }

  lemma UsersDeletedSound(a: Accounts, ids: set<Id>)
    requires Sound(a)
    ensures Sound(UsersDeleted(a, ids)) && Advances(a, UsersDeleted(a, ids))
  {
  }

  lemma ManagerReassignedSound(a: Accounts, tok: Token, path: string, manager: string)
    requires Sound(a)
    ensures Sound(ManagerReassigned(a, tok, path, manager)) && Advances(a, ManagerReassigned(a, tok, path, manager))
  {
    hide ParseId;
    if ManagerReassigned(a, tok, path, manager) != a {
      var id := ParseId(path).value;
      assert UserFits(a, id);
      ChangedSound(a, id, a.users[id].(manager := manager), {});
    }
  }

  // ----- What an accepted token is worth -----

  /** An accepted registered token carries the stored role and, for a tier logins know, the stored
      tier; for another tier it carries that tier or `regular`. */
  lemma AcceptedIsCurrent(a: Accounts, tok: Token)
    requires Sound(a) && AcceptedAsRegistered(a, tok)
    ensures tok.sub in a.users && a.users[tok.sub].role == Some(tok.role)
    ensures a.users[tok.sub].tier in VALID_USER_TIERS ==> tok.tier == a.users[tok.sub].tier
    ensures tok.tier == a.users[tok.sub].tier || tok.tier == "regular"
  {
  }

  /** A version-zero token of a user whose version has outgrown 32 bits. */
  predicate Outgrown(a: Accounts, tok: Token) {
    tok in a.issued && tok.tv == 0 && tok.sub in a.users && a.users[tok.sub].tokenVersion > I32_MAX
  }

  /** The two general checks agree except on such a token: the central one takes it, the extractor does
      not. */
  lemma ChecksAgreeIff(a: Accounts, tok: Token)
    requires Sound(a)
    ensures VerifiedByExtractor(a, tok) ==> VerifiedByAuthority(a, tok)
    ensures (VerifiedByAuthority(a, tok) <==> VerifiedByExtractor(a, tok)) <==> !Outgrown(a, tok)
  {
  }

  /** The tier administration's lenient check admits no token of a deleted user or of an unreadable
      version: it would need version zero, which no admin token has. */
  lemma TierAdminCheckIsSound(a: Accounts, tok: Token)
    requires Sound(a)
    ensures VerifiedForTierAdmin(a, tok) <==> AcceptedAsAdmin(a, tok)
  {
  }

  // ----- Revocation -----

  /** A token its user has outrun. */
  predicate Revoked(a: Accounts, tok: Token) {
    && tok.sub in a.used && tok.tv >= 0
    && (tok.sub in a.users ==> tok.tv < a.users[tok.sub].tokenVersion)
  }

  /** No check accepts a revoked token, but for the central one once it is outgrown. */
  lemma RevokedIsRefused(a: Accounts, tok: Token)
    requires Sound(a) && Revoked(a, tok) && RegisteredRole(tok.role)
    ensures !VerifiedByExtractor(a, tok) && !VerifiedForTierAdmin(a, tok)
    ensures VerifiedByAuthority(a, tok) <==> Outgrown(a, tok)
  {
  }

  lemma RevokedStays(a: Accounts, b: Accounts, tok: Token)
    requires Revoked(a, tok) && Advances(a, b)
    ensures Revoked(b, tok)
  {
  }

  /** A version bump, or the user's deletion, revokes every token issued before it. */
  lemma BumpRevokes(a: Accounts, b: Accounts, tok: Token)
    requires Sound(a) && tok in a.issued && Advances(a, b)
    requires tok.sub in a.users ==> tok.sub !in b.users || b.users[tok.sub].tokenVersion > a.users[tok.sub].tokenVersion
    ensures Revoked(b, tok)
  {
  }
}
