/** What every request does to a user document, field by field, and which tokens it hands out; and so,
    after every run, where roles and tiers come from. */
module AccountHistory {
  import opened Grid
  import opened LocationStore
  import opened Accounts
  import opened Social
  import opened SocialRuns
  import opened SocialSafety

  // ----- Requests that reach a user -----

  /** An admin's patch that goes through for the user: the guard is off or the path is not the admin's own
      id, something is given, and what is given is valid. */
  predicate PatchReaches(a: Accounts, tok: Token, path: string, tier: Option<string>, role: Option<string>, guard: bool,
                         id: Id) {
    && VerifiedByExtractor(a, tok) && tok.role == "admin" && !(guard && tok.sub == path)
    && ParseId(path) == Some(id) && id in a.users
    && (tier.Some? || role.Some?)
    && (tier.Some? ==> 0 < |tier.value| <= 64)
    && (role.Some? ==> role.value == "user" || role.value == "admin" || role.value == "venue_manager")
  }

  /** A bootstrap that goes through: nobody is an admin yet. */
  ghost predicate BootstrapReaches(a: Accounts, path: string, id: Id) {
    ParseId(path) == Some(id) && id in a.users && forall v :: v in a.users ==> a.users[v].role != Some("admin")
  }

  /** A venue given to a manager who exists. */
  predicate ReassignReaches(a: Accounts, tok: Token, path: string, manager: string, id: Id) {
    && VerifiedByExtractor(a, tok) && tok.role == "admin"
    && ParseId(path) == Some(id) && id in a.users && a.users[id].venue
    && ParseId(manager).Some? && ParseId(manager).value in a.users
    && a.users[ParseId(manager).value].role == Some("venue_manager")
  }

  datatype Field = Role | Tier

  function Value(u: User, f: Field): Option<string> {
    match f
    case Role => u.role
    case Tier => Some(u.tier)
  }

  /** The value a request gives to a field of the user's document. */
  ghost function Given(a: Accounts, r: Request, id: Id, f: Field): Option<string> {
    match r
    case Patch(tok, path, tier, role, guard, _) =>
      if PatchReaches(a, tok, path, tier, role, guard, id) then (if f.Role? then role else tier) else None
    case Bootstrap(path) => if BootstrapReaches(a, path, id) && f.Role? then Some("admin") else None
    case _ => None
  }

  /** Whether a request moves the version. */
  ghost predicate Bumps(a: Accounts, r: Request, id: Id) {
    match r
    case ChangePassword(tok) => VerifiedByExtractor(a, tok) && RegisteredRole(tok.role) && tok.sub == id
    case Patch(tok, path, tier, role, guard, _) => PatchReaches(a, tok, path, tier, role, guard, id)
    case Bootstrap(path) => BootstrapReaches(a, path, id)
    case _ => false
  }

  lemma RoleGuards(role: string)
    ensures role in VALID_USER_ROLES <==> role == "user" || role == "admin" || role == "venue_manager"
  {
  }

  lemma PatchReachesIff(a: Accounts, tok: Token, path: string, tier: Option<string>, role: Option<string>, guard: bool,
                        id: Id)
    ensures PatchReaches(a, tok, path, tier, role, guard, id) <==>
            PatchAllowed(a, tok, path, tier, role, guard) && ParseId(path).value == id
  {
    hide ParseId, VerifiedByExtractor;
    if role.Some? {
      RoleGuards(role.value);
    }
  }

  /** What a step made of a user's document: the role and tier given or those there were, the version one
      up if bumped, and the manager given or the one there was. */
  ghost predicate Follows(a: Accounts, r: Request, id: Id, u: User, v: User) {
    && v.role == (if Given(a, r, id, Role).Some? then Given(a, r, id, Role) else u.role)
    && v.tier == (if Given(a, r, id, Tier).Some? then Given(a, r, id, Tier).value else u.tier)
    && v.tokenVersion == u.tokenVersion + (if Bumps(a, r, id) then 1 else 0)
    && v.venue == u.venue
    && v.manager == (if r.ReassignManager? && ReassignReaches(a, r.tok, r.path, r.manager, id) then r.manager
                     else u.manager)
  }

  lemma PatchFollows(geo: Geometry, s: Social, r: Request, id: Id)
    requires r.Patch? && id in s.accounts.users
    ensures Follows(s.accounts, r, id, s.accounts.users[id], Step(geo, s, r).accounts.users[id])
  {
    hide ParseId, PatchAllowed, PatchReaches, Reissue;
    PatchReachesIff(s.accounts, r.tok, r.path, r.tier, r.role, r.guard, id);
  }

  lemma BootstrapFollows(geo: Geometry, s: Social, r: Request, id: Id)
    requires r.Bootstrap? && id in s.accounts.users
    ensures Follows(s.accounts, r, id, s.accounts.users[id], Step(geo, s, r).accounts.users[id])
  {
    hide ParseId;
  }

  /** Over every request, a user who stays keeps what is not given: role and tier are the ones given or
      those there were, the version moves by one exactly if the request bumps it, a venue stays one and
      changes hands only if reassigned. */
  lemma UserAfterStep(geo: Geometry, s: Social, r: Request, id: Id)
    requires id in s.accounts.used && id in s.accounts.users && id in Step(geo, s, r).accounts.users
    ensures Follows(s.accounts, r, id, s.accounts.users[id], Step(geo, s, r).accounts.users[id])
  {
    if r.Patch? {
      PatchFollows(geo, s, r, id);
    } else if r.Bootstrap? {
      BootstrapFollows(geo, s, r, id);
    } else {
      hide ParseId, VerifiedByExtractor, AcceptedByGateway, MakeToken, LoginToken, GateOpen, Canonical;
      if r.RangeSync? && ParseId(r.user).Some? {
        SyncedFrame(geo, s, r.user, TierOf(s.accounts, ParseId(r.user).value), r.at, r.sightings);
      }
    }
  }

  lemma FollowsField(a: Accounts, r: Request, id: Id, u: User, v: User, f: Field)
    requires Follows(a, r, id, u, v)
    ensures Value(v, f) == (if Given(a, r, id, f).Some? then Given(a, r, id, f) else Value(u, f)) && v.venue == u.venue
  {
  }

  /** A new document is a plain user's, or a venue's run by the manager who made it. */
  lemma NewUserAfterStep(geo: Geometry, s: Social, r: Request, id: Id)
    requires id !in s.accounts.users && id in Step(geo, s, r).accounts.users
    ensures Step(geo, s, r).accounts.users[id] ==
            if r.CreateVenue? then User(None, "regular", 0, true, r.tok.sub)
            else User(Some("user"), "regular", 0, false, "")
  {
    hide ParseId, AcceptedByGateway, AdminExists, MakeToken, LoginToken, GateOpen;
    if r.RangeSync? && ParseId(r.user).Some? {
      SyncedFrame(geo, s, r.user, TierOf(s.accounts, ParseId(r.user).value), r.at, r.sightings);
    }
  }

  // ----- Roles and tiers over whole runs -----

  /** The k-th request gave the field a value, and no later one did. */
  ghost predicate GivenLast(geo: Geometry, run: seq<Request>, k: nat, id: Id, f: Field) {
    && k < |run| && Given(Exec(geo, run[..k]).accounts, run[k], id, f).Some?
    && forall j :: k < j < |run| ==> Given(Exec(geo, run[..j]).accounts, run[j], id, f).None?
  }

  ghost predicate NeverGiven(geo: Geometry, run: seq<Request>, id: Id, f: Field) {
    forall j :: 0 <= j < |run| ==> Given(Exec(geo, run[..j]).accounts, run[j], id, f).None?
  }

  function Initial(venue: bool, f: Field): Option<string> {
    match f
    case Role => if venue then None else Some("user")
    case Tier => Some("regular")
  }

  /** The value is the one given last, or that of a new account if none was given. */
  ghost predicate FromHistory(geo: Geometry, run: seq<Request>, id: Id, f: Field, u: User) {
    || (NeverGiven(geo, run, id, f) && Value(u, f) == Initial(u.venue, f))
    || exists k: nat ::
         GivenLast(geo, run, k, id, f) && Value(u, f) == Given(Exec(geo, run[..k]).accounts, run[k], id, f)
  }

  /** After every run, a user's role and tier are what the last effective patch or bootstrap gave, and
      those of a new account if there was none. */
  lemma {:induction false} FieldAfterRun(geo: Geometry, run: seq<Request>, id: Id, f: Field)
    requires id in Exec(geo, run).accounts.users
    ensures FromHistory(geo, run, id, f, Exec(geo, run).accounts.users[id])
  {
    if run != [] {
      hide Step, Given, Sound, Value, FromHistory, Follows;
      var last := |run| - 1;
      var (s, t) := (Exec(geo, run[..last]), Exec(geo, run));
      AccountsOfRun(geo, run[..last]);
      if id !in s.accounts.users {
        NewUserAfterStep(geo, s, run[last], id);
        NothingGivenYet(geo, run, id, f);
        InitialValues(t.accounts.users[id], f, run[last]);
        UntouchedHistory(geo, run, id, f, t.accounts.users[id]);
      } else {
        FieldAfterRun(geo, run[..last], id, f);
        Fits(s.accounts, id);
        UserAfterStep(geo, s, run[last], id);
        FollowsField(s.accounts, run[last], id, s.accounts.users[id], t.accounts.users[id], f);
        HistoryGoesOn(geo, run, id, f, s.accounts.users[id], t.accounts.users[id]);
      }
    }
  }

  lemma GivenLastOn(geo: Geometry, run: seq<Request>, k: nat, id: Id, f: Field)
    requires run != [] && GivenLast(geo, run[..|run| - 1], k, id, f)
    requires Given(Exec(geo, run[..|run| - 1]).accounts, run[|run| - 1], id, f).None?
    ensures GivenLast(geo, run, k, id, f)
    ensures run[..|run| - 1][..k] == run[..k] && run[..|run| - 1][k] == run[k]
  {
    hide Exec, Given;
    var before := run[..|run| - 1];
    assert forall j :: 0 <= j < |before| ==> before[..j] == run[..j] && before[j] == run[j];
  }

  lemma NeverGivenOn(geo: Geometry, run: seq<Request>, id: Id, f: Field)
    requires run != [] && NeverGiven(geo, run[..|run| - 1], id, f)
    requires Given(Exec(geo, run[..|run| - 1]).accounts, run[|run| - 1], id, f).None?
    ensures NeverGiven(geo, run, id, f)
  {
    hide Exec, Given;
    var before := run[..|run| - 1];
    assert forall j :: 0 <= j < |before| ==> before[..j] == run[..j] && before[j] == run[j];
  }

  lemma HistoryGoesOn(geo: Geometry, run: seq<Request>, id: Id, f: Field, u: User, v: User)
    requires run != [] && FromHistory(geo, run[..|run| - 1], id, f, u) && v.venue == u.venue
    requires var g := Given(Exec(geo, run[..|run| - 1]).accounts, run[|run| - 1], id, f);
             Value(v, f) == if g.Some? then g else Value(u, f)
    ensures FromHistory(geo, run, id, f, v)
  {
    hide Exec, Given, Value, NeverGiven, Initial;
    var before := run[..|run| - 1];
    if Given(Exec(geo, before).accounts, run[|run| - 1], id, f).Some? {
      assert GivenLast(geo, run, |run| - 1, id, f) by { GivenAtLast(geo, run, id, f); }
    } else if NeverGiven(geo, before, id, f) && Value(u, f) == Initial(u.venue, f) {
      NeverGivenOn(geo, run, id, f);
    } else {
      var k: nat :| GivenLast(geo, before, k, id, f)
                    && Value(u, f) == Given(Exec(geo, before[..k]).accounts, before[k], id, f);
      GivenLastOn(geo, run, k, id, f);
    }
  }

  lemma GivenAtLast(geo: Geometry, run: seq<Request>, id: Id, f: Field)
    requires run != [] && Given(Exec(geo, run[..|run| - 1]).accounts, run[|run| - 1], id, f).Some?
    ensures GivenLast(geo, run, |run| - 1, id, f)
  {
  }

  lemma UntouchedHistory(geo: Geometry, run: seq<Request>, id: Id, f: Field, u: User)
    requires NeverGiven(geo, run, id, f) && Value(u, f) == Initial(u.venue, f)
    ensures FromHistory(geo, run, id, f, u)
  {
  }

  lemma InitialValues(u: User, f: Field, r: Request)
    requires u == if r.CreateVenue? then User(None, "regular", 0, true, r.tok.sub)
                  else User(Some("user"), "regular", 0, false, "")
    ensures Value(u, f) == Initial(u.venue, f)
  {
  }

  /** Ids are never used twice, so before a user was made nothing was given to them. */
  lemma NothingGivenYet(geo: Geometry, run: seq<Request>, id: Id, f: Field)
    requires run != [] && id in Exec(geo, run).accounts.users && id !in Exec(geo, run[..|run| - 1]).accounts.users
    ensures NeverGiven(geo, run, id, f)
  {
    hide Step, Sound;
    var last := |run| - 1;
    var s := Exec(geo, run[..last]);
    forall j | 0 <= j < |run| ensures Given(Exec(geo, run[..j]).accounts, run[j], id, f).None? {
      hide ParseId, VerifiedByExtractor;
      if Given(Exec(geo, run[..j]).accounts, run[j], id, f).Some? {
        assert id in Exec(geo, run[..j]).accounts.users;
        AccountsOfRun(geo, run[..j]);
        Fits(Exec(geo, run[..j]).accounts, id);
        AccountsAdvance(geo, run[..last], j);
        assert run[..last][..j] == run[..j];
        MadeUnderUnusedId(geo, s, run[last], id);
      }
    }
  }

  lemma MadeUnderUnusedId(geo: Geometry, s: Social, r: Request, id: Id)
    requires id !in s.accounts.users && id in Step(geo, s, r).accounts.users
    ensures id !in s.accounts.used
  {
    hide ParseId, AcceptedByGateway, AdminExists, MakeToken, LoginToken, GateOpen;
    if r.RangeSync? && ParseId(r.user).Some? {
      SyncedFrame(geo, s, r.user, TierOf(s.accounts, ParseId(r.user).value), r.at, r.sightings);
    }
  }

  ghost predicate BootstrappedAt(geo: Geometry, run: seq<Request>, k: nat) {
    && k < |run| && run[k].Bootstrap?
    && exists id :: BootstrapReaches(Exec(geo, run[..k]).accounts, run[k].path, id)
  }

  /** All admin rights go back to a bootstrap: whoever is an admin after a run was bootstrapped, or made
      one by an admin who goes back to a bootstrap in turn. */
  lemma {:induction false} AdminsGoBackToBootstrap(geo: Geometry, run: seq<Request>, id: Id)
    requires id in Exec(geo, run).accounts.users && Exec(geo, run).accounts.users[id].role == Some("admin")
    ensures exists k: nat :: BootstrappedAt(geo, run, k)
    decreases |run|
  {
    hide Exec, Sound, ParseId, VerifiedByExtractor;
    FieldAfterRun(geo, run, id, Role);
    var k: nat :| GivenLast(geo, run, k, id, Role)
                  && Given(Exec(geo, run[..k]).accounts, run[k], id, Role) == Some("admin");
    if run[k].Bootstrap? {
      assert BootstrapReaches(Exec(geo, run[..k]).accounts, run[k].path, id);
      assert BootstrappedAt(geo, run, k);
    } else {
      AdminToken(geo, run[..k], run[k].tok);
      AdminsGoBackToBootstrap(geo, run[..k], run[k].tok.sub);
      var j: nat :| BootstrappedAt(geo, run[..k], j);
      assert run[..k][..j] == run[..j];
      assert BootstrappedAt(geo, run, j);
    }
  }

  lemma AdminToken(geo: Geometry, run: seq<Request>, tok: Token)
    requires VerifiedByExtractor(Exec(geo, run).accounts, tok) && tok.role == "admin"
    ensures var users := Exec(geo, run).accounts.users; tok.sub in users && users[tok.sub].role == Some("admin")
  {
    hide Exec, VerifiedByExtractor, VerifiedByAuthority;
    AcceptedAfterRun(geo, run, tok);
  }

  // ----- Tokens -----

  /** Whether a request ends with a token for the user: a new account, a login of someone who is no venue,
      a password change, or an admin's patch of their own account that asks for one. What it is made from
      must be readable. */
  predicate HandsOut(a: Accounts, r: Request, id: Id) {
    match r
    case Register(made) => made == id && Canonical(id) && id !in a.used
    case Login(user) => user == id && id in a.users && !a.users[id].venue && Readable(a.users[id].tokenVersion)
    case ChangePassword(tok) =>
      && VerifiedByExtractor(a, tok) && RegisteredRole(tok.role) && tok.sub == id
      && Readable(a.users[id].tokenVersion + 1)
    case Patch(tok, path, tier, role, guard, reissue) =>
      && PatchReaches(a, tok, path, tier, role, guard, id) && reissue && tok.sub == path
      && Readable(a.users[id].tokenVersion + 1)
    case _ => false
  }

  /** A token good for its user as the documents stand: both general checks take it, and it carries the
      stored role and the stored tier, or after a login `regular` for a tier logins do not know. */
  predicate GoodFor(a: Accounts, tok: Token, id: Id) {
    && tok.sub == id && VerifiedByExtractor(a, tok) && VerifiedByAuthority(a, tok)
    && id in a.users && a.users[id].role == Some(tok.role)
    && (tok.tier == a.users[id].tier || (tok.tier == "regular" && a.users[id].tier !in VALID_USER_TIERS))
  }

  /** A token of the stored version. */
  predicate Current(a: Accounts, tok: Token, id: Id) {
    && tok in a.issued && tok.sub == id && id in a.users
    && tok.tv == a.users[id].tokenVersion && Readable(tok.tv)
  }

  lemma CurrentIsGood(a: Accounts, tok: Token, id: Id)
    requires Sound(a) && Current(a, tok, id)
    ensures GoodFor(a, tok, id)
  {
  }

  /** The request hands out a current token exactly to whom it should, and makes no other. */
  ghost predicate IssuesAsItShould(a: Accounts, b: Accounts, r: Request) {
    && (forall id :: HandsOut(a, r, id) ==> exists tok :: Current(b, tok, id))
    && (forall tok :: tok in b.issued && tok !in a.issued ==> HandsOut(a, r, tok.sub) && Current(b, tok, tok.sub))
  }

  lemma NewAccountIssues(geo: Geometry, s: Social, id: Id)
    ensures IssuesAsItShould(s.accounts, Registered(s.accounts, id), Register(id))
  {
    hide ParseId;
    if id !in s.accounts.used && Canonical(id) {
      assert Current(Registered(s.accounts, id), Token(id, "user", "regular", 0), id);
    }
  }

  lemma LoginIssues(geo: Geometry, s: Social, id: Id)
    requires Sound(s.accounts)
    ensures IssuesAsItShould(s.accounts, LoggedIn(s.accounts, id), Login(id))
  {
    hide ParseId;
    if id in s.accounts.users {
      Fits(s.accounts, id);
      var tok := LoginToken(id, s.accounts.users[id]);
      assert HandsOut(s.accounts, Login(id), id) ==> Current(LoggedIn(s.accounts, id), tok, id);
    }
  }

  lemma PasswordChangeIssues(geo: Geometry, s: Social, tok: Token)
    requires Sound(s.accounts)
    ensures IssuesAsItShould(s.accounts, PasswordChanged(s.accounts, tok), ChangePassword(tok))
  {
    hide ParseId;
    if AcceptedAsRegistered(s.accounts, tok) {
      Fits(s.accounts, tok.sub);
      var renewed := MakeToken(tok.sub, Bumped(s.accounts.users[tok.sub]));
      assert HandsOut(s.accounts, ChangePassword(tok), tok.sub) ==>
          Current(PasswordChanged(s.accounts, tok), renewed, tok.sub);
    }
  }

  lemma PatchIssues(geo: Geometry, s: Social, r: Request)
    requires Sound(s.accounts) && r.Patch?
    ensures IssuesAsItShould(s.accounts, Step(geo, s, r).accounts, r)
  {
    hide ParseId, PatchAllowed, PatchReaches, SanitizeRole, Sound;
    var (a, b) := (s.accounts, Step(geo, s, r).accounts);
    if PatchAllowed(a, r.tok, r.path, r.tier, r.role, r.guard) {
      PatchedUserKnown(a, r.tok, r.path, r.tier, r.role, r.guard);
      var id := ParseId(r.path).value;
      Fits(a, id);
      var renewed := MakeToken(id, PatchedUser(a.users[id], r.tier, r.role));
      assert HandsOut(a, r, id) ==> Current(b, renewed, id);
    }
    forall id ensures PatchReaches(a, r.tok, r.path, r.tier, r.role, r.guard, id) <==>
                      PatchAllowed(a, r.tok, r.path, r.tier, r.role, r.guard) && ParseId(r.path).value == id {
      PatchReachesIff(a, r.tok, r.path, r.tier, r.role, r.guard, id);
    }
  }

  lemma PatchedUserKnown(a: Accounts, tok: Token, path: string, tier: Option<string>, role: Option<string>, guard: bool)
    requires PatchAllowed(a, tok, path, tier, role, guard)
    ensures ParseId(path).Some? && ParseId(path).value in a.users
  {
    hide ParseId;
  }

  lemma OthersIssueNothing(geo: Geometry, s: Social, r: Request)
    requires !r.Register? && !r.Login? && !r.ChangePassword? && !r.Patch?
    ensures IssuesAsItShould(s.accounts, Step(geo, s, r).accounts, r)
  {
    hide ParseId, AcceptedByGateway, AdminExists, GateOpen, Current;
    if r.RangeSync? && ParseId(r.user).Some? {
      SyncedFrame(geo, s, r.user, TierOf(s.accounts, ParseId(r.user).value), r.at, r.sightings);
    }
  }

  /** Every request that should hand out a good token does, and no request makes any other. */
  lemma HandedOutIsGood(geo: Geometry, s: Social, r: Request, id: Id)
    requires Sound(s.accounts)
    ensures HandsOut(s.accounts, r, id) ==> exists tok :: GoodFor(Step(geo, s, r).accounts, tok, id)
    ensures forall tok :: tok in Step(geo, s, r).accounts.issued && tok !in s.accounts.issued ==>
              HandsOut(s.accounts, r, tok.sub) && GoodFor(Step(geo, s, r).accounts, tok, tok.sub)
  {
    hide Sound, HandsOut, GoodFor, Current, ParseId;
    var b := Step(geo, s, r).accounts;
    AccountsStep(geo, s, r);
    assert IssuesAsItShould(s.accounts, b, r) by {
      match r
      case Register(made) => NewAccountIssues(geo, s, made);
      case Login(user) => LoginIssues(geo, s, user);
      case ChangePassword(tok) => PasswordChangeIssues(geo, s, tok);
      case Patch(_, _, _, _, _, _) => PatchIssues(geo, s, r);
      case _ => OthersIssueNothing(geo, s, r);
    }
    hide Step;
    forall tok, v | Current(b, tok, v) ensures GoodFor(b, tok, v) {
      CurrentIsGood(b, tok, v);
    }
  }

  /** A password change ends with exactly one new token, good for the user, and every earlier one of
      theirs is outrun; but with none if the bumped version can no longer be read back. */
  lemma PasswordChangeRenews(geo: Geometry, s: Social, tok: Token) returns (renewed: Option<Token>)
    requires Sound(s.accounts) && AcceptedAsRegistered(s.accounts, tok)
    ensures var (a, b) := (s.accounts, Step(geo, s, ChangePassword(tok)).accounts);
            && (renewed.Some? <==> Readable(a.users[tok.sub].tokenVersion + 1))
            && b.issued == a.issued + (if renewed.Some? then {renewed.value} else {})
            && (renewed.Some? ==> renewed.value !in a.issued && GoodFor(b, renewed.value, tok.sub))
            && (forall earlier :: earlier in a.issued && earlier.sub == tok.sub ==> Revoked(b, earlier))
  {
    hide ParseId, SanitizeRole;
    var (a, b) := (s.accounts, Step(geo, s, ChangePassword(tok)).accounts);
    AccountsStep(geo, s, ChangePassword(tok));
    Fits(a, tok.sub);
    var made := MakeToken(tok.sub, Bumped(a.users[tok.sub]));
    renewed := if Readable(made.tv) then Some(made) else None;
    if renewed.Some? {
      CurrentIsGood(b, made, tok.sub);
    }
    forall earlier | earlier in a.issued && earlier.sub == tok.sub ensures Revoked(b, earlier) {
      BumpRevokes(a, b, earlier);
    }
  }

  /** An admin's patch of their own account, where it goes through, renews their token likewise. */
  lemma SelfPatchRenews(a: Accounts, tok: Token, path: string, tier: Option<string>, role: Option<string>, guard: bool)
    requires Sound(a)
    ensures PatchAllowed(a, tok, path, tier, role, guard) && tok.sub == path &&
            Readable(a.users[ParseId(path).value].tokenVersion + 1) ==>
              var id := ParseId(path).value;
              var token := MakeToken(id, PatchedUser(a.users[id], tier, role));
              GoodFor(Patched(a, tok, path, tier, role, guard, true), token, id)
  {
    hide ParseId, SanitizeRole, AcceptedAsAdmin, Sound, GoodFor;
    if PatchAllowed(a, tok, path, tier, role, guard) && tok.sub == path
       && Readable(a.users[ParseId(path).value].tokenVersion + 1) {
      var id := ParseId(path).value;
      PatchedSound(a, tok, path, tier, role, guard, true);
      Fits(a, id);
      var token := MakeToken(id, PatchedUser(a.users[id], tier, role));
      CurrentIsGood(Patched(a, tok, path, tier, role, guard, true), token, id);
    }
  }
}
