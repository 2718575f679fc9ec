/** What every run of the handlers keeps: no favourite or message of a user who is gone, and no flag
    computed under tiers that are no longer theirs. */
module SocialRuns {
  import opened Grid
  import opened LocationStore
  import opened Accounts
  import opened Social

  // ----- The invariant -----

  /** Every favourite and every message names existing users at both ends, and nobody favours
      themselves. */
  ghost predicate Refs(s: Social) {
    && (forall p :: p in s.favourites ==> p.from != p.to && p.from in s.accounts.users && p.to in s.accounts.users)
    && (forall m :: m in s.messages ==> m.from in s.accounts.users && m.to in s.accounts.users)
  }

  /** Neither of two cached radii is shorter than the distance between two positions. */
  predicate WithinBoth(geo: Geometry, radii: map<string, real>, a: Point, b: Point, tierA: string, tierB: string)
    requires tierA in radii && tierB in radii
  {
    && (radii[tierA] == -1.0 || geo.dist(a, b) <= radii[tierA])
    && (radii[tierB] == -1.0 || geo.dist(a, b) <= radii[tierB])
  }

  /** The decision was taken under the tiers both users have now and follows from the cached radii. */
  predicate DecisionCurrent(geo: Geometry, s: Social, d: Decision) {
    && d.userTier == TierOf(s.accounts, d.user) && d.otherTier == TierOf(s.accounts, d.other)
    && d.userTier in s.radii && d.otherTier in s.radii
    && d.verdict == WithinBoth(geo, s.radii, d.userAt, d.otherAt, d.userTier, d.otherTier)
  }

  predicate FlagCurrent(geo: Geometry, s: Social, p: Pair)
    requires p in s.favourites
  {
    s.favourites[p].withinRange.Some? ==>
      && p in s.decisions && DecisionCurrent(geo, s, s.decisions[p])
      && s.favourites[p].withinRange.value == s.decisions[p].verdict
  }

  ghost predicate FlagsCurrent(geo: Geometry, s: Social) {
    forall p :: p in s.favourites ==> FlagCurrent(geo, s, p)
  }

  /** A decision is about the two users it is kept for, and is kept for both directions. */
  predicate DecisionPaired(s: Social, p: Pair)
    requires p in s.decisions
  {
    var d := s.decisions[p];
    && (p == Pair(d.user, d.other) || p == Pair(d.other, d.user))
    && Reversed(p) in s.decisions && s.decisions[Reversed(p)] == d
  }

  ghost predicate DecisionsPaired(s: Social) {
    forall p :: p in s.decisions ==> DecisionPaired(s, p)
  }

  ghost predicate Consistent(geo: Geometry, s: Social) {
    Sound(s.accounts) && Refs(s) && DecisionsPaired(s) && FlagsCurrent(geo, s)
  }

  /** If both directions carry the flag, the values are equal. */
  lemma FlagsAgree(geo: Geometry, s: Social, p: Pair)
    requires Consistent(geo, s) && p in s.favourites && Reversed(p) in s.favourites
    requires s.favourites[p].withinRange.Some? && s.favourites[Reversed(p)].withinRange.Some?
    ensures s.favourites[p].withinRange == s.favourites[Reversed(p)].withinRange
  {
  }

  // ----- Accounts -----

  lemma AccountsStep(geo: Geometry, s: Social, r: Request)
    requires Sound(s.accounts)
    ensures Sound(Step(geo, s, r).accounts) && Advances(s.accounts, Step(geo, s, r).accounts)
  {
    hide Sound, UserFits, TokenFits, ParseId, PatchAllowed, UsersDeleted;
    hide Registered, LoggedIn, PasswordChanged, Bootstrapped, Patched, VenueCreated, ManagerReassigned;
    var a := s.accounts;
    match r
    case Register(id) => RegisteredSound(a, id);
    case Login(id) => LoggedInSound(a, id);
    case ChangePassword(tok) => PasswordChangedSound(a, tok);
    case Bootstrap(path) => BootstrappedSound(a, path);
    case Patch(tok, path, tier, role, guard, reissue) => PatchedSound(a, tok, path, tier, role, guard, reissue);
    case CreateVenue(tok, id) => VenueCreatedSound(a, tok, id);
    case DeleteVenue(tok, path) => if ParseId(path).Some? { UsersDeletedSound(a, {ParseId(path).value}); }
    case ReassignManager(tok, path, manager) => ManagerReassignedSound(a, tok, path, manager);
    case DeleteMe(tok) =>
      UsersDeletedSound(a, {tok.sub});
      UsersDeletedSound(a, VenuesOf(s, tok.sub));
      UsersDeletedSound(UsersDeleted(a, VenuesOf(s, tok.sub)), {tok.sub});
      AdvancesOn(a, UsersDeleted(a, VenuesOf(s, tok.sub)), UsersDeleted(UsersDeleted(a, VenuesOf(s, tok.sub)),
          {tok.sub}));
    case RangeSync(user, at, sightings) =>
      if ParseId(user).Some? { SyncedFrame(geo, s, user, TierOf(a, ParseId(user).value), at, sightings); }
    case _ =>
  }

  lemma AdvancesOn(a: Accounts, b: Accounts, c: Accounts)
    requires Advances(a, b) && Advances(b, c)
    ensures Advances(a, c)
  {
  }

  /** A range-sync changes flags, cache and history only. */
  lemma {:induction false} SyncedFrame(geo: Geometry, s: Social, user: Id, tier: string, at: Point,
                                       sightings: seq<Sighting>)
    ensures var t := SyncedAll(geo, s, user, tier, at, sightings);
            && t.accounts == s.accounts && t.blocks == s.blocks && t.messages == s.messages
            && t.favourites.Keys == s.favourites.Keys
            && (forall tier :: tier in s.radii ==> tier in t.radii && t.radii[tier] == s.radii[tier])
    decreases |sightings|
  {
    if sightings != [] {
      SyncedFrame(geo, s, user, tier, at, sightings[..|sightings| - 1]);
    }
  }

  // ----- Referential integrity -----

  lemma KnownSender(a: Accounts, tok: Token)
    requires AcceptedByGateway(a, tok) || AcceptedAsRegistered(a, tok)
    ensures tok.sub in a.users
  {
  }

  lemma UsersAreCanonical(a: Accounts, id: Id)
    requires Sound(a) && id in a.users
    ensures ParseId(id) == Some(id)
  {
  }

  /** Adding a favourite keeps the references exactly if it is refused or the path spells the id as
      the database does: it is the text that is filed, not the id it was read as. */
  lemma FavouriteKeepsRefsIff(s: Social, tok: Token, path: string)
    requires Sound(s.accounts) && Refs(s)
    ensures Refs(FavouriteAdded(s, tok, path)) <==> !FavouriteAllowed(s, tok, path) || Canonical(path)
  {
    hide Sound, ParseId;
    if FavouriteAllowed(s, tok, path) {
      KnownSender(s.accounts, tok);
      assert Pair(tok.sub, path) in FavouriteAdded(s, tok, path).favourites;
      if path in s.accounts.users {
        UsersAreCanonical(s.accounts, path);
      }
    }
  }

  lemma SendKeepsRefsIff(geo: Geometry, s: Social, tok: Token, path: string, id: Id, c: SendContext)
    requires Sound(s.accounts) && Refs(s)
    ensures Refs(Sent(geo, s, tok, path, id, c)) <==> !SendAllowed(geo, s, tok, path, c) || Canonical(path)
  {
    hide Sound, ParseId, GateOpen;
    if SendAllowed(geo, s, tok, path, c) {
      KnownSender(s.accounts, tok);
      assert Message(id, tok.sub, path) in Sent(geo, s, tok, path, id, c).messages;
      if path in s.accounts.users {
        UsersAreCanonical(s.accounts, path);
      }
    }
  }

  /** Some favourite or message names the user. */
  ghost predicate Mentioned(s: Social, id: Id) {
    || (exists p :: p in s.favourites && Involves(p, {id}))
    || (exists m :: m in s.messages && (m.from == id || m.to == id))
  }

  /** Deleting a venue keeps the references exactly if it is refused, the path is spelled as the
      database does, or nothing names the venue. */
  lemma VenueDeletionKeepsRefsIff(s: Social, tok: Token, path: string)
    requires Sound(s.accounts) && Refs(s)
    ensures Refs(VenueDeleted(s, tok, path)) <==>
            !VenueDeletionAllowed(s, tok, path) || Canonical(path) || !Mentioned(s, ParseId(path).value)
  {
    hide Sound, ParseId, AcceptedAsRegistered;
    if VenueDeletionAllowed(s, tok, path) {
      var (t, id) := (VenueDeleted(s, tok, path), ParseId(path).value);
      assert t.accounts.users == s.accounts.users - {id};
      if Canonical(path) {
      } else if Mentioned(s, id) {
        if path in s.accounts.users {
          UsersAreCanonical(s.accounts, path);
        }
        if p :| p in s.favourites && Involves(p, {id}) {
          assert p in t.favourites;
        } else {
          var m :| m in s.messages && (m.from == id || m.to == id);
          assert m in t.messages;
        }
      }
    }
  }

  lemma MeDeletionKeepsRefs(s: Social, tok: Token)
    requires Refs(s)
    ensures Refs(MeDeleted(s, tok))
  {
  }

  // ----- Flags -----

  /** Flags stay current as long as nobody's tier changes and what they rest on is kept. */
  lemma FlagsKept(geo: Geometry, s: Social, t: Social)
    requires FlagsCurrent(geo, s) && DecisionsPaired(s) && Refs(s) && t.decisions == s.decisions && t.radii == s.radii
    requires forall p :: p in t.favourites ==>
               || t.favourites[p].withinRange.None?
               || (p in s.favourites && t.favourites[p] == s.favourites[p] &&
                   TierOf(t.accounts, p.from) == TierOf(s.accounts, p.from) && TierOf(t.accounts, p.to) ==
                       TierOf(s.accounts, p.to))
    ensures FlagsCurrent(geo, t)
  {
  }

  /** Some favourite of the user, either way round, carries the flag. */
  ghost predicate Flagged(s: Social, id: Id) {
    exists p :: p in s.favourites && (p.from == id || p.to == id) && s.favourites[p].withinRange.Some?
  }

  /** A patch that is refused, changes no tier, drops the flags, or finds none to drop. They are
      dropped under the text of the path, and not at all once the bumped version can no longer be read
      back. */
  ghost predicate PatchSparesFlags(s: Social, tok: Token, path: string, tier: Option<string>, role: Option<string>,
                                   guard: bool)
  {
    || !PatchAllowed(s.accounts, tok, path, tier, role, guard)
    || tier.None? || tier.value == TierOf(s.accounts, ParseId(path).value)
    || (Canonical(path) && Readable(s.accounts.users[ParseId(path).value].tokenVersion + 1))
    || !Flagged(s, ParseId(path).value)
  }

  /** Exactly then do all flags stay current. */
  lemma PatchKeepsFlagsIff(geo: Geometry, s: Social, tok: Token, path: string, tier: Option<string>,
                           role: Option<string>, guard: bool, reissue: bool)
    requires Consistent(geo, s)
    ensures FlagsCurrent(geo, AdminPatched(s, tok, path, tier, role, guard, reissue)) <==>
            PatchSparesFlags(s, tok, path, tier, role, guard)
  {
    hide Sound, ParseId, MakeToken, AcceptedAsAdmin, WithinBoth, FlagsCurrent, DecisionsPaired;
    if PatchAllowed(s.accounts, tok, path, tier, role, guard) {
      var id := ParseId(path).value;
      var t := AdminPatched(s, tok, path, tier, role, guard, reissue);
      assert forall v :: v != id ==> TierOf(t.accounts, v) == TierOf(s.accounts, v);
      var dropped := tier.Some? && Readable(s.accounts.users[id].tokenVersion + 1);
      if tier.None? || tier.value == TierOf(s.accounts, id) || (Canonical(path) && dropped) || !Flagged(s, id) {
        FlagsKept(geo, s, t);
      } else {
        StaleFlagStays(geo, s, t, id, path);
      }
    }
  }

  /** A flag that outlives a tier change is no longer current. */
  lemma StaleFlagStays(geo: Geometry, s: Social, t: Social, id: Id, path: string)
    requires Consistent(geo, s) && Flagged(s, id) && id in s.accounts.users
    requires TierOf(t.accounts, id) != TierOf(s.accounts, id) && t.decisions == s.decisions
    requires t.favourites == s.favourites || (path != id && !Canonical(path) && t.favourites ==
        Unflagged(s.favourites, path))
    ensures !FlagsCurrent(geo, t)
  {
    hide Sound, ParseId, WithinBoth;
    var p :| p in s.favourites && (p.from == id || p.to == id) && s.favourites[p].withinRange.Some?;
    assert FlagCurrent(geo, s, p) && DecisionPaired(s, p);
    if path in s.accounts.users {
      UsersAreCanonical(s.accounts, path);
    }
    assert t.favourites[p] == s.favourites[p];
    assert !FlagCurrent(geo, t, p);
  }

  /** The cache only grows, so what followed from it still does. */
  lemma LearningKeepsConsistency(geo: Geometry, s: Social, radii: map<string, real>)
    requires Consistent(geo, s) && forall tier :: tier in s.radii ==> tier in radii && radii[tier] == s.radii[tier]
    ensures Consistent(geo, s.(radii := radii))
  {
  }

  /** Recording a current decision keeps everything: both directions take it together. */
  lemma RecordingKeepsConsistency(geo: Geometry, s: Social, d: Decision)
    requires Consistent(geo, s) && DecisionCurrent(geo, s, d)
    ensures Consistent(geo, Recorded(s, d))
  {
    hide Sound, DecisionCurrent;
    var t := Recorded(s, d);
    var (p, q) := (Pair(d.user, d.other), Pair(d.other, d.user));
    forall v | v in t.decisions ensures DecisionPaired(t, v) { assert v != p && v != q ==> DecisionPaired(s, v); }
    assert DecisionCurrent(geo, t, d) by { SameDecision(geo, s, t, d); }
    forall v | v in t.favourites ensures FlagCurrent(geo, t, v) {
      if v != p && v != q && t.favourites[v].withinRange.Some? {
        assert FlagCurrent(geo, s, v);
        SameDecision(geo, s, t, s.decisions[v]);
      }
    }
  }

  lemma SameDecision(geo: Geometry, s: Social, t: Social, d: Decision)
    requires DecisionCurrent(geo, s, d) && t.accounts == s.accounts && t.radii == s.radii
    ensures DecisionCurrent(geo, t, d)
  {
  }

  lemma SyncOneKeepsConsistency(geo: Geometry, s: Social, user: Id, tier: string, at: Point, l: Sighting)
    requires Consistent(geo, s) && (user in s.accounts.users ==> tier == TierOf(s.accounts, user))
    ensures Consistent(geo, SyncedOne(geo, s, user, tier, at, l))
  {
    hide Sound, FlagsCurrent, DecisionsPaired, SafeTier;
    if Joined(s, user, l.user) {
      assert user in s.accounts.users;
      var otherTier := TierOf(s.accounts, l.user);
      var radii := LearntBoth(s, tier, l);
      LearningKeepsConsistency(geo, s, radii);
      if tier in radii && otherTier in radii {
        hide Recorded, Refs;
        RecordingKeepsConsistency(geo, s.(radii := radii),
                          Decision(user, l.user, at, l.at, tier, otherTier, Verdict(geo, radii, at, l.at, tier,
                          otherTier)));
      }
    }
  }

  lemma {:induction false} SyncKeepsConsistency(geo: Geometry, s: Social, user: Id, tier: string, at: Point,
                                                sightings: seq<Sighting>)
    requires Consistent(geo, s) && (user in s.accounts.users ==> tier == TierOf(s.accounts, user))
    ensures Consistent(geo, SyncedAll(geo, s, user, tier, at, sightings))
    decreases |sightings|
  {
    hide Consistent, SyncedOne;
    if sightings != [] {
      var before := sightings[..|sightings| - 1];
      SyncKeepsConsistency(geo, s, user, tier, at, before);
      SyncedFrame(geo, s, user, tier, at, before);
      SyncOneKeepsConsistency(geo, SyncedAll(geo, s, user, tier, at, before), user, tier, at,
          sightings[|sightings| - 1]);
    }
  }

  // ----- One step -----

  /** The path, where it names an id at all, spells it as the database does. */
  predicate Plain(path: string) {
    ParseId(path).Some? ==> Canonical(path)
  }

  /** The request is refused, or what it files or clears it files or clears under the right text. */
  ghost predicate Harmless(geo: Geometry, s: Social, r: Request) {
    match r
    case AddFavourite(tok, path) => FavouriteAllowed(s, tok, path) ==> Canonical(path)
    case Send(tok, path, _, c) => SendAllowed(geo, s, tok, path, c) ==> Canonical(path)
    case DeleteVenue(tok, path) =>
      VenueDeletionAllowed(s, tok, path) ==> Canonical(path) || !Mentioned(s, ParseId(path).value)
    case Patch(tok, path, tier, role, guard, _) => PatchSparesFlags(s, tok, path, tier, role, guard)
    case _ => true
  }

  ghost predicate KeepsTiers(a: Accounts, b: Accounts) {
    forall id :: id in a.users ==> id in b.users && b.users[id].tier == a.users[id].tier
  }

  predicate AccountsOnly(r: Request) {
    r.Register? || r.Login? || r.ChangePassword? || r.Bootstrap? || r.CreateVenue? || r.ReassignManager?
  }

  lemma AccountsOnlyKeepsTiers(geo: Geometry, s: Social, r: Request)
    requires Sound(s.accounts) && AccountsOnly(r)
    ensures Step(geo, s, r) == s.(accounts := Step(geo, s, r).accounts)
    ensures KeepsTiers(s.accounts, Step(geo, s, r).accounts)
  {
    hide ParseId, AcceptedAsRegistered, AcceptedAsAdmin, AdminExists, Readable, MakeToken, LoginToken;
    forall id | id in s.accounts.users ensures UserFits(s.accounts, id) {}
  }

  lemma AccountsOnlyKeepsConsistency(geo: Geometry, s: Social, r: Request)
    requires Consistent(geo, s) && AccountsOnly(r)
    ensures Consistent(geo, Step(geo, s, r))
  {
    hide Sound, Step, DecisionPaired;
    var t := Step(geo, s, r);
    AccountsStep(geo, s, r);
    AccountsOnlyKeepsTiers(geo, s, r);
    forall p | p in t.decisions ensures DecisionPaired(t, p) { SamePairing(s, t, p); }
    FlagsKept(geo, s, t);
  }

  lemma SamePairing(s: Social, t: Social, p: Pair)
    requires p in s.decisions && t.decisions == s.decisions && DecisionPaired(s, p)
    ensures DecisionPaired(t, p)
  {
  }

  /** A step that keeps the history and the cache keeps the invariant if it keeps the references and
      changes no flag but to drop it. */
  lemma QuietStepKeepsConsistency(geo: Geometry, s: Social, r: Request)
    requires Consistent(geo, s) && Refs(Step(geo, s, r))
    requires var t := Step(geo, s, r);
             && t.decisions == s.decisions && t.radii == s.radii
             && forall p :: p in t.favourites ==>
                  || t.favourites[p].withinRange.None?
                  || (p in s.favourites && t.favourites[p] == s.favourites[p] &&
                      TierOf(t.accounts, p.from) == TierOf(s.accounts, p.from) &&
                      TierOf(t.accounts, p.to) == TierOf(s.accounts, p.to))
    ensures Consistent(geo, Step(geo, s, r))
  {
    hide Sound, Step, DecisionPaired, Refs;
    var t := Step(geo, s, r);
    AccountsStep(geo, s, r);
    forall p | p in t.decisions ensures DecisionPaired(t, p) { SamePairing(s, t, p); }
    FlagsKept(geo, s, t);
  }

  lemma OwnDeletionKeepsConsistency(geo: Geometry, s: Social, r: Request)
    requires Consistent(geo, s) && r.DeleteMe?
    ensures Consistent(geo, Step(geo, s, r))
  {
    hide Sound, ParseId, AcceptedAsRegistered, FlagsCurrent, DecisionsPaired;
    MeDeletionKeepsRefs(s, r.tok);
    QuietStepKeepsConsistency(geo, s, r);
  }

  lemma VenueDeletionKeepsConsistencyIff(geo: Geometry, s: Social, r: Request)
    requires Consistent(geo, s) && r.DeleteVenue?
    ensures Consistent(geo, Step(geo, s, r)) <==> Harmless(geo, s, r)
  {
    hide Sound, ParseId, AcceptedAsRegistered, FlagsCurrent, DecisionsPaired;
    VenueDeletionKeepsRefsIff(s, r.tok, r.path);
    if Harmless(geo, s, r) {
      QuietStepKeepsConsistency(geo, s, r);
    }
  }

  lemma FavouritesStepKeepsConsistencyIff(geo: Geometry, s: Social, r: Request)
    requires Consistent(geo, s) && (r.AddFavourite? || r.RemoveFavourite?)
    ensures Consistent(geo, Step(geo, s, r)) <==> Harmless(geo, s, r)
  {
    hide Sound, ParseId, AcceptedByGateway, FlagsCurrent, DecisionsPaired;
    if r.AddFavourite? {
      FavouriteKeepsRefsIff(s, r.tok, r.path);
    }
    if Harmless(geo, s, r) {
      QuietStepKeepsConsistency(geo, s, r);
    }
  }

  lemma MessagingStepKeepsConsistencyIff(geo: Geometry, s: Social, r: Request)
    requires Consistent(geo, s) && (r.Block? || r.Unblock? || r.Send? || r.DeleteMessage?)
    ensures Consistent(geo, Step(geo, s, r)) <==> Harmless(geo, s, r)
  {
    hide Sound, ParseId, AcceptedByGateway, GateOpen, FlagsCurrent, DecisionsPaired;
    if r.Send? {
      SendKeepsRefsIff(geo, s, r.tok, r.path, r.id, r.context);
    }
    if Harmless(geo, s, r) {
      QuietStepKeepsConsistency(geo, s, r);
    }
  }

  lemma PatchFrame(geo: Geometry, s: Social, r: Request)
    requires r.Patch?
    ensures var t := Step(geo, s, r);
            && t.favourites.Keys == s.favourites.Keys && t.messages == s.messages && t.decisions == s.decisions
            && s.accounts.users.Keys <= t.accounts.users.Keys
  {
    hide ParseId, AcceptedAsAdmin, PatchedUser, Reissue;
  }

  lemma PatchKeepsRest(geo: Geometry, s: Social, r: Request)
    requires Refs(s) && DecisionsPaired(s) && r.Patch?
    ensures Refs(Step(geo, s, r)) && DecisionsPaired(Step(geo, s, r))
  {
    hide Step, DecisionPaired;
    var t := Step(geo, s, r);
    PatchFrame(geo, s, r);
    assert forall p :: p in t.favourites ==> p in s.favourites.Keys;
    assert forall id :: id in s.accounts.users ==> id in t.accounts.users.Keys;
    forall p | p in t.decisions ensures DecisionPaired(t, p) { SamePairing(s, t, p); }
  }

  lemma PatchKeepsConsistencyIff(geo: Geometry, s: Social, r: Request)
    requires Consistent(geo, s) && r.Patch?
    ensures Consistent(geo, Step(geo, s, r)) <==> Harmless(geo, s, r)
  {
    hide Sound, AdminPatched, PatchSparesFlags, FlagsCurrent, Refs, DecisionsPaired, Advances;
    AccountsStep(geo, s, r);
    PatchKeepsRest(geo, s, r);
    PatchKeepsFlagsIff(geo, s, r.tok, r.path, r.tier, r.role, r.guard, r.reissue);
  }

  /** Over every step, consistency is kept exactly if the request is harmless. */
  lemma StepKeepsConsistencyIff(geo: Geometry, s: Social, r: Request)
    requires Consistent(geo, s)
    ensures Consistent(geo, Step(geo, s, r)) <==> Harmless(geo, s, r)
  {
    hide ParseId, Consistent;
    if AccountsOnly(r) {
      AccountsOnlyKeepsConsistency(geo, s, r);
    } else if r.Patch? {
      PatchKeepsConsistencyIff(geo, s, r);
    } else if r.DeleteMe? {
      OwnDeletionKeepsConsistency(geo, s, r);
    } else if r.DeleteVenue? {
      VenueDeletionKeepsConsistencyIff(geo, s, r);
    } else if r.RangeSync? {
      if ParseId(r.user).Some? {
        SoundOf(geo, s);
        if r.user in s.accounts.users { UsersAreCanonical(s.accounts, r.user); }
        SyncKeepsConsistency(geo, s, r.user, TierOf(s.accounts, ParseId(r.user).value), r.at, r.sightings);
      }
    } else if r.AddFavourite? || r.RemoveFavourite? {
      FavouritesStepKeepsConsistencyIff(geo, s, r);
    } else {
      MessagingStepKeepsConsistencyIff(geo, s, r);
    }
  }

  lemma SoundOf(geo: Geometry, s: Social)
    requires Consistent(geo, s)
    ensures Sound(s.accounts)
  {
  }

  // ----- Whole runs -----

  ghost predicate AllHarmless(geo: Geometry, run: seq<Request>) {
    forall k :: 0 <= k < |run| ==> Harmless(geo, Exec(geo, run[..k]), run[k])
  }

  ghost predicate AlwaysConsistent(geo: Geometry, run: seq<Request>) {
    forall k :: 0 <= k <= |run| ==> Consistent(geo, Exec(geo, run[..k]))
  }

  lemma {:induction false} RunKeepsConsistency(geo: Geometry, run: seq<Request>)
    requires AllHarmless(geo, run)
    ensures Consistent(geo, Exec(geo, run))
  {
    if run != [] {
      hide Step, Consistent, Harmless;
      var before := run[..|run| - 1];
      HarmlessPrefix(geo, run, |run| - 1);
      RunKeepsConsistency(geo, before);
      StepKeepsConsistencyIff(geo, Exec(geo, before), run[|run| - 1]);
    }
  }

  lemma HarmlessPrefix(geo: Geometry, run: seq<Request>, n: nat)
    requires AllHarmless(geo, run) && n <= |run|
    ensures AllHarmless(geo, run[..n])
  {
    hide Exec, Harmless;
    forall k | 0 <= k < n ensures Harmless(geo, Exec(geo, run[..n][..k]), run[..n][k]) {
      assert run[..n][..k] == run[..k];
    }
  }

  /** Every state of a run is consistent exactly if every request, when it comes, is harmless. */
  lemma RunConsistentIff(geo: Geometry, run: seq<Request>)
    ensures AlwaysConsistent(geo, run) <==> AllHarmless(geo, run)
  {
    hide Exec, Step, Consistent, Harmless;
    if AllHarmless(geo, run) {
      forall k | 0 <= k <= |run| ensures Consistent(geo, Exec(geo, run[..k])) {
        HarmlessPrefix(geo, run, k);
        RunKeepsConsistency(geo, run[..k]);
      }
    } else {
      var k :| 0 <= k < |run| && !Harmless(geo, Exec(geo, run[..k]), run[k]);
      if Consistent(geo, Exec(geo, run[..k])) {
        StepKeepsConsistencyIff(geo, Exec(geo, run[..k]), run[k]);
        ExecNext(geo, run, k);
        assert !Consistent(geo, Exec(geo, run[..k + 1]));
      }
    }
  }

  lemma ExecNext(geo: Geometry, run: seq<Request>, k: nat)
    requires k < |run|
    ensures Exec(geo, run[..k + 1]) == Step(geo, Exec(geo, run[..k]), run[k])
  {
    hide Step;
    assert run[..k + 1][..k] == run[..k];
  }

  // ----- Runs that are harmless by their spelling -----

  /** The spelling matters only where a text is filed or cleared. */
  predicate Spelled(r: Request) {
    match r
    case AddFavourite(_, path) => Plain(path)
    case Send(_, path, _, _) => Plain(path)
    case DeleteVenue(_, path) => Plain(path)
    case Patch(_, path, tier, _, _, _) => tier.Some? ==> Plain(path)
    case _ => true
  }

  ghost predicate AllSpelled(run: seq<Request>) {
    forall k :: 0 <= k < |run| ==> Spelled(run[k])
  }

  ghost predicate VersionsUpTo(a: Accounts, n: nat) {
    forall id :: id in a.users ==> a.users[id].tokenVersion <= n
  }

  lemma VersionsGrowByOne(geo: Geometry, s: Social, r: Request, n: nat)
    requires VersionsUpTo(s.accounts, n)
    ensures VersionsUpTo(Step(geo, s, r).accounts, n + 1)
  {
    hide ParseId, AcceptedByGateway, AdminExists, MakeToken, LoginToken, GateOpen;
    if r.RangeSync? && ParseId(r.user).Some? {
      SyncedFrame(geo, s, r.user, TierOf(s.accounts, ParseId(r.user).value), r.at, r.sightings);
    }
  }

  /** In every state of every run: accounts are sound, and a version counts at most the requests. */
  lemma {:induction false} AccountsOfRun(geo: Geometry, run: seq<Request>)
    ensures Sound(Exec(geo, run).accounts) && VersionsUpTo(Exec(geo, run).accounts, |run|)
  {
    if run != [] {
      hide Step, Sound;
      var before := run[..|run| - 1];
      AccountsOfRun(geo, before);
      AccountsStep(geo, Exec(geo, before), run[|run| - 1]);
      VersionsGrowByOne(geo, Exec(geo, before), run[|run| - 1], |before|);
    }
  }

  lemma SpelledIsHarmless(geo: Geometry, s: Social, r: Request, n: nat)
    requires Spelled(r) && Sound(s.accounts) && VersionsUpTo(s.accounts, n) && n < I32_MAX
    ensures Harmless(geo, s, r)
  {
    hide Sound, ParseId, GateOpen;
    if r.Patch? && PatchAllowed(s.accounts, r.tok, r.path, r.tier, r.role, r.guard) {
      Fits(s.accounts, ParseId(r.path).value);
    }
  }

  lemma Fits(a: Accounts, id: Id)
    requires Sound(a) && id in a.users
    ensures UserFits(a, id)
  {
  }

  /** A run is harmless if its paths are plainly spelled and it is too short to outgrow a 32-bit
      version. */
  lemma SpelledRunIsHarmless(geo: Geometry, run: seq<Request>)
    requires AllSpelled(run) && |run| <= I32_MAX
    ensures AllHarmless(geo, run)
  {
    hide Exec, Harmless, Sound;
    forall k | 0 <= k < |run| ensures Harmless(geo, Exec(geo, run[..k]), run[k]) {
      AccountsOfRun(geo, run[..k]);
      SpelledIsHarmless(geo, Exec(geo, run[..k]), run[k], k);
    }
  }
}
