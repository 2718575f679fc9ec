/** Safety over whole runs of the handlers: what an accepted token is worth, when a revoked one
    stays revoked, and where a range-sync's verdict ends up. */
module SocialSafety {
  import opened Grid
  import opened LocationStore
  import opened Accounts
  import opened Social
  import opened SocialRuns

  // ----- Tokens -----

  /** The accounts only ever advance along a run. */
  lemma {:induction false} AccountsAdvance(geo: Geometry, run: seq<Request>, i: nat)
    requires i <= |run|
    ensures Advances(Exec(geo, run[..i]).accounts, Exec(geo, run).accounts)
    decreases |run|
  {
    if i == |run| {
      assert run[..i] == run;
    } else {
      hide Step, Sound;
      var before := run[..|run| - 1];
      AccountsAdvance(geo, before, i);
      assert before[..i] == run[..i];
      AccountsOfRun(geo, before);
      AccountsStep(geo, Exec(geo, before), run[|run| - 1]);
      hide Advances;
      AdvancesOn(Exec(geo, run[..i]).accounts, Exec(geo, before).accounts, Exec(geo, run).accounts);
    }
  }

  /** After every run, a registered token that either check accepts, outgrown ones aside, carries the
      stored role and, for a tier logins know, the stored tier. */
  lemma AcceptedAfterRun(geo: Geometry, run: seq<Request>, tok: Token)
    requires RegisteredRole(tok.role)
    requires var a := Exec(geo, run).accounts;
             VerifiedByExtractor(a, tok) || (VerifiedByAuthority(a, tok) && !Outgrown(a, tok))
    ensures var a := Exec(geo, run).accounts;
            && tok.sub in a.users && a.users[tok.sub].role == Some(tok.role)
            && (a.users[tok.sub].tier in VALID_USER_TIERS ==> tok.tier == a.users[tok.sub].tier)
            && (tok.tier == a.users[tok.sub].tier || tok.tier == "regular")
  {
    hide Exec, Sound, VerifiedByAuthority, VerifiedByExtractor;
    var a := Exec(geo, run).accounts;
    AccountsOfRun(geo, run);
    ChecksAgreeIff(a, tok);
    AcceptedIsCurrent(a, tok);
  }

  /** It takes more than 2^31 - 1 requests to outgrow a token. */
  lemma ShortRunsOutgrowNothing(geo: Geometry, run: seq<Request>, tok: Token)
    requires |run| <= I32_MAX
    ensures !Outgrown(Exec(geo, run).accounts, tok)
  {
    hide Exec, Sound;
    AccountsOfRun(geo, run);
  }

  /** The requests that outrun a user's tokens: a password change, an effective admin patch or
      bootstrap, and the user's own deletion. */
  predicate Outruns(s: Social, r: Request, id: Id) {
    match r
    case ChangePassword(tok) => AcceptedAsRegistered(s.accounts, tok) && tok.sub == id
    case Patch(tok, path, tier, role, guard, _) => PatchAllowed(s.accounts, tok, path, tier, role, guard) &&
        ParseId(path).value == id
    case Bootstrap(path) => ParseId(path) == Some(id) && !AdminExists(s.accounts) && id in s.accounts.users
    case DeleteMe(tok) => AcceptedAsRegistered(s.accounts, tok) && tok.sub == id
    case _ => false
  }

  /** A user who is no venue keeps account and version over exactly the steps that do not outrun
      their tokens; over those, the version moves up by one or the account goes. */
  lemma OutrunIff(geo: Geometry, s: Social, r: Request, id: Id)
    requires id in s.accounts.users && !s.accounts.users[id].venue && id in s.accounts.used
    ensures var users := Step(geo, s, r).accounts.users;
            if Outruns(s, r, id) then id !in users || users[id].tokenVersion == s.accounts.users[id].tokenVersion + 1
            else id in users && users[id].tokenVersion == s.accounts.users[id].tokenVersion
  {
    hide ParseId, AcceptedByGateway, AdminExists, MakeToken, LoginToken, GateOpen;
    if r.RangeSync? && ParseId(r.user).Some? {
      SyncedFrame(geo, s, r.user, TierOf(s.accounts, ParseId(r.user).value), r.at, r.sightings);
    }
  }

  /** A token issued before such a step is never accepted again, whatever follows, but by the central
      check once it is outgrown. */
  lemma OutrunForGood(geo: Geometry, run: seq<Request>, i: nat, j: nat, tok: Token)
    requires i < j <= |run|
    requires tok in Exec(geo, run[..i]).accounts.issued && Outruns(Exec(geo, run[..i]), run[i], tok.sub)
    ensures var a := Exec(geo, run[..j]).accounts;
            && !VerifiedByExtractor(a, tok) && !VerifiedForTierAdmin(a, tok)
            && (VerifiedByAuthority(a, tok) <==> Outgrown(a, tok))
  {
    hide Step, Sound, VerifiedByAuthority, VerifiedByExtractor, VerifiedForTierAdmin;
    var (s, t, u) := (Exec(geo, run[..i]), Exec(geo, run[..i + 1]), Exec(geo, run[..j]));
    ExecNext(geo, run, i);
    AccountsOfRun(geo, run[..i]);
    AccountsOfRun(geo, run[..j]);
    AccountsStep(geo, s, run[i]);
    TokenOwner(s.accounts, tok);
    if tok.sub in s.accounts.users {
      OutrunIff(geo, s, run[i], tok.sub);
    }
    BumpRevokes(s.accounts, t.accounts, tok);
    AccountsAdvance(geo, run[..j], i + 1);
    assert run[..j][..i + 1] == run[..i + 1];
    RevokedStays(t.accounts, u.accounts, tok);
    RevokedIsRefused(u.accounts, tok);
  }

  lemma TokenOwner(a: Accounts, tok: Token)
    requires Sound(a) && tok in a.issued
    ensures RegisteredRole(tok.role) && tok.sub in a.used
    ensures tok.sub in a.users ==> !a.users[tok.sub].venue
  {
  }

  // ----- Range-sync -----

  predicate About(p: Pair, user: Id, l: Sighting) {
    p == Pair(user, l.user) || p == Pair(l.user, user)
  }

  /** A range-sync touches only favourites between the pusher and someone sighted. */
  lemma {:induction false} SyncLeavesOthers(geo: Geometry, s: Social, user: Id, tier: string, at: Point,
                                            ls: seq<Sighting>, p: Pair)
    requires p in s.favourites && forall l :: l in ls ==> !About(p, user, l)
    ensures var t := SyncedAll(geo, s, user, tier, at, ls); p in t.favourites && t.favourites[p] == s.favourites[p]
    decreases |ls|
  {
    hide InRadius, SafeTier, Verdict, Learnt;
    if ls != [] {
      SyncLeavesOthers(geo, s, user, tier, at, ls[..|ls| - 1], p);
      assert !About(p, user, ls[|ls| - 1]);
    }
  }

  lemma SyncOneSets(geo: Geometry, s: Social, user: Id, tier: string, at: Point, l: Sighting, p: Pair)
    requires p in s.favourites && About(p, user, l)
    ensures var (t, otherTier) := (SyncedOne(geo, s, user, tier, at, l), TierOf(s.accounts, l.user));
            && p in t.favourites
            && t.favourites[p] == (if tier in t.radii && otherTier in t.radii
                                   then Favourite(Some(WithinBoth(geo, t.radii, at, l.at, tier, otherTier)))
                                   else s.favourites[p])
  {
  }

  /** What asking for a tier's radius gives: the cached one, or else an answer for a tier that can be asked
      for. */
  function Asked(radii: map<string, real>, tier: string, answers: map<string, real>): Option<real> {
    if tier in radii then Some(radii[tier])
    else if SafeTier(tier) && tier in answers then Some(answers[tier])
    else None
  }

  /** One pass: a favourite between the two gets the flag exactly if both radii are had, and it says
      whether neither is shorter than the distance; what was asked is kept in the cache. */
  lemma SyncOneExactly(geo: Geometry, s: Social, user: Id, tier: string, at: Point, l: Sighting, p: Pair)
    requires p in s.favourites && About(p, user, l)
    ensures var (t, dist) := (SyncedOne(geo, s, user, tier, at, l), geo.dist(at, l.at));
            var otherTier := TierOf(s.accounts, l.user);
            var (mine, theirs) := (Asked(s.radii, tier, l.answers), Asked(s.radii, otherTier, l.answers));
            && p in t.favourites
            && t.favourites[p] == (if mine.Some? && theirs.Some?
                                   then Favourite(Some((mine.value == -1.0 || dist <= mine.value) &&
                                                       (theirs.value == -1.0 || dist <= theirs.value)))
                                   else s.favourites[p])
            && (forall other :: other in t.radii <==>
                  other in s.radii || ((other == tier || other == otherTier) && Asked(s.radii, other, l.answers).Some?))
            && (forall other :: other in t.radii ==> Asked(s.radii, other, l.answers) == Some(t.radii[other]))
  {
    hide SafeTier;
  }

  lemma SyncOneLeaves(geo: Geometry, s: Social, user: Id, tier: string, at: Point, l: Sighting, p: Pair)
    requires p in s.favourites && !About(p, user, l)
    ensures var t := SyncedOne(geo, s, user, tier, at, l);
            && p in t.favourites && t.favourites[p] == s.favourites[p] && t.accounts == s.accounts
            && forall tier :: tier in s.radii ==> tier in t.radii && t.radii[tier] == s.radii[tier]
  {
    hide InRadius, SafeTier, Verdict;
  }

  /** With one sighting a user, the favourites between the pusher and a sighted user, whichever exist,
      all end up with the verdict under the final cache, or all untouched if a radius was missing
      when their turn came. */
  lemma {:induction false} SyncSetsFlags(geo: Geometry, s: Social, user: Id, tier: string, at: Point,
                                         ls: seq<Sighting>, i: nat, p: Pair)
    requires forall j, k :: 0 <= j < k < |ls| ==> ls[j].user != ls[k].user
    requires i < |ls| && p in s.favourites && About(p, user, ls[i])
    ensures var (t, turn) := (SyncedAll(geo, s, user, tier, at, ls), SyncedAll(geo, s, user, tier, at, ls[..i + 1]));
            var otherTier := TierOf(s.accounts, ls[i].user);
            && p in t.favourites
            && (tier in turn.radii && otherTier in turn.radii ==> tier in t.radii && otherTier in t.radii)
            && t.favourites[p] == (if tier in turn.radii && otherTier in turn.radii
                                   then Favourite(Some(WithinBoth(geo, t.radii, at, ls[i].at, tier, otherTier)))
                                   else s.favourites[p])
    decreases |ls|
  {
    hide SyncedAll, SyncedOne;
    var last := |ls| - 1;
    var before := ls[..last];
    var t := SyncedAll(geo, s, user, tier, at, before);
    SyncedFrame(geo, s, user, tier, at, before);
    SyncedLast(geo, s, user, tier, at, ls);
    if i == last {
      assert ls[..i + 1] == ls;
      SyncLeavesEarlier(geo, s, user, tier, at, before, ls[last], p);
      SyncOneSets(geo, t, user, tier, at, ls[last], p);
    } else {
      SyncSetsFlags(geo, s, user, tier, at, before, i, p);
      assert before[..i + 1] == ls[..i + 1];
      SyncOneLeaves(geo, t, user, tier, at, ls[last], p);
    }
  }

  lemma SyncedLast(geo: Geometry, s: Social, user: Id, tier: string, at: Point, ls: seq<Sighting>)
    requires ls != []
    ensures SyncedAll(geo, s, user, tier, at, ls) ==
            SyncedOne(geo, SyncedAll(geo, s, user, tier, at, ls[..|ls| - 1]), user, tier, at, ls[|ls| - 1])
  {
  }

  lemma SyncLeavesEarlier(geo: Geometry, s: Social, user: Id, tier: string, at: Point, before: seq<Sighting>,
                          l: Sighting, p: Pair)
    requires p in s.favourites && About(p, user, l) && forall k :: 0 <= k < |before| ==> before[k].user != l.user
    ensures var t := SyncedAll(geo, s, user, tier, at, before); p in t.favourites && t.favourites[p] == s.favourites[p]
  {
    forall l' | l' in before ensures !About(p, user, l') {}
    SyncLeavesOthers(geo, s, user, tier, at, before, p);
  }

  /** The decision was taken by the k-th request, a range-sync of one of the two users that sighted
      the other. */
  ghost predicate TakenAt(run: seq<Request>, k: nat, d: Decision) {
    && k < |run| && run[k].RangeSync? && run[k].user == d.user && run[k].at == d.userAt
    && exists l :: l in run[k].sightings && l.user == d.other && l.at == d.otherAt
  }

  lemma {:induction false} DecisionsOfSync(geo: Geometry, s: Social, user: Id, tier: string, at: Point,
                                           ls: seq<Sighting>, p: Pair)
    requires var t := SyncedAll(geo, s, user, tier, at, ls);
             p in t.decisions && !(p in s.decisions && t.decisions[p] == s.decisions[p])
    ensures var d := SyncedAll(geo, s, user, tier, at, ls).decisions[p];
            d.user == user && d.userAt == at && exists l :: l in ls && l.user == d.other && l.at == d.otherAt
    decreases |ls|
  {
    hide InRadius, SafeTier, Verdict, Learnt, Flag;
    if ls != [] {
      var before := ls[..|ls| - 1];
      var (t, u) := (SyncedAll(geo, s, user, tier, at, before), SyncedAll(geo, s, user, tier, at, ls));
      if p in t.decisions && u.decisions[p] == t.decisions[p] {
        DecisionsOfSync(geo, s, user, tier, at, before, p);
        var d := t.decisions[p];
        var l :| l in before && l.user == d.other && l.at == d.otherAt;
        assert l in ls;
      } else {
        assert ls[|ls| - 1] in ls;
      }
    }
  }

  /** Every decision kept was taken by some range-sync of the run. */
  lemma {:induction false} DecisionsOfRun(geo: Geometry, run: seq<Request>, p: Pair)
    requires p in Exec(geo, run).decisions
    ensures exists k: nat :: TakenAt(run, k, Exec(geo, run).decisions[p])
  {
    if run != [] {
      var last := |run| - 1;
      var (s, r) := (Exec(geo, run[..last]), run[last]);
      var d := Exec(geo, run).decisions[p];
      if p in s.decisions && s.decisions[p] == d {
        hide Exec;
        DecisionsOfRun(geo, run[..last], p);
        var k: nat :| TakenAt(run[..last], k, d);
        assert TakenAt(run, k, d);
      } else {
        hide AcceptedByGateway, AcceptedAsRegistered, PatchAllowed, Patched, SendAllowed, SyncedAll, ParseId, NamesUser,
            Exec;
        DecisionsOfSync(geo, s, r.user, TierOf(s.accounts, ParseId(r.user).value), r.at, r.sightings, p);
        assert TakenAt(run, last, d);
      }
    }
  }
}
