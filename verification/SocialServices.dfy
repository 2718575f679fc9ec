/** The handlers as the services run them: staged checks with early returns, documents changed in
    place, loops over sightings and venues. Each is proved against the step it takes. */
module SocialServices {
  import opened Grid
  import opened LocationStore
  import opened Accounts
  import opened Social
  import opened SocialRuns
  import opened SocialSafety
  import opened MessageGate
  import opened AccountHistory
  import opened DocumentHistory

  /** Removing venues one at a time, each under its own id, is removing them at once. */
  lemma VenuesGoneTogether(s: Social, gone: set<Id>, v: Id)
    ensures VenuesGone(VenuesGone(s, gone, gone), {v}, {v}) == VenuesGone(s, gone + {v}, gone + {v})
  {
  }

  lemma VenuesGoneNone(s: Social)
    ensures VenuesGone(s, {}, {}) == s
  {
  }

  /** Asking for a second tier changes nothing about the first. */
  lemma LearntStays(radii: map<string, real>, tier: string, other: string, answers: map<string, real>)
    ensures var (one, both) := (Learnt(radii, tier, answers), Learnt(Learnt(radii, tier, answers), other, answers));
            (tier in one <==> tier in both) && (tier in one ==> both[tier] == one[tier])
    ensures Asked(Learnt(radii, tier, answers), other, answers) == Asked(radii, other, answers)
  {
  }

  class Services {
    const geo: Geometry
    var accounts: Accounts
    var favourites: map<Pair, Favourite>
    var blocks: set<Pair>
    var messages: set<Message>
    var radiusCache: map<string, real>
    ghost var decisions: map<Pair, Decision>

    ghost function Contents(): Social
      reads this
    {
      Social(accounts, favourites, blocks, messages, radiusCache, decisions)
    }

    constructor (geo: Geometry)
      ensures this.geo == geo && Contents() == NOTHING
    {
      this.geo := geo;
      accounts := Accounts(map[], {}, {});
      favourites, blocks, messages, radiusCache, decisions := map[], {}, {}, map[], map[];
    }

    // ----- Favourites -----

    /** 404 for a path that names nobody, 409 for a favourite already there. */
    method PostFavourite(tok: Token, path: string) returns (status: nat)
      requires AcceptedByGateway(accounts, tok)
      modifies this`favourites
      ensures Contents() == FavouriteAdded(old(Contents()), tok, path)
      ensures status == 201 <==> Contents() != old(Contents())
      ensures status == 201 <==> NamesAnother(old(Contents()), tok, path) && Pair(tok.sub, path) !in old(favourites)
      ensures favourites == if status == 201 then old(favourites)[Pair(tok.sub, path) := Favourite(None)]
                            else old(favourites)
      ensures status == 409 <==>
                tok.sub != path && NamesUser(Contents(), path) && Pair(tok.sub, path) in old(favourites)
      ensures status == 404 <==> tok.sub != path && ParseId(path).Some? && !NamesUser(Contents(), path)
    {
      if tok.sub == path {
        return 400;
      }
      var id := ParseId(path);
      if id.None? {
        return 400;
      }
      if id.value !in accounts.users {
        return 404;
      }
      if Pair(tok.sub, path) in favourites {
        return 409;
      }
      favourites := favourites[Pair(tok.sub, path) := Favourite(None)];
      assert Pair(tok.sub, path) in favourites;
      return 201;
    }

    method DeleteFavourite(tok: Token, path: string) returns (status: nat)
      requires AcceptedByGateway(accounts, tok)
      modifies this`favourites
      ensures Contents() == FavouriteRemoved(old(Contents()), tok, path)
      ensures favourites == old(favourites) - {Pair(tok.sub, path)}
      ensures status == 200 <==> Contents() != old(Contents())
    {
      if Pair(tok.sub, path) !in favourites {
        assert favourites - {Pair(tok.sub, path)} == favourites;
        return 404;
      }
      favourites := favourites - {Pair(tok.sub, path)};
      return 200;
    }

    /** Looks in the cache first and fills it with an answer, for good. */
    method GetMessageRadius(tier: string, answers: map<string, real>) returns (radius: Option<real>)
      modifies this`radiusCache
      ensures radiusCache == Learnt(old(radiusCache), tier, answers)
      ensures radius == if tier in radiusCache then Some(radiusCache[tier]) else None
      ensures radius == Asked(old(radiusCache), tier, answers)
      ensures radiusCache == if radius.Some? then old(radiusCache)[tier := radius.value] else old(radiusCache)
    {
      if tier in radiusCache {
        return Some(radiusCache[tier]);
      }
      if !SafeTier(tier) || tier !in answers {
        return None;
      }
      radiusCache := radiusCache[tier := answers[tier]];
      return Some(answers[tier]);
    }

    method UpdateFlag(from: Id, to: Id, verdict: bool)
      modifies this`favourites
      ensures favourites == Flag(old(favourites), Pair(from, to), verdict)
    {
      if Pair(from, to) in favourites {
        favourites := favourites[Pair(from, to) := Favourite(Some(verdict))];
      }
    }

    /** Writes the verdict to both directions that exist. */
    method Record(d: Decision)
      modifies this`favourites, this`decisions
      ensures Contents() == Recorded(old(Contents()), d)
    {
      UpdateFlag(d.user, d.other, d.verdict);
      UpdateFlag(d.other, d.user, d.verdict);
      decisions := decisions[Pair(d.user, d.other) := d][Pair(d.other, d.user) := d];
    }

    /** Asks for both radii, decides, and writes both directions; `false` for a pair passed over. */
    method SyncPair(user: Id, tier: string, at: Point, l: Sighting) returns (decided: bool)
      modifies this`favourites, this`radiusCache, this`decisions
      ensures Contents() == SyncedOne(geo, old(Contents()), user, tier, at, l)
      ensures decided == Decides(old(Contents()), user, tier, l)
      ensures decided <==>
                && (Pair(user, l.user) in old(favourites) || Pair(l.user, user) in old(favourites))
                && Asked(old(radiusCache), tier, l.answers).Some?
                && Asked(old(radiusCache), TierOf(accounts, l.user), l.answers).Some?
    {
      hide Recorded, Learnt, Asked, SafeTier, WithinBoth;
      LearntStays(radiusCache, tier, TierOf(accounts, l.user), l.answers);
      if Pair(user, l.user) !in favourites && Pair(l.user, user) !in favourites {
        return false;
      }
      var otherTier := if l.user in accounts.users then accounts.users[l.user].tier else "regular";
      var a := GetMessageRadius(tier, l.answers);
      var b := GetMessageRadius(otherTier, l.answers);
      if a.None? || b.None? {
        return false;
      }
      var dist := geo.dist(at, l.at);
      var within := (a.value == UNLIMITED || dist <= a.value) && (b.value == UNLIMITED || dist <= b.value);
      Record(Decision(user, l.user, at, l.at, tier, otherTier, within));
      return true;
    }

    method PostRangeSync(user: string, at: Point, sightings: seq<Sighting>) returns (updated: nat)
      modifies this`favourites, this`radiusCache, this`decisions
      ensures Contents() == RangeSynced(geo, old(Contents()), user, at, sightings)
      ensures updated == if ParseId(user).None? then 0
                         else DecidedCount(geo, old(Contents()), user, TierOf(accounts, ParseId(user).value), at,
                             sightings)
    {
      hide ParseId, SyncedOne, Decides;
      var id := ParseId(user);
      if id.None? {
        return 0;
      }
      var tier := if id.value in accounts.users then accounts.users[id.value].tier else "regular";
      updated := 0;
      var i := 0;
      while i < |sightings|
        invariant i <= |sightings| && accounts == old(accounts)
        invariant Contents() == SyncedAll(geo, old(Contents()), user, tier, at, sightings[..i])
        invariant updated == DecidedCount(geo, old(Contents()), user, tier, at, sightings[..i])
      {
        assert sightings[..i + 1][..i] == sightings[..i];
        var decided := SyncPair(user, tier, at, sightings[i]);
        if decided {
          updated := updated + 1;
        }
        i := i + 1;
      }
      assert sightings[..|sightings|] == sightings;
    }

    // ----- Accounts -----

    /** The admin's combined patch: tier, role or both; the favourites lose their flag only if a tier
        was given, and an admin who patched their own account gets a fresh token. */
    method AdminPatchUser(tok: Token, path: string, tier: Option<string>, role: Option<string>, guard: bool)
      returns (status: nat, token: Option<Token>)
      requires VerifiedByExtractor(accounts, tok)
      modifies this`accounts, this`favourites
      ensures Contents() == AdminPatched(old(Contents()), tok, path, tier, role, guard, true)
      ensures status == 200 ==> PatchAllowed(old(accounts), tok, path, tier, role, guard)
      ensures status == 200 <==>
                && ParseId(path).Some?
                && PatchReaches(old(accounts), tok, path, tier, role, guard, ParseId(path).value)
                && Readable(old(accounts).users[ParseId(path).value].tokenVersion + 1)
      ensures status == 200 ==>
                var id := ParseId(path).value;
                var (was, u) := (old(accounts).users[id], accounts.users[id]);
                && accounts.users == old(accounts).users[id := u]
                && u.tier == (if tier.Some? then tier.value else was.tier)
                && u.role == (if role.Some? then role else was.role)
                && u.tokenVersion == was.tokenVersion + 1 && u.venue == was.venue && u.manager == was.manager
      ensures token.Some? <==> status == 200 && tok.sub == path
      ensures Sound(old(accounts)) && token.Some? ==> GoodFor(accounts, token.value, ParseId(path).value)
      ensures status == 404 <==>
                && tok.role == "admin" && !(guard && tok.sub == path) && ParseId(path).Some?
                && (tier.Some? || role.Some?)
                && (tier.Some? ==> ValidTierName(tier.value)) && (role.Some? ==> role.value in VALID_USER_ROLES)
                && ParseId(path).value !in accounts.users
      ensures token.Some? ==>
                && status == 200 && tok.sub == path && token.value in accounts.issued
                && Some(token.value.sub) == ParseId(path)
    {
      hide ParseId, SanitizeRole, PatchReaches, Sound, GoodFor, VerifiedByExtractor;
      if ParseId(path).Some? {
        PatchReachesIff(accounts, tok, path, tier, role, guard, ParseId(path).value);
      }
      if Sound(accounts) {
        SelfPatchRenews(accounts, tok, path, tier, role, guard);
      }
      token := None;
      if tok.role != "admin" || (guard && tok.sub == path) {
        return 403, None;
      }
      var id := ParseId(path);
      if id.None? {
        return 400, None;
      }
      if tier.Some? && (tier.value == "" || |tier.value| > 64) {
        return 400, None;
      }
      if role.Some? && role.value !in VALID_USER_ROLES {
        return 400, None;
      }
      if tier.None? && role.None? {
        return 400, None;
      }
      if id.value !in accounts.users {
        return 404, None;
      }
      var was := accounts.users[id.value];
      var u := was.(tier := if tier.Some? then tier.value else was.tier,
                    role := if role.Some? then role else was.role,
                    tokenVersion := was.tokenVersion + 1);
      assert u == PatchedUser(was, tier, role);
      accounts := Changed(accounts, id.value, u, {});
      if !Readable(u.tokenVersion) {
        return 500, None;
      }
      if tier.Some? {
        favourites := Unflagged(favourites, path);
      }
      if tok.sub == path {
        token := Some(MakeToken(id.value, u));
        accounts := accounts.(issued := accounts.issued + {token.value});
      }
      status := 200;
    }

    /** The version moves up first; the token is made from the document read back. */
    method PasswordFinish(tok: Token) returns (token: Option<Token>)
      requires AcceptedAsRegistered(accounts, tok)
      modifies this`accounts
      ensures accounts == PasswordChanged(old(accounts), tok)
      ensures token.Some? ==> token.value in accounts.issued
      ensures token.Some? <==> Readable(old(accounts).users[tok.sub].tokenVersion + 1)
      ensures Sound(old(accounts)) && token.Some? ==> GoodFor(accounts, token.value, tok.sub)
      ensures Sound(old(accounts)) ==>
                forall earlier :: earlier in old(accounts).issued && earlier.sub == tok.sub ==>
                  Revoked(accounts, earlier)
    {
      hide MakeToken, Sound, GoodFor, Revoked;
      if Sound(accounts) {
        ghost var renewed := PasswordChangeRenews(geo, Contents(), tok);
      }
      var u := accounts.users[tok.sub].(tokenVersion := accounts.users[tok.sub].tokenVersion + 1);
      accounts := Changed(accounts, tok.sub, u, {});
      if !Readable(u.tokenVersion) {
        return None;
      }
      token := Some(MakeToken(tok.sub, u));
      accounts := accounts.(issued := accounts.issued + {token.value});
    }

    // ----- Deletions -----

    method CascadeDeleteVenue(path: string)
      modifies this`accounts, this`favourites, this`blocks, this`messages
      ensures Contents() == if ParseId(path).None? then old(Contents())
                            else VenuesGone(old(Contents()), {ParseId(path).value}, {path})
    {
      var id := ParseId(path);
      if id.None? {
        return;
      }
      messages := set m | m in messages && m.from != path && m.to != path;
      favourites := map p | p in favourites && p.from != path && p.to != path :: favourites[p];
      blocks := set p | p in blocks && p.from != path && p.to != path;
      accounts := UsersDeleted(accounts, {id.value});
    }

    /** A manager's venues go one by one before the manager does. */
    method DeleteMe(tok: Token)
      requires Sound(accounts) && AcceptedAsRegistered(accounts, tok)
      modifies this`accounts, this`favourites, this`blocks, this`messages
      ensures Contents() == MeDeleted(old(Contents()), tok)
      ensures forall d :: Present(Contents(), d) <==>
                Present(old(Contents()), d) && !Takes(old(Contents()), Request.DeleteMe(tok), d)
    {
      hide ParseId, VenuesGone, Sound, AcceptedAsRegistered;
      ghost var s := Contents();
      if tok.role == "venue_manager" {
        var venues := set v | v in accounts.users && accounts.users[v].venue && accounts.users[v].manager == tok.sub;
        assert venues == VenuesOf(s, tok.sub);
        var todo := venues;
        VenuesGoneNone(s);
        assert venues - todo == {};
        while todo != {}
          invariant todo <= venues
          invariant Contents() == VenuesGone(s, venues - todo, venues - todo)
        {
          var v :| v in todo;
          UsersAreCanonical(s.accounts, v);
          CascadeDeleteVenue(v);
          VenuesGoneTogether(s, venues - todo, v);
          assert venues - todo + {v} == venues - (todo - {v});
          todo := todo - {v};
        }
        assert venues - todo == venues;
      }
      accounts := UsersDeleted(accounts, {tok.sub});
      messages := MessagesWithout(messages, {tok.sub});
      favourites := FavouritesWithout(favourites, {tok.sub});
      forall d ensures Present(Contents(), d) <==> Present(s, d) && !Takes(s, Request.DeleteMe(tok), d) {
        PresentAfterStepIff(geo, s, Request.DeleteMe(tok), d);
      }
    }

    // ----- Messages -----

    /** The staged checks of a send: the first that fails decides the status, and only a send that
        passes them all stores anything. */
    method SendMessage(tok: Token, path: string, id: Id, c: SendContext) returns (status: nat)
      requires AcceptedByGateway(accounts, tok)
      modifies this`messages
      ensures Contents() == Sent(geo, old(Contents()), tok, path, id, c)
      ensures status == 201 <==> SendAllowed(geo, old(Contents()), tok, path, c)
      ensures status == 201 <==> Delivers(geo, old(Contents()), tok, path, c)
      ensures messages == old(messages) + (if status == 201 then {Message(id, tok.sub, path)} else {})
      ensures status == 429 <==> !c.rateOk
      ensures status == 404 <==> c.rateOk && c.textOk && ParseId(path).Some? && !NamesUser(Contents(), path)
      ensures tok.sub != path && Blocked(blocks, tok.sub, path) && c.rateOk && c.textOk && NamesUser(Contents(), path)
              ==> status == 403
    {
      hide ParseId, VerifiedByAuthority, Delivers;
      DeliversIff(geo, Contents(), tok, path, c);
      if !c.rateOk {
        return 429;
      }
      if !c.textOk {
        return 400;
      }
      var to := ParseId(path);
      if to.None? {
        return 400;
      }
      if to.value !in accounts.users {
        return 404;
      }
      if tok.sub == path {
        messages := messages + {Message(id, tok.sub, path)};
        return 201;
      }
      if Pair(tok.sub, path) in blocks || Pair(path, tok.sub) in blocks {
        return 403;
      }
      if !c.favouritesUp {
        return 503;
      }
      if Pair(tok.sub, to.value) !in favourites || Pair(to.value, tok.sub) !in favourites {
        return 403;
      }
      if c.senderAt.None? {
        return 403;
      }
      if c.recipientAt.Some? {
        var recipientTier := accounts.users[to.value].tier;
        if !SafeTier(tok.tier) || !SafeTier(recipientTier) {
          return 400;
        }
        if tok.tier !in c.answers || recipientTier !in c.answers {
          return 503;
        }
        var dist := geo.dist(c.senderAt.value, c.recipientAt.value);
        var senderOk := c.answers[tok.tier] == UNLIMITED || dist <= c.answers[tok.tier];
        var recipientOk := c.answers[recipientTier] == UNLIMITED || dist <= c.answers[recipientTier];
        if !senderOk || !recipientOk {
          return 403;
        }
      } else if favourites[Pair(tok.sub, to.value)].withinRange != Some(true) {
        return 403;
      }
      messages := messages + {Message(id, tok.sub, path)};
      return 201;
    }
  }
}
