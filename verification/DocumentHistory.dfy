/** Which users, favourites, blocks and messages there are: over one step exactly what the request put
    there or left, and after a run exactly what some request put there and no later one took away. */
module DocumentHistory {
  import opened Grid
  import opened LocationStore
  import opened Accounts
  import opened Social
  import opened SocialRuns
  import opened SocialSafety
  import opened MessageGate
  import opened AccountHistory

  datatype Document = UserDoc(id: Id) | FavouriteDoc(pair: Pair) | BlockDoc(pair: Pair) | MessageDoc(message: Message)

  predicate Present(s: Social, d: Document) {
    match d
    case UserDoc(id) => id in s.accounts.users
    case FavouriteDoc(p) => p in s.favourites
    case BlockDoc(p) => p in s.blocks
    case MessageDoc(m) => m in s.messages
  }

  /** The path names a user that exists and is not the caller's own id. */
  predicate NamesAnother(s: Social, tok: Token, path: string) {
    tok.sub != path && ParseId(path).Some? && ParseId(path).value in s.accounts.users
  }

  /** The one document a request makes: an account or a venue under an id never used before, or what
      the caller owns towards the path's text. */
  predicate Puts(geo: Geometry, s: Social, r: Request, d: Document) {
    match r
    case Register(id) => d == UserDoc(id) && Canonical(id) && id !in s.accounts.used
    case CreateVenue(tok, id) =>
      && d == UserDoc(id) && Canonical(id) && id !in s.accounts.used
      && AcceptedAsRegistered(s.accounts, tok) && tok.role == "venue_manager"
    case AddFavourite(tok, path) =>
      && d == FavouriteDoc(Pair(tok.sub, path)) && !Present(s, d)
      && AcceptedByGateway(s.accounts, tok) && NamesAnother(s, tok, path)
    case Block(tok, path) =>
      d == BlockDoc(Pair(tok.sub, path)) && AcceptedByGateway(s.accounts, tok) && NamesAnother(s, tok, path)
    case Send(tok, path, id, c) => d == MessageDoc(Message(id, tok.sub, path)) && Delivers(geo, s, tok, path, c)
    case _ => false
  }

  /** Whether a send stores its message. */
  predicate Delivers(geo: Geometry, s: Social, tok: Token, path: string, c: SendContext) {
    && AcceptedByGateway(s.accounts, tok) && c.rateOk && c.textOk
    && ParseId(path).Some? && ParseId(path).value in s.accounts.users
    && (tok.sub == path || LetThrough(geo, s, tok, path, c))
  }

  predicate RunsVenue(s: Social, manager: Id, id: Id) {
    id in s.accounts.users && s.accounts.users[id].venue && s.accounts.users[id].manager == manager
  }

  /** The ids that go with an account: its own and, for a manager, the venues they run. */
  predicate GoesWith(s: Social, tok: Token, id: Id) {
    id == tok.sub || (tok.role == "venue_manager" && RunsVenue(s, tok.sub, id))
  }

  /** What a request takes away: its own kind of document from its owner, or with an account or a venue
      everything filed under its text; but a person's blocks stay. */
  predicate Takes(s: Social, r: Request, d: Document) {
    match r
    case RemoveFavourite(tok, path) => AcceptedByGateway(s.accounts, tok) && d == FavouriteDoc(Pair(tok.sub, path))
    case Unblock(tok, path) => AcceptedByGateway(s.accounts, tok) && d == BlockDoc(Pair(tok.sub, path))
    case DeleteMessage(tok, m) => AcceptedByGateway(s.accounts, tok) && m.from == tok.sub && d == MessageDoc(m)
    case DeleteVenue(tok, path) =>
      && AcceptedAsRegistered(s.accounts, tok) && tok.role == "venue_manager"
      && ParseId(path).Some? && RunsVenue(s, tok.sub, ParseId(path).value)
      && (match d
          case UserDoc(id) => id == ParseId(path).value
          case FavouriteDoc(p) => p.from == path || p.to == path
          case BlockDoc(p) => p.from == path || p.to == path
          case MessageDoc(m) => m.from == path || m.to == path)
    case DeleteMe(tok) =>
      && AcceptedAsRegistered(s.accounts, tok)
      && (match d
          case UserDoc(id) => GoesWith(s, tok, id)
          case FavouriteDoc(p) => GoesWith(s, tok, p.from) || GoesWith(s, tok, p.to)
          case MessageDoc(m) => GoesWith(s, tok, m.from) || GoesWith(s, tok, m.to)
          case BlockDoc(p) =>
            tok.role == "venue_manager" && (RunsVenue(s, tok.sub, p.from) || RunsVenue(s, tok.sub, p.to)))
    case _ => false
  }

  // ----- One step -----

  lemma UsersStepIff(geo: Geometry, s: Social, r: Request, id: Id)
    ensures id in Step(geo, s, r).accounts.users <==>
            Puts(geo, s, r, UserDoc(id)) || (id in s.accounts.users && !Takes(s, r, UserDoc(id)))
  {
    hide ParseId, AcceptedByGateway, AdminExists, MakeToken, LoginToken, GateOpen, LetThrough, PatchedUser;
    if r.RangeSync? && ParseId(r.user).Some? {
      SyncedFrame(geo, s, r.user, TierOf(s.accounts, ParseId(r.user).value), r.at, r.sightings);
    }
  }

  lemma FavouritesStepIff(geo: Geometry, s: Social, r: Request, p: Pair)
    ensures p in Step(geo, s, r).favourites <==>
            Puts(geo, s, r, FavouriteDoc(p)) || (p in s.favourites && !Takes(s, r, FavouriteDoc(p)))
  {
    hide ParseId, AcceptedByGateway, AcceptedAsRegistered, PatchAllowed, Patched, SendAllowed, LetThrough;
    if r.RangeSync? && ParseId(r.user).Some? {
      SyncedFrame(geo, s, r.user, TierOf(s.accounts, ParseId(r.user).value), r.at, r.sightings);
      assert p in Step(geo, s, r).favourites.Keys <==> p in s.favourites.Keys;
    }
  }

  lemma BlocksStepIff(geo: Geometry, s: Social, r: Request, p: Pair)
    ensures p in Step(geo, s, r).blocks <==>
            Puts(geo, s, r, BlockDoc(p)) || (p in s.blocks && !Takes(s, r, BlockDoc(p)))
  {
    hide ParseId, AcceptedByGateway, AcceptedAsRegistered, PatchAllowed, Patched, SendAllowed, LetThrough;
    if r.RangeSync? && ParseId(r.user).Some? {
      SyncedFrame(geo, s, r.user, TierOf(s.accounts, ParseId(r.user).value), r.at, r.sightings);
    }
  }

  lemma DeliversIff(geo: Geometry, s: Social, tok: Token, path: string, c: SendContext)
    ensures SendAllowed(geo, s, tok, path, c) <==> Delivers(geo, s, tok, path, c)
  {
    hide ParseId, AcceptedByGateway, SafeTier;
  }

  lemma MessagesStepIff(geo: Geometry, s: Social, r: Request, m: Message)
    ensures m in Step(geo, s, r).messages <==>
            Puts(geo, s, r, MessageDoc(m)) || (m in s.messages && !Takes(s, r, MessageDoc(m)))
  {
    hide ParseId, AcceptedByGateway, AcceptedAsRegistered, PatchAllowed, Patched, SendAllowed, Delivers;
    if r.RangeSync? && ParseId(r.user).Some? {
      SyncedFrame(geo, s, r.user, TierOf(s.accounts, ParseId(r.user).value), r.at, r.sightings);
    }
    if r.Send? {
      DeliversIff(geo, s, r.tok, r.path, r.context);
    }
  }

  /** After any request a document is there exactly if the request put it there, or it was there and the
      request did not take it away. */
  lemma PresentAfterStepIff(geo: Geometry, s: Social, r: Request, d: Document)
    ensures Present(Step(geo, s, r), d) <==> Puts(geo, s, r, d) || (Present(s, d) && !Takes(s, r, d))
  {
    hide Step, Puts, Takes;
    match d
    case UserDoc(id) => UsersStepIff(geo, s, r, id);
    case FavouriteDoc(p) => FavouritesStepIff(geo, s, r, p);
    case BlockDoc(p) => BlocksStepIff(geo, s, r, p);
    case MessageDoc(m) => MessagesStepIff(geo, s, r, m);
  }

  // ----- Flags -----

  /** An effective change of tier under a text the favourite is filed under. */
  predicate DropsFlag(a: Accounts, r: Request, p: Pair) {
    && r.Patch? && r.tier.Some? && (p.from == r.path || p.to == r.path) && ParseId(r.path).Some?
    && var id := ParseId(r.path).value;
    && PatchReaches(a, r.tok, r.path, r.tier, r.role, r.guard, id)
    && Readable(a.users[id].tokenVersion + 1)
  }

  /** What is left of a favourite when it is not a range-sync that comes: a new one has no flag, an
      effective change of tier drops the flag of those filed under the path's text unless the bumped
      version cannot be read back, and nothing else touches one. */
  lemma FlagAfterStep(geo: Geometry, s: Social, r: Request, p: Pair)
    requires p in Step(geo, s, r).favourites && !r.RangeSync?
    ensures Step(geo, s, r).favourites[p] ==
            if p !in s.favourites then Favourite(None)
            else if DropsFlag(s.accounts, r, p) then Favourite(None)
            else s.favourites[p]
  {
    hide ParseId, AcceptedByGateway, AcceptedAsRegistered, AcceptedAsAdmin, SendAllowed, MakeToken, PatchReaches;
    if r.Patch? && ParseId(r.path).Some? {
      PatchReachesIff(s.accounts, r.tok, r.path, r.tier, r.role, r.guard, ParseId(r.path).value);
    }
  }

  // ----- Whole runs -----

  /** The k-th request put the document there, and no later one took it away. */
  ghost predicate PutAndKept(geo: Geometry, run: seq<Request>, k: nat, d: Document) {
    && k < |run| && Puts(geo, Exec(geo, run[..k]), run[k], d)
    && forall j :: k < j < |run| ==> !Takes(Exec(geo, run[..j]), run[j], d)
  }

  lemma {:induction false} PresentWasPut(geo: Geometry, run: seq<Request>, d: Document)
    requires Present(Exec(geo, run), d)
    ensures exists k: nat :: PutAndKept(geo, run, k, d)
  {
    if run != [] {
      hide Step, Puts, Takes, Present;
      var last := |run| - 1;
      PresentAfterStepIff(geo, Exec(geo, run[..last]), run[last], d);
      if Puts(geo, Exec(geo, run[..last]), run[last], d) {
        assert PutAndKept(geo, run, last, d);
      } else {
        PresentWasPut(geo, run[..last], d);
        var k: nat :| PutAndKept(geo, run[..last], k, d);
        KeptOn(geo, run, k, d);
      }
    }
  }

  lemma KeptOn(geo: Geometry, run: seq<Request>, k: nat, d: Document)
    requires run != [] && PutAndKept(geo, run[..|run| - 1], k, d)
    requires !Takes(Exec(geo, run[..|run| - 1]), run[|run| - 1], d)
    ensures PutAndKept(geo, run, k, d)
  {
    hide Exec, Puts, Takes;
    var before := run[..|run| - 1];
    assert forall j :: 0 <= j < |before| ==> before[..j] == run[..j] && before[j] == run[j];
  }

  lemma {:induction false} PutIsPresent(geo: Geometry, run: seq<Request>, k: nat, d: Document)
    requires PutAndKept(geo, run, k, d)
    ensures Present(Exec(geo, run), d)
    decreases |run|
  {
    hide Step, Puts, Takes, Present;
    var last := |run| - 1;
    var before := run[..last];
    PresentAfterStepIff(geo, Exec(geo, before), run[last], d);
    if k < last {
      assert forall j :: 0 <= j < |before| ==> before[..j] == run[..j] && before[j] == run[j];
      PutIsPresent(geo, before, k, d);
    }
  }

  /** After every run the users, favourites, blocks and messages are exactly those that some request put
      there, allowed as it came, and that nothing has taken away since. */
  lemma PresentAfterRunIff(geo: Geometry, run: seq<Request>, d: Document)
    ensures Present(Exec(geo, run), d) <==> exists k: nat :: PutAndKept(geo, run, k, d)
  {
    hide Exec, PutAndKept, Present;
    if Present(Exec(geo, run), d) {
      PresentWasPut(geo, run, d);
    }
    if k: nat :| PutAndKept(geo, run, k, d) {
      PutIsPresent(geo, run, k, d);
    }
  }

  /** So a favourite has been asked for by its owner and not been taken back, and a message to another
      text rests on two requests, one by each user. */
  lemma EveryMessageWasWanted(geo: Geometry, run: seq<Request>, m: Message)
    requires m in Exec(geo, run).messages && m.from != m.to
    ensures exists k: nat, i: nat, j: nat :: SentAt(geo, run, k, m) && Wanted(geo, run, k, i, j, m)
  {
    hide Exec, SentAt, GateAsked, PutAndKept;
    EveryMessageWasAsked(geo, run, m);
    var k: nat :| SentAt(geo, run, k, m) && GateAsked(geo, run, k, m);
    var i, j := BothAdded(geo, run, k, m);
    assert SentAt(geo, run, k, m) && Wanted(geo, run, k, i, j, m);
  }

  /** Before the k-th request the i-th and the j-th, each by one of the two users, had added the other,
      and neither favourite had gone again. */
  ghost predicate Wanted(geo: Geometry, run: seq<Request>, k: nat, i: nat, j: nat, m: Message) {
    && i < k && j < k <= |run| && ParseId(m.to).Some?
    && var (p, q) := (Pair(m.from, ParseId(m.to).value), Pair(ParseId(m.to).value, m.from));
    && PutAndKept(geo, run[..k], i, FavouriteDoc(p)) && PutAndKept(geo, run[..k], j, FavouriteDoc(q))
    && run[i].AddFavourite? && run[i].tok.sub == p.from && run[i].path == p.to
    && run[j].AddFavourite? && run[j].tok.sub == q.from && run[j].path == q.to
  }

  lemma BothAdded(geo: Geometry, run: seq<Request>, k: nat, m: Message) returns (i: nat, j: nat)
    requires GateAsked(geo, run, k, m)
    ensures Wanted(geo, run, k, i, j, m)
  {
    hide Exec, ParseId, Covers, Canonical, AcceptedByGateway, AcceptedAsRegistered, Delivers, NamesAnother, Takes;
    var (p, q) := (Pair(m.from, ParseId(m.to).value), Pair(ParseId(m.to).value, m.from));
    PresentAfterRunIff(geo, run[..k], FavouriteDoc(p));
    PresentAfterRunIff(geo, run[..k], FavouriteDoc(q));
    i :| PutAndKept(geo, run[..k], i, FavouriteDoc(p));
    j :| PutAndKept(geo, run[..k], j, FavouriteDoc(q));
  }

  // ----- Deleting an account -----

  /** What the deletion of one's account comes to, document by document: the users that go are the caller
      and a manager's venues, favourites and messages go exactly if an end is one of them, blocks exactly
      if an end is one of the venues, and nothing that stays is changed. */
  lemma OwnDeletionTakesExactly(geo: Geometry, s: Social, tok: Token)
    requires AcceptedAsRegistered(s.accounts, tok)
    ensures var (t, venues) := (Step(geo, s, DeleteMe(tok)),
                                set v | v in s.accounts.users && tok.role == "venue_manager" &&
                                        s.accounts.users[v].venue && s.accounts.users[v].manager == tok.sub);
            var gone := venues + {tok.sub};
            && t.accounts == s.accounts.(users := t.accounts.users)
            && t.accounts.users.Keys == s.accounts.users.Keys - gone
            && (forall id :: id in t.accounts.users ==> t.accounts.users[id] == s.accounts.users[id])
            && (forall p :: p in t.favourites <==> p in s.favourites && p.from !in gone && p.to !in gone)
            && (forall p :: p in t.favourites ==> t.favourites[p] == s.favourites[p])
            && (forall m :: m in t.messages <==> m in s.messages && m.from !in gone && m.to !in gone)
            && (forall p :: p in t.blocks <==> p in s.blocks && p.from !in venues && p.to !in venues)
            && t.radii == s.radii && t.decisions == s.decisions
  {
    hide AcceptedAsRegistered;
  }
}
