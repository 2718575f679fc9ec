/** The documents the services share: accounts, favourites with their `withinRange` flag, blocks and
    messages, changed by one atomic step per handler. A path names a user as the caller wrote it:
    handlers read it as an object id to find the user, and file favourites, blocks and messages
    under the text itself. */
module Social {
  import opened Grid
  import opened LocationStore
  import opened Accounts

  /** `from` is the owner, blocker or sender. */
  datatype Pair = Pair(from: Id, to: Id)

  /** A favourite document; the flag is absent until a range-sync sets it. */
  datatype Favourite = Favourite(withinRange: Option<bool>)

  datatype Message = Message(id: Id, from: Id, to: Id)

  /** A range-sync decision: who pushed, about whom, where both were, their tiers and the verdict. */
  datatype Decision = Decision(user: Id, other: Id, userAt: Point, otherAt: Point, userTier: string,
                               otherTier: string, verdict: bool)

  /** The documents, the radius cache and, as history that no document holds, the last decision
      about each pair of users, kept for both directions. */
  datatype Social = Social(accounts: Accounts, favourites: map<Pair, Favourite>, blocks: set<Pair>,
                           messages: set<Message>, radii: map<string, real>, decisions: map<Pair, Decision>)

  function Reversed(p: Pair): Pair {
    Pair(p.to, p.from)
  }

  /** Whether the path names a user that exists. */
  predicate NamesUser(s: Social, path: string) {
    ParseId(path).Some? && ParseId(path).value in s.accounts.users
  }

  // ----- Favourites and blocks -----

  /** Not one's own spelling of oneself, someone who exists, and not a favourite already. */
  predicate FavouriteAllowed(s: Social, tok: Token, path: string) {
    AcceptedByGateway(s.accounts, tok) && tok.sub != path && NamesUser(s, path) && Pair(tok.sub, path) !in s.favourites
  }

  function FavouriteAdded(s: Social, tok: Token, path: string): Social {
    if !FavouriteAllowed(s, tok, path) then s
    else s.(favourites := s.favourites[Pair(tok.sub, path) := Favourite(None)])
  }

  function FavouriteRemoved(s: Social, tok: Token, path: string): Social {
    if !AcceptedByGateway(s.accounts, tok) then s
    else s.(favourites := s.favourites - {Pair(tok.sub, path)})
  }

  predicate BlockAllowed(s: Social, tok: Token, path: string) {
    AcceptedByGateway(s.accounts, tok) && tok.sub != path && NamesUser(s, path)
  }

  function BlockAdded(s: Social, tok: Token, path: string): Social {
    if !BlockAllowed(s, tok, path) then s
    else s.(blocks := s.blocks + {Pair(tok.sub, path)})
  }

  function BlockRemoved(s: Social, tok: Token, path: string): Social {
    if !AcceptedByGateway(s.accounts, tok) then s
    else s.(blocks := s.blocks - {Pair(tok.sub, path)})
  }

  // ----- Range-sync -----

  const UNLIMITED := -1.0

  predicate InRadius(radius: real, dist: real) {
    radius == UNLIMITED || dist <= radius
  }

  predicate SafeTierChar(c: char) {
    ('a' <= c <= 'z') || ('A' <= c <= 'Z') || ('0' <= c <= '9') || c == '_' || c == '-'
  }

  predicate SafeTier(tier: string) {
    0 < |tier| <= 64 && forall c :: c in tier ==> SafeTierChar(c)
  }

  function TierOf(a: Accounts, id: Id): string {
    if id in a.users then a.users[id].tier else "regular"
  }

  /** A known position of another user, live or a venue's fixed one, with the radii the authority
      service answers while that user is dealt with; no answer is an outage. */
  datatype Sighting = Sighting(user: Id, at: Point, answers: map<string, real>)

  /** The radius cache after asking for a tier: filled once and for good. */
  function Learnt(radii: map<string, real>, tier: string, answers: map<string, real>): map<string, real> {
    if tier !in radii && SafeTier(tier) && tier in answers then radii[tier := answers[tier]] else radii
  }

  /** Whether some favourite, in either direction, joins the two. */
  predicate Joined(s: Social, user: Id, other: Id) {
    Pair(user, other) in s.favourites || Pair(other, user) in s.favourites
  }

  function Flag(favourites: map<Pair, Favourite>, p: Pair, verdict: bool): map<Pair, Favourite> {
    if p in favourites then favourites[p := Favourite(Some(verdict))] else favourites
  }

  /** Both directions of the pair, where they exist, take the verdict. */
  function Recorded(s: Social, d: Decision): Social {
    var p := Pair(d.user, d.other);
    s.(favourites := Flag(Flag(s.favourites, p, d.verdict), Reversed(p), d.verdict),
       decisions := s.decisions[p := d][Reversed(p) := d])
  }

  /** Within both radii. */
  predicate Verdict(geo: Geometry, radii: map<string, real>, userAt: Point, otherAt: Point, userTier: string,
                    otherTier: string)
    requires userTier in radii && otherTier in radii
  {
    InRadius(radii[userTier], geo.dist(userAt, otherAt)) && InRadius(radii[otherTier], geo.dist(userAt, otherAt))
  }

  /** The cache after asking for both tiers of a pair. */
  function LearntBoth(s: Social, tier: string, l: Sighting): map<string, real> {
    Learnt(Learnt(s.radii, tier, l.answers), TierOf(s.accounts, l.user), l.answers)
  }

  /** Whether a sighting leads to a decision: a favourite joins the two and both radii can be had. */
  predicate Decides(s: Social, user: Id, tier: string, l: Sighting) {
    Joined(s, user, l.user) && tier in LearntBoth(s, tier, l) && TierOf(s.accounts, l.user) in LearntBoth(s, tier, l)
  }

  /** One pass of the loop: a pair whose radii cannot both be had is skipped. */
  function SyncedOne(geo: Geometry, s: Social, user: Id, tier: string, at: Point, l: Sighting): Social {
    if !Joined(s, user, l.user) then s
    else
      var otherTier := TierOf(s.accounts, l.user);
      var radii := LearntBoth(s, tier, l);
      var t := s.(radii := radii);
      if !Decides(s, user, tier, l) then t
      else Recorded(t, Decision(user, l.user, at, l.at, tier, otherTier,
          Verdict(geo, radii, at, l.at, tier, otherTier)))
  }

  function SyncedAll(geo: Geometry, s: Social, user: Id, tier: string, at: Point, sightings: seq<Sighting>): Social {
    if sightings == [] then s
    else SyncedOne(geo, SyncedAll(geo, s, user, tier, at, sightings[..|sightings| - 1]), user, tier, at,
        sightings[|sightings| - 1])
  }

  /** How many sightings led to a decision. */
  function DecidedCount(geo: Geometry, s: Social, user: Id, tier: string, at: Point, sightings: seq<Sighting>): nat {
    if sightings == [] then 0
    else
      var before := sightings[..|sightings| - 1];
      DecidedCount(geo, s, user, tier, at, before) +
      (if Decides(SyncedAll(geo, s, user, tier, at, before), user, tier, sightings[|sightings| - 1]) then 1 else 0)
  }

  function RangeSynced(geo: Geometry, s: Social, user: string, at: Point, sightings: seq<Sighting>): Social {
    if ParseId(user).None? then s
    else SyncedAll(geo, s, user, TierOf(s.accounts, ParseId(user).value), at, sightings)
  }

  // ----- Admin patches and deletions -----

  /** The flag of every favourite filed under the text, either way round, is dropped. */
  function Unflagged(favourites: map<Pair, Favourite>, text: string): map<Pair, Favourite> {
    map p | p in favourites :: if p.from == text || p.to == text then Favourite(None) else favourites[p]
  }

  /** A changed tier drops flags, unless the bumped version can no longer be read back. */
  function AdminPatched(s: Social, tok: Token, path: string, tier: Option<string>, role: Option<string>, guard: bool,
                        reissue: bool): Social {
    if !PatchAllowed(s.accounts, tok, path, tier, role, guard) then s
    else
      var accounts := Patched(s.accounts, tok, path, tier, role, guard, reissue);
      if tier.Some? && Readable(accounts.users[ParseId(path).value].tokenVersion)
      then s.(accounts := accounts, favourites := Unflagged(s.favourites, path))
      else s.(accounts := accounts)
  }

  predicate Involves(p: Pair, ids: set<Id>) {
    p.from in ids || p.to in ids
  }

  function FavouritesWithout(favourites: map<Pair, Favourite>, ids: set<Id>): map<Pair, Favourite> {
    map p | p in favourites && !Involves(p, ids) :: favourites[p]
  }

  function BlocksWithout(blocks: set<Pair>, ids: set<Id>): set<Pair> {
    set p | p in blocks && !Involves(p, ids)
  }

  function MessagesWithout(messages: set<Message>, ids: set<Id>): set<Message> {
    set m | m in messages && m.from !in ids && m.to !in ids
  }

  /** Venues go with the messages, favourites and blocks filed under the given texts. */
  function VenuesGone(s: Social, venues: set<Id>, texts: set<string>): Social {
    s.(accounts := UsersDeleted(s.accounts, venues),
       favourites := FavouritesWithout(s.favourites, texts),
       blocks := BlocksWithout(s.blocks, texts),
       messages := MessagesWithout(s.messages, texts))
  }

  function VenuesOf(s: Social, manager: Id): set<Id> {
    set v | v in s.accounts.users && s.accounts.users[v].venue && s.accounts.users[v].manager == manager
  }

  /** A deleted user goes with their messages and favourites; blocks stay. */
  function UserGone(s: Social, id: Id): Social {
    s.(accounts := UsersDeleted(s.accounts, {id}),
       favourites := FavouritesWithout(s.favourites, {id}),
       messages := MessagesWithout(s.messages, {id}))
  }

  function MeDeleted(s: Social, tok: Token): Social {
    if !AcceptedAsRegistered(s.accounts, tok) then s
    else if tok.role == "venue_manager" then UserGone(VenuesGone(s, VenuesOf(s, tok.sub), VenuesOf(s, tok.sub)),
        tok.sub)
    else UserGone(s, tok.sub)
  }

  predicate VenueDeletionAllowed(s: Social, tok: Token, path: string) {
    && AcceptedAsRegistered(s.accounts, tok) && tok.role == "venue_manager"
    && NamesUser(s, path) && ParseId(path).value in VenuesOf(s, tok.sub)
  }

  function VenueDeleted(s: Social, tok: Token, path: string): Social {
    if !VenueDeletionAllowed(s, tok, path) then s
    else VenuesGone(s, {ParseId(path).value}, {path})
  }

  // ----- Sending a message -----

  /** What a send finds when it asks around: whether the sender's rate and the text pass, whether
      the favourites service answers, where the two users are, and the radii. */
  datatype SendContext = SendContext(rateOk: bool, textOk: bool, favouritesUp: bool,
                                     senderAt: Option<Point>, recipientAt: Option<Point>, answers: map<string, real>)

  predicate Mutual(s: Social, a: Id, b: Id) {
    Pair(a, b) in s.favourites && Pair(b, a) in s.favourites
  }

  /** The look-up a send makes: a block document under the two texts, either way round. */
  predicate Blocked(blocks: set<Pair>, a: string, b: string) {
    Pair(a, b) in blocks || Pair(b, a) in blocks
  }

  /** Both tiers' radii are answered and the two are within both. */
  predicate InReach(geo: Geometry, senderTier: string, recipientTier: string, a: Point, b: Point, answers: map<string,
                    real>) {
    && SafeTier(senderTier) && SafeTier(recipientTier) && senderTier in answers && recipientTier in answers
    && InRadius(answers[senderTier], geo.dist(a, b)) && InRadius(answers[recipientTier], geo.dist(a, b))
  }

  /** The gate between distinct users: no block, mutual favourites, a located sender, then distance
      within both radii or, for a recipient without a position, the flag of the sender's own
      favourite. The sender's tier is the token's. */
  predicate GateOpen(geo: Geometry, s: Social, tok: Token, path: string, c: SendContext)
    requires ParseId(path).Some?
  {
    var to := ParseId(path).value;
    && !Blocked(s.blocks, tok.sub, path)
    && c.favouritesUp && Mutual(s, tok.sub, to)
    && c.senderAt.Some?
    && (if c.recipientAt.Some?
        then InReach(geo, tok.tier, TierOf(s.accounts, to), c.senderAt.value, c.recipientAt.value, c.answers)
        else s.favourites[Pair(tok.sub, to)].withinRange == Some(true))
  }

  predicate SendAllowed(geo: Geometry, s: Social, tok: Token, path: string, c: SendContext) {
    && AcceptedByGateway(s.accounts, tok)
    && c.rateOk && c.textOk && NamesUser(s, path)
    && (tok.sub == path || GateOpen(geo, s, tok, path, c))
  }

  function Sent(geo: Geometry, s: Social, tok: Token, path: string, id: Id, c: SendContext): Social {
    if SendAllowed(geo, s, tok, path, c) then s.(messages := s.messages + {Message(id, tok.sub, path)}) else s
  }

  function MessageDeleted(s: Social, tok: Token, m: Message): Social {
    if AcceptedByGateway(s.accounts, tok) && m.from == tok.sub then s.(messages := s.messages - {m}) else s
  }

  // ----- Runs -----

  datatype Request =
    | Register(id: Id)
    | Login(id: Id)
    | ChangePassword(tok: Token)
    | Bootstrap(path: string)
    | Patch(tok: Token, path: string, tier: Option<string>, role: Option<string>, guard: bool, reissue: bool)
    | CreateVenue(tok: Token, id: Id)
    | DeleteVenue(tok: Token, path: string)
    | ReassignManager(tok: Token, path: string, manager: string)
    | DeleteMe(tok: Token)
    | AddFavourite(tok: Token, path: string)
    | RemoveFavourite(tok: Token, path: string)
    | Block(tok: Token, path: string)
    | Unblock(tok: Token, path: string)
    | RangeSync(user: string, at: Point, sightings: seq<Sighting>)
    | Send(tok: Token, path: string, id: Id, context: SendContext)
    | DeleteMessage(tok: Token, message: Message)

  function Step(geo: Geometry, s: Social, r: Request): Social {
    match r
    case Register(id) => s.(accounts := Registered(s.accounts, id))
    case Login(id) => s.(accounts := LoggedIn(s.accounts, id))
    case ChangePassword(tok) => s.(accounts := PasswordChanged(s.accounts, tok))
    case Bootstrap(path) => s.(accounts := Bootstrapped(s.accounts, path))
    case Patch(tok, path, tier, role, guard, reissue) => AdminPatched(s, tok, path, tier, role, guard, reissue)
    case CreateVenue(tok, id) => s.(accounts := VenueCreated(s.accounts, tok, id))
    case DeleteVenue(tok, path) => VenueDeleted(s, tok, path)
    case ReassignManager(tok, path, manager) => s.(accounts := ManagerReassigned(s.accounts, tok, path, manager))
    case DeleteMe(tok) => MeDeleted(s, tok)
    case AddFavourite(tok, path) => FavouriteAdded(s, tok, path)
    case RemoveFavourite(tok, path) => FavouriteRemoved(s, tok, path)
    case Block(tok, path) => BlockAdded(s, tok, path)
    case Unblock(tok, path) => BlockRemoved(s, tok, path)
    case RangeSync(user, at, sightings) => RangeSynced(geo, s, user, at, sightings)
    case Send(tok, path, id, c) => Sent(geo, s, tok, path, id, c)
    case DeleteMessage(tok, m) => MessageDeleted(s, tok, m)
  }

  const NOTHING := Social(Accounts(map[], {}, {}), map[], {}, {}, map[], map[])

  function Exec(geo: Geometry, run: seq<Request>): Social {
    if run == [] then NOTHING else Step(geo, Exec(geo, run[..|run| - 1]), run[|run| - 1])
  }
}
