/** Runs that show each condition on the handlers is needed: a path that spells an id in upper case
    is read as that id, and what is filed or cleared under it is filed or cleared beside it. */
module SocialCounterexamples {
  import opened Grid
  import opened LocationStore
  import opened Accounts
  import opened Social
  import opened SocialRuns
  import opened MessageGate

  // ----- Ids and their spellings -----

  function Spelt(c: char): string {
    seq(24, i => c)
  }

  /** Two users' ids and another spelling of the second. */
  predicate TwoIds(a: Id, b: Id, other: string) {
    Canonical(a) && Canonical(b) && a != b && ParseId(other) == Some(b) && other != b
  }

  lemma TwoIdsExist()
    ensures TwoIds(Spelt('a'), Spelt('b'), Spelt('B'))
    ensures TwoIds(Spelt('b'), Spelt('c'), Spelt('C')) && Spelt('a') != Spelt('c')
  {
    Reads('a', 'a');
    Reads('b', 'b');
    Reads('B', 'b');
    Reads('c', 'c');
    Reads('C', 'c');
  }

  lemma Reads(c: char, d: char)
    requires HexDigit(c) && Lower(c) == d
    ensures ParseId(Spelt(c)) == Some(Spelt(d)) && Spelt(c)[0] == c
  {
    assert ParseId(Spelt(c)).value == Spelt(d);
  }

  lemma ExecSnoc(geo: Geometry, run: seq<Request>, r: Request)
    ensures Exec(geo, run + [r]) == Step(geo, Exec(geo, run), r)
  {
    hide Step;
    assert (run + [r])[..|run|] == run;
  }

  // ----- Two friends -----

  function FirstToken(id: Id): Token {
    Token(id, "user", "regular", 0)
  }

  /** Both register and each adds the other. */
  function Friends(a: Id, b: Id): seq<Request> {
    [Register(a)] + [Register(b)] + [AddFavourite(FirstToken(a), b)] + [AddFavourite(FirstToken(b), a)]
  }

  function TwoUsers(a: Id, b: Id): Accounts {
    Accounts(map[a := NewUser(), b := NewUser()], {a, b}, {FirstToken(a), FirstToken(b)})
  }

  function FriendsState(a: Id, b: Id): Social {
    Social(TwoUsers(a, b), map[Pair(a, b) := Favourite(None), Pair(b, a) := Favourite(None)], {}, {}, map[], map[])
  }

  lemma FirstRegisters(geo: Geometry, a: Id)
    requires Canonical(a)
    ensures Exec(geo, [Register(a)]).accounts == Accounts(map[a := NewUser()], {a}, {FirstToken(a)})
    ensures Exec(geo, [Register(a)]) == NOTHING.(accounts := Exec(geo, [Register(a)]).accounts)
  {
    hide Canonical;
    ExecSnoc(geo, [], Register(a));
    assert [] + [Register(a)] == [Register(a)];
  }

  lemma TwoRegister(geo: Geometry, a: Id, b: Id)
    requires Canonical(a) && Canonical(b) && a != b
    ensures Exec(geo, [Register(a)] + [Register(b)]) == Social(TwoUsers(a, b), map[], {}, {}, map[], map[])
  {
    hide Canonical, Exec;
    FirstRegisters(geo, a);
    ExecSnoc(geo, [Register(a)], Register(b));
    var s := Exec(geo, [Register(a)] + [Register(b)]);
    assert s.accounts.users == TwoUsers(a, b).users && s.accounts.issued == TwoUsers(a, b).issued;
  }

  lemma TheyAreFriends(geo: Geometry, a: Id, b: Id)
    requires Canonical(a) && Canonical(b) && a != b
    ensures Exec(geo, Friends(a, b)) == FriendsState(a, b)
  {
    hide ParseId;
    TwoRegister(geo, a, b);
    var two := [Register(a)] + [Register(b)];
    ExecSnoc(geo, two, AddFavourite(FirstToken(a), b));
    ExecSnoc(geo, two + [AddFavourite(FirstToken(a), b)], AddFavourite(FirstToken(b), a));
    assert Exec(geo, Friends(a, b)).favourites == FriendsState(a, b).favourites;
  }

  // ----- References -----

  /** A favourite added under another spelling names nobody. */
  lemma FavouriteOfNobody(geo: Geometry, a: Id, b: Id, other: string) returns (run: seq<Request>)
    requires TwoIds(a, b, other)
    ensures !Refs(Exec(geo, run))
  {
    hide ParseId;
    var (two, add) := ([Register(a)] + [Register(b)], AddFavourite(FirstToken(a), other));
    run := two + [add];
    TwoRegister(geo, a, b);
    ExecSnoc(geo, two, add);
    assert Pair(a, other) in Exec(geo, run).favourites;
  }

  /** Both located at one point, no limit on the radius. */
  function InTouch(): SendContext {
    SendContext(true, true, true, Some(Point(0.0, 0.0)), Some(Point(0.0, 0.0)), map["regular" := UNLIMITED])
  }

  lemma RegularIsSafe()
    ensures SafeTier("regular") && SafeTier("premium") && ValidTierName("premium")
  {
  }

  /** So does a message sent to another spelling. */
  lemma MessageToNobody(geo: Geometry, a: Id, b: Id, other: string) returns (run: seq<Request>)
    requires TwoIds(a, b, other)
    ensures !Refs(Exec(geo, run))
  {
    hide ParseId, SafeTier;
    var send := Send(FirstToken(a), other, "m", InTouch());
    run := Friends(a, b) + [send];
    TheyAreFriends(geo, a, b);
    RegularIsSafe();
    ExecSnoc(geo, Friends(a, b), send);
    assert Message("m", a, other) in Exec(geo, run).messages;
  }

  // ----- Blocks -----

  /** The last request of the run stored a message although one of the two had blocked the other. */
  ghost predicate CrossesBlock(geo: Geometry, run: seq<Request>, m: Message) {
    && run != [] && m in Exec(geo, run).messages && m !in Exec(geo, run[..|run| - 1]).messages
    && ParseId(m.to).Some? && BlockJoins(Exec(geo, run[..|run| - 1]).blocks, m.from, ParseId(m.to).value)
  }

  lemma SendAfterBlock(geo: Geometry, a: Id, b: Id, block: Request, send: Request)
    requires Canonical(a) && Canonical(b) && a != b
    requires block.Block? && BlockAllowed(FriendsState(a, b), block.tok, block.path)
    requires send.Send? && send.context == InTouch() && !Blocked({Pair(block.tok.sub, block.path)}, send.tok.sub,
        send.path)
    requires send.tok in TwoUsers(a, b).issued && send.tok.sub != send.path && ParseId(send.path).Some?
    requires {send.tok.sub, ParseId(send.path).value} == {a, b}
    requires JoinsUsers(Pair(block.tok.sub, block.path), a, b)
    ensures CrossesBlock(geo, Friends(a, b) + [block] + [send], Message(send.id, send.tok.sub, send.path))
  {
    hide ParseId, SafeTier;
    var run := Friends(a, b) + [block] + [send];
    TheyAreFriends(geo, a, b);
    ExecSnoc(geo, Friends(a, b), block);
    ExecSnoc(geo, Friends(a, b) + [block], send);
    assert run[..|run| - 1] == Friends(a, b) + [block];
    RegularIsSafe();
    var (s, from, to) := (Exec(geo, Friends(a, b) + [block]), send.tok.sub, ParseId(send.path).value);
    assert s.blocks == {Pair(block.tok.sub, block.path)};
    assert (from == a && to == b) || (from == b && to == a) by {
      assert from in {a, b} && to in {a, b} && a in {from, to} && b in {from, to};
    }
    assert Pair(block.tok.sub, block.path) in s.blocks;
  }

  /** A send to another spelling of the blocked user's id. */
  lemma SendUnderAnotherSpelling(geo: Geometry, a: Id, b: Id, other: string) returns (run: seq<Request>, m: Message)
    requires TwoIds(a, b, other)
    ensures CrossesBlock(geo, run, m) && BlocksSpelled(run)
  {
    hide ParseId;
    var (block, send) := (Block(FirstToken(b), a), Send(FirstToken(a), other, "m", InTouch()));
    run, m := Friends(a, b) + [block] + [send], Message("m", a, other);
    SendAfterBlock(geo, a, b, block, send);
  }

  /** A block under another spelling, and a send under the id itself. */
  lemma BlockUnderAnotherSpelling(geo: Geometry, a: Id, b: Id, other: string) returns (run: seq<Request>, m: Message)
    requires TwoIds(a, b, other)
    ensures CrossesBlock(geo, run, m) && AllSpelled(run)
  {
    hide ParseId;
    var (block, send) := (Block(FirstToken(a), other), Send(FirstToken(b), a, "m", InTouch()));
    run, m := Friends(a, b) + [block] + [send], Message("m", b, a);
    SendAfterBlock(geo, a, b, block, send);
  }

  // ----- An admin among them -----

  function AdminToken(id: Id): Token {
    Token(id, "admin", "regular", 1)
  }

  function Admin(): User {
    User(Some("admin"), "regular", 1, false, "")
  }

  function AdminState(s: Social, a: Id): Social {
    s.(accounts := s.accounts.(users := s.accounts.users[a := Admin()], issued := s.accounts.issued + {AdminToken(a)}))
  }

  /** The first of them is made admin and logs in. */
  lemma OneIsAdmin(geo: Geometry, run: seq<Request>, s: Social, a: Id, b: Id)
    requires Exec(geo, run) == s && s.accounts == TwoUsers(a, b) && a != b && Canonical(a)
    ensures Exec(geo, run + [Bootstrap(a)] + [Login(a)]) == AdminState(s, a)
  {
    hide ParseId;
    ExecSnoc(geo, run, Bootstrap(a));
    ExecSnoc(geo, run + [Bootstrap(a)], Login(a));
    var (t, u) := (Exec(geo, run + [Bootstrap(a)]), Exec(geo, run + [Bootstrap(a)] + [Login(a)]));
    assert forall id :: id in s.accounts.users ==> s.accounts.users[id] == NewUser();
    assert t.accounts.users == s.accounts.users[a := Admin()];
    assert u.accounts.users == t.accounts.users && u.accounts.used == s.accounts.used;
    assert u.accounts.issued == s.accounts.issued + {AdminToken(a)};
  }

  /** A patch under another spelling leaves the flags computed under the old tier. */
  lemma PatchLeavesFlags(geo: Geometry, a: Id, b: Id, other: string) returns (run: seq<Request>)
    requires TwoIds(a, b, other)
    ensures !FlagsCurrent(geo, Exec(geo, run))
  {
    hide ParseId, Exec, Consistent, FlagsCurrent, SafeTier;
    var l := Sighting(b, Point(0.0, 0.0), map["regular" := UNLIMITED]);
    var (sync, patch) := (RangeSync(a, Point(0.0, 0.0), [l]),
                          Patch(AdminToken(a), other, Some("premium"), None, false, true));
    var start := Friends(a, b) + [sync];
    var before := start + [Bootstrap(a)] + [Login(a)];
    run := before + [patch];
    var s := Synced(geo, a, b, sync, l);
    OneIsAdmin(geo, start, s, a, b);
    SpelledPrefix(geo, a, b, sync, before);
    RegularIsSafe();
    PatchKeepsFlagsIff(geo, AdminState(s, a), AdminToken(a), other, Some("premium"), None, false, true);
    ExecSnoc(geo, before, patch);
    assert Pair(a, b) in s.favourites && s.favourites[Pair(a, b)].withinRange.Some?;
  }

  lemma Synced(geo: Geometry, a: Id, b: Id, sync: Request, l: Sighting) returns (s: Social)
    requires Canonical(a) && Canonical(b) && a != b && l == Sighting(b, Point(0.0, 0.0), map["regular" := UNLIMITED])
    requires sync == RangeSync(a, Point(0.0, 0.0), [l])
    ensures s == Exec(geo, Friends(a, b) + [sync]) && s.accounts == TwoUsers(a, b)
    ensures Pair(a, b) in s.favourites && s.favourites[Pair(a, b)].withinRange.Some?
  {
    hide ParseId, SafeTier;
    TheyAreFriends(geo, a, b);
    ExecSnoc(geo, Friends(a, b), sync);
    RegularIsSafe();
    s := Exec(geo, Friends(a, b) + [sync]);
    var f := FriendsState(a, b);
    assert [l][..0] == [];
    assert SyncedAll(geo, f, a, "regular", Point(0.0, 0.0), [l][..0]) == f;
    assert SyncedAll(geo, f, a, "regular", Point(0.0, 0.0), [l]) == SyncedOne(geo, f, a, "regular", Point(0.0, 0.0), l);
  }

  lemma SpelledPrefix(geo: Geometry, a: Id, b: Id, sync: Request, run: seq<Request>)
    requires Canonical(a) && Canonical(b) && sync.RangeSync?
    requires run == Friends(a, b) + [sync] + [Bootstrap(a)] + [Login(a)]
    ensures Consistent(geo, Exec(geo, run))
  {
    hide ParseId, Consistent, Exec;
    SpelledRunIsHarmless(geo, run);
    RunKeepsConsistency(geo, run);
  }

  // ----- A venue -----

  function ManagerToken(id: Id): Token {
    Token(id, "venue_manager", "regular", 1)
  }

  function Manager(): User {
    User(Some("venue_manager"), "regular", 1, false, "")
  }

  /** The admin makes the other a venue manager, who logs in. */
  function ManagerRun(a: Id, b: Id): seq<Request> {
    [Register(a)] + [Register(b)] + [Bootstrap(a)] + [Login(a)]
    + [Patch(AdminToken(a), b, None, Some("venue_manager"), false, true)] + [Login(b)]
  }

  lemma OneIsManager(geo: Geometry, a: Id, b: Id)
    requires Canonical(a) && Canonical(b) && a != b
    ensures Exec(geo, ManagerRun(a, b)).accounts ==
            Accounts(map[a := Admin(), b := Manager()], {a, b},
                     {FirstToken(a), FirstToken(b), AdminToken(a), ManagerToken(b)})
    ensures Exec(geo, ManagerRun(a, b)).favourites == map[]
  {
    hide ParseId, Exec;
    var two := [Register(a)] + [Register(b)];
    var patch := Patch(AdminToken(a), b, None, Some("venue_manager"), false, true);
    TwoRegister(geo, a, b);
    OneIsAdmin(geo, two, Exec(geo, two), a, b);
    var before := two + [Bootstrap(a)] + [Login(a)];
    ExecSnoc(geo, before, patch);
    ExecSnoc(geo, before + [patch], Login(b));
    var s := Exec(geo, before + [patch]);
    assert s.accounts.users == map[a := Admin(), b := Manager()] && s.accounts.used == {a, b};
    var t := Exec(geo, ManagerRun(a, b));
    assert t.accounts.users == s.accounts.users && t.accounts.used == {a, b};
    assert t.accounts.issued == {FirstToken(a), FirstToken(b), AdminToken(a), ManagerToken(b)};
  }

  /** The manager makes a venue, which the admin adds to the favourites. */
  function VenueRun(a: Id, b: Id, v: Id): seq<Request> {
    ManagerRun(a, b) + [CreateVenue(ManagerToken(b), v)] + [AddFavourite(AdminToken(a), v)]
  }

  lemma VenueIsFavourite(geo: Geometry, a: Id, b: Id, v: Id)
    requires Canonical(a) && Canonical(b) && Canonical(v) && a != b && v != a && v != b
    ensures var s := Exec(geo, VenueRun(a, b, v));
            && Pair(a, v) in s.favourites && v in VenuesOf(s, b) && AcceptedAsRegistered(s.accounts, ManagerToken(b))
  {
    hide ParseId, Exec, ManagerRun;
    var (create, add) := (CreateVenue(ManagerToken(b), v), AddFavourite(AdminToken(a), v));
    OneIsManager(geo, a, b);
    ExecSnoc(geo, ManagerRun(a, b), create);
    ExecSnoc(geo, ManagerRun(a, b) + [create], add);
    var s := Exec(geo, ManagerRun(a, b) + [create]);
    assert v in s.accounts.users && AdminToken(a) in s.accounts.issued;
  }

  /** Deleted under another spelling, the venue stays a favourite. */
  lemma FavouriteOfGoneVenue(geo: Geometry, a: Id, b: Id, v: Id, other: string) returns (run: seq<Request>)
    requires TwoIds(b, v, other) && Canonical(a) && a != b && a != v
    ensures !Refs(Exec(geo, run))
  {
    hide ParseId, VenuesOf, AcceptedAsRegistered, VenueRun, Exec;
    var (before, delete) := (VenueRun(a, b, v), DeleteVenue(ManagerToken(b), other));
    run := before + [delete];
    VenueIsFavourite(geo, a, b, v);
    ExecSnoc(geo, before, delete);
    var s := Exec(geo, before);
    assert NamesUser(s, other) by { VenuesAreUsers(s, v, b); }
    assert Pair(a, v) in Exec(geo, run).favourites;
    assert v !in Exec(geo, run).accounts.users;
  }

  lemma VenuesAreUsers(s: Social, v: Id, b: Id)
    requires v in VenuesOf(s, b)
    ensures v in s.accounts.users
  {
  }

  // ----- A version that outgrows 32 bits -----

  function RolePatch(a: Id, b: Id): Request {
    Patch(AdminToken(a), b, None, Some("user"), false, true)
  }

  /** The admin sets the other's role, over and over. */
  function Patches(a: Id, b: Id, n: nat): seq<Request> {
    if n == 0 then [Register(a)] + [Register(b)] + [Bootstrap(a)] + [Login(a)]
    else Patches(a, b, n - 1) + [RolePatch(a, b)]
  }

  function PatchedAccounts(a: Id, b: Id, n: nat): Accounts {
    Accounts(map[a := Admin(), b := NewUser().(tokenVersion := n)], {a, b},
             {FirstToken(a), FirstToken(b), AdminToken(a)})
  }

  lemma PatchedOnce(geo: Geometry, s: Social, a: Id, b: Id, n: nat)
    requires Canonical(b) && a != b && s.accounts == PatchedAccounts(a, b, n)
    ensures Step(geo, s, RolePatch(a, b)).accounts == PatchedAccounts(a, b, n + 1)
  {
    hide ParseId;
    var t := Patched(s.accounts, AdminToken(a), b, None, Some("user"), false, true);
    assert t.users == PatchedAccounts(a, b, n + 1).users;
    assert t.used == {a, b} && t.issued == s.accounts.issued;
  }

  lemma {:induction false} PatchedOverAndOver(geo: Geometry, a: Id, b: Id, n: nat)
    requires Canonical(a) && Canonical(b) && a != b
    ensures Exec(geo, Patches(a, b, n)).accounts == PatchedAccounts(a, b, n)
  {
    hide ParseId, Exec, Step;
    if n == 0 {
      var two := [Register(a)] + [Register(b)];
      TwoRegister(geo, a, b);
      OneIsAdmin(geo, two, Exec(geo, two), a, b);
      assert TwoUsers(a, b).users[a := Admin()] == PatchedAccounts(a, b, 0).users;
    } else {
      PatchedOverAndOver(geo, a, b, n - 1);
      ExecSnoc(geo, Patches(a, b, n - 1), RolePatch(a, b));
      PatchedOnce(geo, Exec(geo, Patches(a, b, n - 1)), a, b, n - 1);
    }
  }

  /** After 2^31 patches the central check reads the version as zero and takes the token issued at
      registration, which the extractor refuses. */
  lemma FirstTokenReturns(geo: Geometry, a: Id, b: Id) returns (run: seq<Request>)
    requires Canonical(a) && Canonical(b) && a != b
    ensures var s := Exec(geo, run).accounts;
            && Sound(s) && Outgrown(s, FirstToken(b)) && Revoked(s, FirstToken(b))
            && VerifiedByAuthority(s, FirstToken(b)) && !VerifiedByExtractor(s, FirstToken(b))
  {
    hide ParseId, Sound, Exec, Patches;
    run := Patches(a, b, I32_MAX + 1);
    PatchedOverAndOver(geo, a, b, I32_MAX + 1);
    AccountsOfRun(geo, run);
    RevokedIsRefused(Exec(geo, run).accounts, FirstToken(b));
  }
}
