/** The gate every message between two users passes: mutual favourites, no block, a located sender,
    and reach. Favourites and positions are asked for by id, blocks by the texts at hand. */
module MessageGate {
  import opened Grid
  import opened LocationStore
  import opened Accounts
  import opened Social
  import opened SocialRuns
  import opened SocialSafety

  // ----- Blocks between ids -----

  predicate Names(text: string, id: Id) {
    ParseId(text) == Some(id)
  }

  /** The document's two texts name the two users, whichever of them blocked the other. */
  predicate JoinsUsers(p: Pair, a: Id, b: Id) {
    (Names(p.from, a) && Names(p.to, b)) || (Names(p.from, b) && Names(p.to, a))
  }

  /** One of the two has blocked the other, under whatever spelling. */
  ghost predicate BlockJoins(blocks: set<Pair>, a: Id, b: Id) {
    exists p :: p in blocks && JoinsUsers(p, a, b)
  }

  ghost predicate BlocksCanonical(blocks: set<Pair>) {
    forall p :: p in blocks ==> Canonical(p.from) && Canonical(p.to)
  }

  /** A look-up under the ids themselves finds a block document exactly if its texts are spelled as the
      database spells ids. */
  lemma BlockFoundIff(p: Pair, a: Id, b: Id)
    requires Canonical(a) && Canonical(b) && JoinsUsers(p, a, b)
    ensures Blocked({p}, a, b) <==> Canonical(p.from) && Canonical(p.to)
  {
    hide ParseId;
  }

  /** The check by texts is the check by ids, for every set of canonically filed blocks, exactly if the
      path is canonical too. */
  lemma TextCheckSufficesIff(a: Id, path: string)
    requires Canonical(a) && ParseId(path).Some?
    ensures (forall blocks :: BlocksCanonical(blocks) ==>
               (Blocked(blocks, a, path) <==> BlockJoins(blocks, a, ParseId(path).value)))
       <==> Canonical(path)
  {
    ParsedIsCanonical(path);
    hide ParseId;
    var b := ParseId(path).value;
    if Canonical(path) {
      forall blocks | BlocksCanonical(blocks) ensures Blocked(blocks, a, path) <==> BlockJoins(blocks, a, b) {
        CanonicalCheckSuffices(blocks, a, b);
      }
    } else {
      var blocks := {Pair(b, a)};
      assert BlocksCanonical(blocks) && JoinsUsers(Pair(b, a), a, b) && Pair(b, a) in blocks;
      assert !Blocked(blocks, a, path);
    }
  }

  lemma CanonicalCheckSuffices(blocks: set<Pair>, a: Id, b: Id)
    requires Canonical(a) && Canonical(b) && BlocksCanonical(blocks)
    ensures Blocked(blocks, a, b) <==> BlockJoins(blocks, a, b)
  {
    hide ParseId;
    assert JoinsUsers(Pair(a, b), a, b) && JoinsUsers(Pair(b, a), a, b);
  }

  /** So, among canonically filed blocks, an allowed send under a canonical path crosses no block. */
  lemma AllowedSendCrossesNoBlock(geo: Geometry, s: Social, tok: Token, path: string, c: SendContext)
    requires Sound(s.accounts) && BlocksCanonical(s.blocks) && SendAllowed(geo, s, tok, path, c)
    requires tok.sub != path && Canonical(path)
    ensures !BlockJoins(s.blocks, tok.sub, path)
  {
    hide VerifiedByAuthority, Sound, InReach, ParseId;
    KnownSender(s.accounts, tok);
    UsersAreCanonical(s.accounts, tok.sub);
    CanonicalCheckSuffices(s.blocks, tok.sub, path);
  }

  // ----- What lets a message through -----

  /** A radius was answered for the tier, and it is unlimited or no shorter than the distance. */
  predicate Covers(answers: map<string, real>, tier: string, dist: real) {
    SafeTier(tier) && tier in answers && (answers[tier] == -1.0 || dist <= answers[tier])
  }

  /** The tiers every installation starts with can be asked for; a path is no tier. */
  lemma KnownTiersAreSafe(tier: string)
    ensures tier in VALID_USER_TIERS ==> SafeTier(tier)
    ensures '/' in tier || tier == "" ==> !SafeTier(tier)
  {
  }

  /** Between two texts: no block document of theirs, a favourite each way, a located sender, and either
      both radii cover the distance or, for a recipient without a position, the sender's own favourite
      carries the flag. */
  predicate LetThrough(geo: Geometry, s: Social, tok: Token, path: string, c: SendContext) {
    && ParseId(path).Some?
    && var to := ParseId(path).value;
    && Pair(tok.sub, path) !in s.blocks && Pair(path, tok.sub) !in s.blocks
    && c.favouritesUp && Pair(tok.sub, to) in s.favourites && Pair(to, tok.sub) in s.favourites
    && c.senderAt.Some?
    && match c.recipientAt
       case None => s.favourites[Pair(tok.sub, to)] == Favourite(Some(true))
       case Some(at) =>
         && Covers(c.answers, tok.tier, geo.dist(c.senderAt.value, at))
         && Covers(c.answers, TierOf(s.accounts, to), geo.dist(c.senderAt.value, at))
  }

  // ----- What every send asked for -----

  ghost predicate SentAt(geo: Geometry, run: seq<Request>, k: nat, m: Message) {
    && k < |run| && run[k].Send? && run[k].tok.sub == m.from && run[k].path == m.to
    && SendAllowed(geo, Exec(geo, run[..k]), run[k].tok, run[k].path, run[k].context)
  }

  lemma {:induction false} MessagesOfRun(geo: Geometry, run: seq<Request>, m: Message)
    requires m in Exec(geo, run).messages
    ensures exists k: nat :: SentAt(geo, run, k, m)
  {
    if run != [] {
      hide SendAllowed;
      var last := |run| - 1;
      var before := run[..last];
      if m in Exec(geo, before).messages {
        MessagesOfRun(geo, before, m);
        var k: nat :| SentAt(geo, before, k, m);
        assert before[..k] == run[..k];
        assert SentAt(geo, run, k, m);
      } else {
        SentLast(geo, Exec(geo, before), run[last], m);
        assert SentAt(geo, run, last, m);
      }
    }
  }

  lemma SentLast(geo: Geometry, s: Social, r: Request, m: Message)
    requires m in Step(geo, s, r).messages && m !in s.messages
    ensures r.Send? && r.tok.sub == m.from && r.path == m.to && SendAllowed(geo, s, r.tok, r.path, r.context)
  {
    hide ParseId, AcceptedByGateway, AcceptedAsRegistered, PatchAllowed, SendAllowed, NamesUser;
    if r.RangeSync? && ParseId(r.user).Some? {
      SyncedFrame(geo, s, r.user, TierOf(s.accounts, ParseId(r.user).value), r.at, r.sightings);
    }
  }

  ghost predicate NobodyFavoursThemselves(s: Social) {
    forall p :: p in s.favourites ==> p.from != p.to
  }

  lemma {:induction false} SelfFavourNever(geo: Geometry, run: seq<Request>)
    ensures NobodyFavoursThemselves(Exec(geo, run))
  {
    if run != [] {
      hide Step;
      SelfFavourNever(geo, run[..|run| - 1]);
      SelfFavourStep(geo, Exec(geo, run[..|run| - 1]), run[|run| - 1]);
    }
  }

  lemma SelfFavourStep(geo: Geometry, s: Social, r: Request)
    requires NobodyFavoursThemselves(s)
    ensures NobodyFavoursThemselves(Step(geo, s, r))
  {
    hide ParseId, AcceptedByGateway, AcceptedAsRegistered, PatchAllowed, SendAllowed, NamesUser;
    if r.RangeSync? && ParseId(r.user).Some? {
      SyncedFrame(geo, s, r.user, TierOf(s.accounts, ParseId(r.user).value), r.at, r.sightings);
    }
  }

  /** What the k-th request, a send, asked for and found: two distinct users who favour each other, no
      block under the texts at hand, a located sender, and reach or the flag. */
  ghost predicate GateAsked(geo: Geometry, run: seq<Request>, k: nat, m: Message) {
    && k < |run| && run[k].Send? && run[k].tok.sub == m.from && ParseId(m.to).Some?
    && var (s, tok, c, to) := (Exec(geo, run[..k]), run[k].tok, run[k].context, ParseId(m.to).value);
    && m.from != to && Mutual(s, m.from, to) && !Blocked(s.blocks, m.from, m.to) && c.senderAt.Some?
    && (match c.recipientAt
        case Some(at) =>
          && Covers(c.answers, tok.tier, geo.dist(c.senderAt.value, at))
          && Covers(c.answers, TierOf(s.accounts, to), geo.dist(c.senderAt.value, at))
        case None => s.favourites[Pair(m.from, to)].withinRange == Some(true))
  }

  /** Whatever the run, every message to another text passed all of this. */
  lemma EveryMessageWasAsked(geo: Geometry, run: seq<Request>, m: Message)
    requires m in Exec(geo, run).messages && m.from != m.to
    ensures exists k: nat :: SentAt(geo, run, k, m) && GateAsked(geo, run, k, m)
  {
    hide ParseId, Exec, VerifiedByAuthority, SafeTier;
    MessagesOfRun(geo, run, m);
    var k: nat :| SentAt(geo, run, k, m);
    SelfFavourNever(geo, run[..k]);
    assert GateAsked(geo, run, k, m);
  }

  // ----- What it amounts to -----

  /** Blocks are asked for under canonical ids only. */
  ghost predicate BlocksSpelled(run: seq<Request>) {
    forall k :: 0 <= k < |run| && run[k].Block? ==> Plain(run[k].path)
  }

  lemma {:induction false} BlocksOfRun(geo: Geometry, run: seq<Request>)
    requires BlocksSpelled(run)
    ensures BlocksCanonical(Exec(geo, run).blocks)
  {
    if run != [] {
      hide Step, Sound, BlocksCanonical, ParseId;
      var before := run[..|run| - 1];
      BlocksOfRun(geo, before);
      AccountsOfRun(geo, before);
      BlocksStep(geo, Exec(geo, before), run[|run| - 1]);
    } else {
      assert Exec(geo, run).blocks == {};
    }
  }

  lemma BlocksStep(geo: Geometry, s: Social, r: Request)
    requires BlocksCanonical(s.blocks) && Sound(s.accounts) && (r.Block? ==> Plain(r.path))
    ensures BlocksCanonical(Step(geo, s, r).blocks)
  {
    hide ParseId, AcceptedByGateway, AcceptedAsRegistered, PatchAllowed, SendAllowed, Sound;
    if r.RangeSync? && ParseId(r.user).Some? {
      SyncedFrame(geo, s, r.user, TierOf(s.accounts, ParseId(r.user).value), r.at, r.sightings);
    }
    if r.Block? && BlockAllowed(s, r.tok, r.path) {
      KnownSender(s.accounts, r.tok);
      UsersAreCanonical(s.accounts, r.tok.sub);
    }
  }

  /** What the answers to the k-th request, a send between two distinct users, were worth: the sender's
      tier is the stored one unless the token is outgrown; with the path and the block documents spelled
      as the database spells ids, neither had blocked the other; and after a harmless run the flag was an
      earlier range-sync's verdict under the tiers both still had. */
  ghost predicate AnswersHeld(geo: Geometry, run: seq<Request>, k: nat, m: Message)
    requires GateAsked(geo, run, k, m)
  {
    var (s, tok, c, to) := (Exec(geo, run[..k]), run[k].tok, run[k].context, ParseId(m.to).value);
    && (TierOf(s.accounts, m.from) in VALID_USER_TIERS && !Outgrown(s.accounts, tok) ==>
          tok.tier == TierOf(s.accounts, m.from))
    && (Canonical(m.to) && BlocksCanonical(s.blocks) ==> !BlockJoins(s.blocks, m.from, to))
    && (c.recipientAt.None? && AllHarmless(geo, run[..k]) ==>
          && Pair(m.from, to) in s.decisions
          && var d := s.decisions[Pair(m.from, to)];
          && d.verdict && DecisionCurrent(geo, s, d)
          && exists j: nat :: j < k && TakenAt(run, j, d))
  }

  lemma AnswersHeldAtSend(geo: Geometry, run: seq<Request>, k: nat, m: Message)
    requires SentAt(geo, run, k, m) && GateAsked(geo, run, k, m)
    ensures AnswersHeld(geo, run, k, m)
  {
    hide Exec, Consistent, DecisionCurrent, InReach, Covers, VerifiedByAuthority, VerifiedByExtractor, ParseId;
    hide Sound, BlockJoins, BlocksCanonical, AllHarmless;
    var before := run[..k];
    var (s, tok, c) := (Exec(geo, before), run[k].tok, run[k].context);
    AccountsOfRun(geo, before);
    KnownSender(s.accounts, tok);
    if !Outgrown(s.accounts, tok) {
      AcceptedAfterRun(geo, before, tok);
    }
    if Canonical(m.to) && BlocksCanonical(s.blocks) {
      AllowedSendCrossesNoBlock(geo, s, tok, m.to, c);
    }
    if c.recipientAt.None? && AllHarmless(geo, before) {
      var p := Pair(m.from, ParseId(m.to).value);
      RunKeepsConsistency(geo, before);
      FlagBacked(geo, s, p);
      DecisionsOfRun(geo, before, p);
      var j: nat :| TakenAt(before, j, s.decisions[p]);
      assert TakenAt(run, j, s.decisions[p]);
    }
  }

  lemma FlagBacked(geo: Geometry, s: Social, p: Pair)
    requires Consistent(geo, s) && p in s.favourites && s.favourites[p].withinRange == Some(true)
    ensures p in s.decisions && s.decisions[p].verdict && DecisionCurrent(geo, s, s.decisions[p])
  {
    assert FlagCurrent(geo, s, p);
  }

  /** In every run, every message to another text was sent with all of this. */
  lemma EveryMessageWasEntitled(geo: Geometry, run: seq<Request>, m: Message)
    requires m in Exec(geo, run).messages && m.from != m.to
    ensures exists k: nat :: SentAt(geo, run, k, m) && GateAsked(geo, run, k, m) && AnswersHeld(geo, run, k, m)
  {
    hide AnswersHeld, GateAsked, SentAt;
    EveryMessageWasAsked(geo, run, m);
    var k: nat :| SentAt(geo, run, k, m) && GateAsked(geo, run, k, m);
    AnswersHeldAtSend(geo, run, k, m);
  }

  /** What the k-th request, a send, found between two distinct users: they favoured each other,
      neither had blocked the other, the sender was located, and either the recipient was too and the
      two were within both radii, the sender's by the stored tier unless the token is outgrown, or an
      earlier range-sync had put them in range under the tiers both still had. */
  ghost predicate GateHeld(geo: Geometry, run: seq<Request>, k: nat, m: Message) {
    && k < |run| && run[k].Send? && run[k].tok.sub == m.from && ParseId(m.to).Some?
    && var (s, tok, c, to) := (Exec(geo, run[..k]), run[k].tok, run[k].context, ParseId(m.to).value);
    && m.from != to && Mutual(s, m.from, to) && !BlockJoins(s.blocks, m.from, to) && c.senderAt.Some?
    && (if c.recipientAt.Some? then
          && Covers(c.answers, tok.tier, geo.dist(c.senderAt.value, c.recipientAt.value))
          && Covers(c.answers, TierOf(s.accounts, to), geo.dist(c.senderAt.value, c.recipientAt.value))
          && (TierOf(s.accounts, m.from) in VALID_USER_TIERS && !Outgrown(s.accounts, tok) ==>
                tok.tier == TierOf(s.accounts, m.from))
        else
          && Pair(m.from, to) in s.decisions
          && var d := s.decisions[Pair(m.from, to)];
          && d.verdict && DecisionCurrent(geo, s, d)
          && exists j: nat :: j < k && TakenAt(run, j, d))
  }

  lemma GateHeldAtSend(geo: Geometry, run: seq<Request>, k: nat, m: Message)
    requires AllHarmless(geo, run) && BlocksSpelled(run)
    requires SentAt(geo, run, k, m) && GateAsked(geo, run, k, m) && AnswersHeld(geo, run, k, m)
    ensures GateHeld(geo, run, k, m)
  {
    hide Exec, DecisionCurrent, InReach, Covers, ParseId, BlockJoins, BlocksCanonical, VerifiedByAuthority;
    assert Harmless(geo, Exec(geo, run[..k]), run[k]);
    BlocksOfRun(geo, run[..k]);
    HarmlessPrefix(geo, run, k);
  }

  /** In a harmless run with canonically filed blocks every message stored between distinct users passed
      the gate when it was sent. */
  lemma EveryMessagePassedTheGate(geo: Geometry, run: seq<Request>, m: Message)
    requires AllHarmless(geo, run) && BlocksSpelled(run) && m in Exec(geo, run).messages && m.from != m.to
    ensures exists k: nat :: GateHeld(geo, run, k, m)
  {
    hide GateHeld, GateAsked, SentAt, AnswersHeld;
    EveryMessageWasEntitled(geo, run, m);
    var k: nat :| SentAt(geo, run, k, m) && GateAsked(geo, run, k, m) && AnswersHeld(geo, run, k, m);
    GateHeldAtSend(geo, run, k, m);
  }
}
