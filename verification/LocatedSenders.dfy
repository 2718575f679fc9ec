/** The message gate over the location store: where a send looks the two users up, and so whom a stored
    message shows to have been live. */
module LocatedSenders {
  import opened Grid
  import opened LocationStore
  import opened Accounts
  import opened Social
  import opened SocialRuns
  import opened SocialSafety
  import opened MessageGate
  import StoreRuns

  /** The location store as one look-up finds it: all that happened in it so far, and the time. */
  datatype View = View(run: seq<StoreRuns.Timed>, at: Time)

  function LiveAt(cfg: Config, v: View): map<UserId, Entry> {
    Live(cfg, Flat(StoreRuns.Exec(cfg, v.run)), v.at)
  }

  /** The store's live entry, and for a venue the fixed point kept with its account. */
  function Position(cfg: Config, a: Accounts, fixed: map<Id, Point>, v: View, id: Id): Option<Point> {
    if id in LiveAt(cfg, v) then Some(LiveAt(cfg, v)[id].at)
    else if id in a.users && a.users[id].venue && id in fixed then Some(fixed[id])
    else None
  }

  /** The k-th request, if it is a send, was told the positions the location service had. */
  predicate ToldPositions(cfg: Config, fixed: map<Id, Point>, s: Social, r: Request, v: View) {
    r.Send? && ParseId(r.path).Some? ==>
      && r.context.senderAt == Position(cfg, s.accounts, fixed, v, r.tok.sub)
      && r.context.recipientAt == Position(cfg, s.accounts, fixed, v, ParseId(r.path).value)
  }

  ghost predicate AllToldPositions(cfg: Config, fixed: map<Id, Point>, run: seq<Request>, views: seq<View>) {
    |views| == |run| &&
    forall k :: 0 <= k < |run| ==> ToldPositions(cfg, fixed, Exec(cfg.geo, run[..k]), run[k], views[k])
  }

  /** When the k-th request was sent the sender was live in the store at the position it was judged by; the
      recipient, if judged by a position, was live there too or a venue at its fixed point, and else neither
      live nor a venue with one. */
  ghost predicate WereLive(cfg: Config, fixed: map<Id, Point>, run: seq<Request>, views: seq<View>, k: nat, m: Message)
    requires |views| == |run| && GateAsked(cfg.geo, run, k, m)
  {
    var (s, c, to, live) :=
      (Exec(cfg.geo, run[..k]), run[k].context, ParseId(m.to).value, LiveAt(cfg, views[k]));
    && m.from in live && c.senderAt == Some(live[m.from].at) && to in s.accounts.users
    && (c.recipientAt.Some? <==> to in live || (s.accounts.users[to].venue && to in fixed))
    && (c.recipientAt.Some? ==> c.recipientAt.value == if to in live then live[to].at else fixed[to])
  }

  /** In every run whose sends were told the store's positions, every message to another text came from a
      sender who was live: venues are never given a token. */
  lemma EverySenderWasLive(cfg: Config, fixed: map<Id, Point>, run: seq<Request>, views: seq<View>, m: Message)
    requires AllToldPositions(cfg, fixed, run, views)
    requires m in Exec(cfg.geo, run).messages && m.from != m.to
    ensures exists k: nat ::
              SentAt(cfg.geo, run, k, m) && GateAsked(cfg.geo, run, k, m) && WereLive(cfg, fixed, run, views, k, m)
  {
    hide GateAsked, SentAt, WereLive, AllToldPositions, Exec;
    EveryMessageWasAsked(cfg.geo, run, m);
    var k: nat :| SentAt(cfg.geo, run, k, m) && GateAsked(cfg.geo, run, k, m);
    LiveAtSend(cfg, fixed, run, views, k, m);
  }

  lemma LiveAtSend(cfg: Config, fixed: map<Id, Point>, run: seq<Request>, views: seq<View>, k: nat, m: Message)
    requires AllToldPositions(cfg, fixed, run, views)
    requires SentAt(cfg.geo, run, k, m) && GateAsked(cfg.geo, run, k, m)
    ensures WereLive(cfg, fixed, run, views, k, m)
  {
    hide Exec, ParseId, LiveAt, InReach, VerifiedByAuthority, Sound;
    var s := Exec(cfg.geo, run[..k]);
    assert ToldPositions(cfg, fixed, s, run[k], views[k]);
    AccountsOfRun(cfg.geo, run[..k]);
    TokenIsIssued(s.accounts, run[k].tok);
    TokenOwner(s.accounts, run[k].tok);
    KnownSender(s.accounts, run[k].tok);
  }

  lemma TokenIsIssued(a: Accounts, tok: Token)
    requires AcceptedByGateway(a, tok)
    ensures tok in a.issued
  {
  }
}
