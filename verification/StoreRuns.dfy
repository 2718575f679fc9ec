/** Whole runs of the location store: pushes, deletions, evicting queries and sweeps in any order,
    on a clock that never goes back. */
module StoreRuns {
  import opened RealArithmetic
  import opened Grid
  import opened LocationStore

  datatype Event =
    | Push(entry: Entry)
    | Delete(user: UserId)
    | Query(cells: set<ShardKey>, exclude: set<UserId>)
    | Sweep

  datatype Timed = Timed(at: Time, event: Event)

  function Step(cfg: Config, s: State, e: Timed): State {
    match e.event
    case Push(entry) => Upserted(cfg, s, entry, e.at)
    case Delete(u) => Removed(s, u)
    case Query(cells, exclude) => Evicted(cfg, s, cells, exclude, e.at)
    case Sweep => Swept(cfg, s, e.at)
  }

  function Exec(cfg: Config, run: seq<Timed>): State {
    if run == [] then EMPTY else Step(cfg, Exec(cfg, run[..|run| - 1]), run[|run| - 1])
  }

  /** A pushed entry carries the time of the push. */
  predicate Stamped(e: Timed) {
    e.event.Push? ==> e.event.entry.updatedAt == e.at
  }

  predicate Chronological(run: seq<Timed>) {
    run != [] ==>
      && Stamped(run[|run| - 1])
      && (|run| > 1 ==> run[|run| - 2].at <= run[|run| - 1].at)
      && Chronological(run[..|run| - 1])
  }

  // ----- What every step keeps -----

  /** A filed entry is as old as its stamp; a stamp without an entry is older than the TTL. */
  predicate StampFits(cfg: Config, s: State, clock: Time, u: UserId) {
    u in s.suppression ==>
      && s.suppression[u].time <= clock
      && (if u in Flat(s) then Flat(s)[u].updatedAt == s.suppression[u].time
          else clock - s.suppression[u].time > cfg.ttl)
  }

  ghost predicate Good(cfg: Config, s: State, clock: Time) {
    Inv(cfg, s) && forall u :: StampFits(cfg, s, clock, u)
  }

  lemma FlatUsersAreStamped(cfg: Config, s: State, u: UserId)
    requires Inv(cfg, s) && u in Flat(s)
    ensures u in s.suppression && s.suppression[u].at == Flat(s)[u].at && Flat(s)[u].userId == u
  {
  }

  lemma StepKeepsInv(cfg: Config, s: State, e: Timed)
    requires Inv(cfg, s)
    ensures Inv(cfg, Step(cfg, s, e))
  {
    match e.event
    case Push(entry) => UpsertedKeepsInv(cfg, s, entry, e.at);
    case Delete(u) => RemovedKeepsInv(cfg, s, u);
    case Query(cells, exclude) => EvictedKeepsInv(cfg, s, cells, exclude, e.at);
    case Sweep => SweptKeepsInv(cfg, s, e.at);
  }

  lemma StepFits(cfg: Config, s: State, clock: Time, e: Timed, u: UserId)
    requires Good(cfg, s, clock) && clock <= e.at && Stamped(e)
    ensures StampFits(cfg, Step(cfg, s, e), e.at, u)
  {
    assert StampFits(cfg, s, clock, u);
    match e.event
    case Push(entry) => UpsertIsFlatInsert(cfg, s, entry, e.at);
    case Delete(v) => RemoveIsFlatDelete(cfg, s, v);
    case Query(cells, exclude) => EvictedAt(cfg, s, cells, exclude, e.at, u);
    case Sweep =>
      SweepIsFlatFilter(cfg, s, e.at);
      StaleUsersAreFlat(cfg, s, e.at, u);
  }

  function Clock(run: seq<Timed>): Time {
    if run == [] then 0.0 else run[|run| - 1].at
  }

  /** The invariants hold in every state any run reaches. */
  lemma {:induction false} EveryRunIsGood(cfg: Config, run: seq<Timed>)
    requires Chronological(run)
    ensures Good(cfg, Exec(cfg, run), Clock(run))
  {
    if run != [] {
      var (init, e) := (run[..|run| - 1], run[|run| - 1]);
      EveryRunIsGood(cfg, init);
      StepKeepsInv(cfg, Exec(cfg, init), e);
      var clock := if init == [] then e.at else Clock(init);
      assert Good(cfg, Exec(cfg, init), clock);
      forall u ensures StampFits(cfg, Exec(cfg, run), e.at, u) {
        StepFits(cfg, Exec(cfg, init), clock, e, u);
      }
    }
  }

  lemma ChronologicalSnoc(run: seq<Timed>, e: Timed)
    requires Chronological(run) && Stamped(e) && (run != [] ==> run[|run| - 1].at <= e.at)
    ensures Chronological(run + [e])
  {
  }

  // ----- A pushed position is always represented -----

  /** After a push, written or suppressed, the user is live within the update distance of the
      position pushed. */
  lemma PushIsRepresented(cfg: Config, run: seq<Timed>, e: Timed)
    requires Chronological(run + [e]) && e.event.Push?
    requires cfg.updateInterval <= cfg.ttl
    requires cfg.geo.dist(e.event.entry.at, e.event.entry.at) < cfg.updateDistanceM
    ensures var (u, live) := (e.event.entry.userId, Live(cfg, Flat(Exec(cfg, run + [e])), e.at));
            u in live && cfg.geo.dist(live[u].at, e.event.entry.at) < cfg.updateDistanceM
  {
    var s := Exec(cfg, run);
    Extend(cfg, run, e);
    EveryRunIsGood(cfg, run);
    UpsertIsFlatInsert(cfg, s, e.event.entry, e.at);
    assert StampFits(cfg, s, Clock(run), e.event.entry.userId);
    if Suppressed(cfg, s, e.event.entry, e.at) {
      FlatUsersAreStamped(cfg, s, e.event.entry.userId);
    }
  }

  lemma Extend(cfg: Config, run: seq<Timed>, e: Timed)
    ensures Exec(cfg, run + [e]) == Step(cfg, Exec(cfg, run), e)
    ensures Chronological(run + [e]) ==> Chronological(run) && Stamped(e) && (run != [] ==> Clock(run) <= e.at)
  {
  }

  ghost predicate PushesNeverHide(cfg: Config) {
    forall run, e :: Chronological(run + [e]) && e.event.Push? ==>
      e.event.entry.userId in Live(cfg, Flat(Exec(cfg, run + [e])), e.at)
  }

  lemma NoDistance(geo: Geometry, p: Point)
    requires Metric(geo.dist)
    ensures geo.dist(p, p) == 0.0
  {
  }

  /** Nothing is ever suppressed without a positive update distance. */
  lemma WrittenPushIsLive(cfg: Config, run: seq<Timed>, e: Timed)
    requires Chronological(run + [e]) && e.event.Push? && Metric(cfg.geo.dist) && cfg.updateDistanceM <= 0.0
    ensures e.event.entry.userId in Live(cfg, Flat(Exec(cfg, run + [e])), e.at)
  {
  }

  /** A user is online right after every push of every run exactly when suppression is shorter
      than the TTL, or never happens at all. */
  lemma PushesNeverHideIff(cfg: Config)
    requires Metric(cfg.geo.dist)
    ensures PushesNeverHide(cfg) <==> cfg.updateInterval <= cfg.ttl || cfg.updateDistanceM <= 0.0
  {
    hide Metric, Chronological, Exec, Flat, Live;
    if cfg.updateInterval <= cfg.ttl || cfg.updateDistanceM <= 0.0 {
      forall run, e | Chronological(run + [e]) && e.event.Push?
        ensures e.event.entry.userId in Live(cfg, Flat(Exec(cfg, run + [e])), e.at)
      {
        if cfg.updateDistanceM <= 0.0 {
          WrittenPushIsLive(cfg, run, e);
        } else {
          assert cfg.geo.dist(e.event.entry.at, e.event.entry.at) == 0.0 by { NoDistance(cfg.geo, e.event.entry.at); }
          PushIsRepresented(cfg, run, e);
        }
      }
    } else {
      HiddenPush(cfg);
    }
  }

  /** With suppression longer than the TTL: push, wait past the TTL, push from the same place. */
  lemma HiddenPush(cfg: Config)
    requires Metric(cfg.geo.dist)
    requires cfg.updateInterval > cfg.ttl && cfg.updateDistanceM > 0.0
    ensures !PushesNeverHide(cfg)
  {
    var t := (cfg.ttl + cfg.updateInterval) / 2.0;
    var first := Entry("u", Point(0.0, 0.0), Profile(true, None, None, None, "gps"), 0.0);
    var second := first.(updatedAt := t);
    var (a, b) := (Timed(0.0, Push(first)), Timed(t, Push(second)));
    Extend(cfg, [], a);
    Extend(cfg, [a], b);
    EveryRunIsGood(cfg, []);
    UpsertIsFlatInsert(cfg, EMPTY, first, 0.0);
    assert [] + [a] == [a];
    ChronologicalSnoc([], a);
    ChronologicalSnoc([a], b);
    assert Suppressed(cfg, Exec(cfg, [a]), second, t);
    assert "u" !in Live(cfg, Flat(Exec(cfg, [a] + [b])), t);
  }

  ghost predicate PushesAreRepresented(cfg: Config) {
    forall run, e :: Chronological(run + [e]) && e.event.Push? ==>
      var (u, live) := (e.event.entry.userId, Live(cfg, Flat(Exec(cfg, run + [e])), e.at));
      u in live && cfg.geo.dist(live[u].at, e.event.entry.at) < cfg.updateDistanceM
  }

  /** After every push of every run the user is live within the update distance of the position pushed
      exactly when that distance is positive and suppression no longer than the TTL. */
  lemma PushesAreRepresentedIff(cfg: Config)
    requires Metric(cfg.geo.dist)
    ensures PushesAreRepresented(cfg) <==> cfg.updateInterval <= cfg.ttl && cfg.updateDistanceM > 0.0
  {
    hide Metric, Chronological, Exec, Flat, Live;
    if cfg.updateInterval <= cfg.ttl && cfg.updateDistanceM > 0.0 {
      forall run, e | Chronological(run + [e]) && e.event.Push?
        ensures var (u, live) := (e.event.entry.userId, Live(cfg, Flat(Exec(cfg, run + [e])), e.at));
                u in live && cfg.geo.dist(live[u].at, e.event.entry.at) < cfg.updateDistanceM
      {
        NoDistance(cfg.geo, e.event.entry.at);
        PushIsRepresented(cfg, run, e);
      }
    } else if cfg.updateDistanceM > 0.0 {
      HiddenPush(cfg);
      var run, e :| Chronological(run + [e]) && e.event.Push? &&
        e.event.entry.userId !in Live(cfg, Flat(Exec(cfg, run + [e])), e.at);
    } else {
      var e := Timed(0.0, Push(Entry("u", Point(0.0, 0.0), Profile(true, None, None, None, "gps"), 0.0)));
      assert Chronological([]) by { EmptyIsChronological(); }
      ChronologicalSnoc([], e);
      assert forall p, q :: cfg.geo.dist(p, q) >= 0.0 by { DistancesAreNonNegative(cfg.geo); }
      assert Chronological([] + [e]) && e.event.Push?;
    }
  }

  lemma EmptyIsChronological()
    ensures Chronological([])
  {
  }

  lemma DistancesAreNonNegative(geo: Geometry)
    requires Metric(geo.dist)
    ensures forall p, q :: geo.dist(p, q) >= 0.0
  {
  }

  // ----- Regular pushes keep a user online -----

  predicate PushOf(e: Timed, u: UserId) {
    e.event.Push? && e.event.entry.userId == u
  }

  function LastPush(run: seq<Timed>, u: UserId): Option<Stamp> {
    if run == [] then None
    else
      var e := run[|run| - 1];
      if PushOf(e, u) then Some(Stamp(e.at, e.event.entry.at))
      else LastPush(run[..|run| - 1], u)
  }

  predicate NeverDeletes(run: seq<Timed>, u: UserId) {
    forall e :: e in run ==> e.event != Delete(u)
  }

  /** From the first push on, nothing happens later than `gap` after the latest push. */
  predicate PushedEvery(run: seq<Timed>, u: UserId, gap: Duration) {
    run != [] ==>
      var init := run[..|run| - 1];
      && PushedEvery(init, u, gap)
      && (LastPush(init, u).Some? ==> run[|run| - 1].at <= LastPush(init, u).value.time + gap)
  }

  /** By how much the filed entry can lag behind the latest push: not at all if no push of the run is
      suppressed after time has passed, and by the suppression interval otherwise. */
  predicate LagsBy(cfg: Config, gap: Duration, lag: Duration) {
    lag == cfg.updateInterval || (lag == 0.0 && (gap == 0.0 || cfg.updateDistanceM <= 0.0))
  }

  /** Someone who pushes at gaps of at most `gap`, with `gap` plus the lag within the TTL, is online until
      `gap` after the latest push, whatever queries and sweeps do. */
  lemma StaysOnline(cfg: Config, run: seq<Timed>, u: UserId, gap: Duration, lag: Duration, t: Time)
    requires Chronological(run) && NeverDeletes(run, u) && PushedEvery(run, u, gap)
    requires LagsBy(cfg, gap, lag) && gap + lag <= cfg.ttl && (lag == cfg.updateInterval || Metric(cfg.geo.dist))
    requires LastPush(run, u).Some? && Clock(run) <= t <= LastPush(run, u).value.time + gap
    ensures u in Live(cfg, Flat(Exec(cfg, run)), t)
  {
    EntrySurvives(cfg, run, u, gap, lag);
  }

  lemma {:induction false} EntrySurvives(cfg: Config, run: seq<Timed>, u: UserId, gap: Duration, lag: Duration)
    requires Chronological(run) && NeverDeletes(run, u) && PushedEvery(run, u, gap)
    requires LagsBy(cfg, gap, lag) && gap + lag <= cfg.ttl && (lag == cfg.updateInterval || Metric(cfg.geo.dist))
    ensures LastPush(run, u).None? ==> u !in Exec(cfg, run).suppression
    ensures LastPush(run, u).Some? ==>
              && u in Flat(Exec(cfg, run))
              && LastPush(run, u).value.time - Flat(Exec(cfg, run))[u].updatedAt <= lag
  {
    if run != [] {
      hide Metric, Step, Flat;
      var (init, e) := (run[..|run| - 1], run[|run| - 1]);
      assert e in run && forall x :: x in init ==> x in run;
      EntrySurvives(cfg, init, u, gap, lag);
      EveryRunIsGood(cfg, init);
      var s := Exec(cfg, init);
      if PushOf(e, u) {
        if lag != cfg.updateInterval { DistancesAreNonNegative(cfg.geo); }
        PushStep(cfg, s, e, u);
        assert StampFits(cfg, s, Clock(init), u);
      } else {
        OtherStep(cfg, s, e, u);
      }
    }
  }

  /** A push files the pushed entry, or is suppressed and leaves the old one. */
  lemma PushStep(cfg: Config, s: State, e: Timed, u: UserId)
    requires Inv(cfg, s) && PushOf(e, u) && Stamped(e)
    ensures var s' := Step(cfg, s, e);
            if Suppressed(cfg, s, e.event.entry, e.at) then s' == s
            else u in Flat(s') && Flat(s')[u].updatedAt == e.at
  {
    UpsertIsFlatInsert(cfg, s, e.event.entry, e.at);
  }

  /** Nothing but a deletion takes away an entry that is not stale, and only a push makes a stamp. */
  lemma OtherStep(cfg: Config, s: State, e: Timed, u: UserId)
    requires Inv(cfg, s) && !PushOf(e, u) && e.event != Delete(u)
    ensures var s' := Step(cfg, s, e);
            && (u in Flat(s) && !Stale(cfg, Flat(s)[u], e.at) ==> u in Flat(s') && Flat(s')[u] == Flat(s)[u])
            && (u in s'.suppression ==> u in s.suppression)
  {
    match e.event
    case Push(entry) => UpsertIsFlatInsert(cfg, s, entry, e.at);
    case Delete(v) => RemoveIsFlatDelete(cfg, s, v);
    case Query(cells, exclude) => EvictedAt(cfg, s, cells, exclude, e.at, u);
    case Sweep => SweepIsFlatFilter(cfg, s, e.at);
  }

  // ----- Exactly which gaps keep a user online -----

  /** Whoever pushes at gaps of at most `gap` is online until `gap` after the latest push, in every run. */
  ghost predicate GapKeepsOnline(cfg: Config, gap: Duration) {
    forall run, u, t ::
      && Chronological(run) && NeverDeletes(run, u) && PushedEvery(run, u, gap)
      && LastPush(run, u).Some? && Clock(run) <= t <= LastPush(run, u).value.time + gap
      ==> u in Live(cfg, Flat(Exec(cfg, run)), t)
  }

  /** That is so exactly if all pushes come at once, or the gap and the suppression interval together stay
      within the TTL, or nothing is suppressed and the gap does. */
  lemma GapKeepsOnlineIff(cfg: Config, gap: Duration)
    requires Metric(cfg.geo.dist)
    ensures GapKeepsOnline(cfg, gap) <==>
            || gap == 0.0
            || gap + cfg.updateInterval <= cfg.ttl
            || (cfg.updateDistanceM <= 0.0 && gap <= cfg.ttl)
  {
    hide Metric, Chronological, NeverDeletes, PushedEvery, LastPush, Exec, Live, Flat, Clock;
    if gap == 0.0 || gap + cfg.updateInterval <= cfg.ttl || (cfg.updateDistanceM <= 0.0 && gap <= cfg.ttl) {
      var lag: Duration := if gap + cfg.updateInterval <= cfg.ttl then cfg.updateInterval else 0.0;
      forall run, u, t | && Chronological(run) && NeverDeletes(run, u) && PushedEvery(run, u, gap)
                         && LastPush(run, u).Some? && Clock(run) <= t <= LastPush(run, u).value.time + gap
        ensures u in Live(cfg, Flat(Exec(cfg, run)), t)
      {
        StaysOnline(cfg, run, u, gap, lag, t);
      }
    } else {
      var run, t := LostBetweenPushes(cfg, gap);
      assert "u" !in Live(cfg, Flat(Exec(cfg, run)), t);
    }
  }

  function PushAt(t: Time): Timed {
    Timed(t, Push(Entry("u", Point(0.0, 0.0), Profile(true, None, None, None, "gps"), t)))
  }

  /** The time `n` steps take. */
  function Span(step: Duration, n: nat): Duration {
    if n == 0 then 0.0 else Span(step, n - 1) + step
  }

  lemma {:induction false} SpanIsProduct(step: Duration, n: nat)
    ensures Span(step, n) == n as real * step
  {
    if n > 0 {
      SpanIsProduct(step, n - 1);
    }
  }

  /** Pushes from one place, `step` apart. */
  function Spaced(step: Duration, n: nat): seq<Timed> {
    if n == 0 then [] + [PushAt(0.0)] else Spaced(step, n - 1) + [PushAt(Span(step, n))]
  }

  lemma PushSnoc(run: seq<Timed>, e: Timed, u: UserId, gap: Duration)
    requires PushOf(e, u) && NeverDeletes(run, u) && PushedEvery(run, u, gap)
    requires LastPush(run, u).Some? ==> e.at <= LastPush(run, u).value.time + gap
    ensures NeverDeletes(run + [e], u) && PushedEvery(run + [e], u, gap)
    ensures LastPush(run + [e], u) == Some(Stamp(e.at, e.event.entry.at)) && Clock(run + [e]) == e.at
  {
    assert (run + [e])[..|run|] == run;
  }

  lemma {:induction false} SpacedPushes(gap: Duration, step: Duration, n: nat)
    requires step <= gap
    ensures var run := Spaced(step, n);
            && Chronological(run) && NeverDeletes(run, "u") && PushedEvery(run, "u", gap)
            && run != [] && Clock(run) == Span(step, n)
            && LastPush(run, "u") == Some(Stamp(Span(step, n), Point(0.0, 0.0)))
  {
    NobodyPushed("u", gap);
    hide Chronological, NeverDeletes, PushedEvery, LastPush;
    if n == 0 {
      ChronologicalSnoc([], PushAt(0.0));
      PushSnoc([], PushAt(0.0), "u", gap);
    } else {
      SpacedPushes(gap, step, n - 1);
      ChronologicalSnoc(Spaced(step, n - 1), PushAt(Span(step, n)));
      PushSnoc(Spaced(step, n - 1), PushAt(Span(step, n)), "u", gap);
    }
  }

  lemma NobodyPushed(u: UserId, gap: Duration)
    ensures Chronological([]) && NeverDeletes([], u) && PushedEvery([], u, gap) && LastPush([], u).None?
  {
  }

  /** Suppressed all along, they leave the first entry where it is. */
  lemma {:induction false} SpacedLeavesFirst(cfg: Config, step: Duration, n: nat)
    requires Metric(cfg.geo.dist) && cfg.updateDistanceM > 0.0
    requires n > 0 ==> Span(step, n) < cfg.updateInterval
    ensures Exec(cfg, Spaced(step, n)) == Upserted(cfg, EMPTY, PushAt(0.0).event.entry, 0.0)
  {
    hide Chronological, Metric, Exec;
    if n == 0 {
      Extend(cfg, [], PushAt(0.0));
      NothingRun(cfg);
    } else {
      var (init, e) := (Spaced(step, n - 1), PushAt(Span(step, n)));
      SpacedLeavesFirst(cfg, step, n - 1);
      Extend(cfg, init, e);
      NoDistance(cfg.geo, Point(0.0, 0.0));
      assert Suppressed(cfg, Exec(cfg, init), e.event.entry, e.at);
    }
  }

  lemma NothingRun(cfg: Config)
    ensures Exec(cfg, []) == EMPTY
  {
  }

  /** Suppressed pushes and then the longest gap make the filed entry older than the TTL. */
  lemma LostBetweenPushes(cfg: Config, gap: Duration) returns (run: seq<Timed>, t: Time)
    requires Metric(cfg.geo.dist) && gap > 0.0 && gap + cfg.updateInterval > cfg.ttl
    requires cfg.updateDistanceM > 0.0 || gap > cfg.ttl
    ensures Chronological(run) && NeverDeletes(run, "u") && PushedEvery(run, "u", gap)
    ensures LastPush(run, "u").Some? && Clock(run) <= t <= LastPush(run, "u").value.time + gap
    ensures "u" !in Live(cfg, Flat(Exec(cfg, run)), t)
  {
    if gap > cfg.ttl {
      run, t := [] + [PushAt(0.0)], gap;
      Extend(cfg, [], PushAt(0.0));
      ChronologicalSnoc([], PushAt(0.0));
      assert run[..0] == [];
    } else {
      var x := (cfg.ttl - gap + cfg.updateInterval) / 2.0;
      var n, step := Divided(x, gap);
      SpanIsProduct(step, n);
      SpacedPushes(gap, step, n);
      SpacedLeavesFirst(cfg, step, n);
      run, t := Spaced(step, n), x + gap;
    }
    EveryRunIsGood(cfg, []);
    UpsertIsFlatInsert(cfg, EMPTY, PushAt(0.0).event.entry, 0.0);
  }

  lemma Divided(x: real, gap: real) returns (n: nat, step: Duration)
    requires x > 0.0 && gap > 0.0
    ensures n > 0 && n as real * step == x && step <= gap
  {
    n := (x / gap).Floor + 1;
    step := x / n as real;
    QuotientBelow(x, n as real, gap);
    QuotientBelow(x, gap, n as real);
  }

  // ----- How often one user can write -----

  predicate WriteOf(cfg: Config, s: State, e: Timed, u: UserId) {
    PushOf(e, u) && !Suppressed(cfg, s, e.event.entry, e.at)
  }

  function Writes(cfg: Config, run: seq<Timed>, u: UserId): nat {
    if run == [] then 0
    else
      var (init, e) := (run[..|run| - 1], run[|run| - 1]);
      Writes(cfg, init, u) + if WriteOf(cfg, Exec(cfg, init), e, u) then 1 else 0
  }

  function FirstPush(run: seq<Timed>, u: UserId): Option<Stamp> {
    if run == [] then None
    else
      var (init, e) := (run[..|run| - 1], run[|run| - 1]);
      if FirstPush(init, u).None? && PushOf(e, u) then Some(Stamp(e.at, e.event.entry.at)) else FirstPush(init, u)
  }

  /** The length of the path through all positions the user pushed, suppressed ones included. */
  function PathLength(cfg: Config, run: seq<Timed>, u: UserId): real {
    if run == [] then 0.0
    else
      var (init, e) := (run[..|run| - 1], run[|run| - 1]);
      PathLength(cfg, init, u) +
      if PushOf(e, u) && LastPush(init, u).Some? then cfg.geo.dist(LastPush(init, u).value.at, e.event.entry.at)
          else 0.0
  }

  function LastWrite(cfg: Config, run: seq<Timed>, u: UserId): Option<Stamp> {
    if run == [] then None
    else
      var (init, e) := (run[..|run| - 1], run[|run| - 1]);
      if WriteOf(cfg, Exec(cfg, init), e, u) then Some(Stamp(e.at, e.event.entry.at)) else LastWrite(cfg, init, u)
  }

  /** The part of the path after the latest write. */
  function PathSince(cfg: Config, run: seq<Timed>, u: UserId): real {
    if run == [] then 0.0
    else
      var (init, e) := (run[..|run| - 1], run[|run| - 1]);
      if !PushOf(e, u) then PathSince(cfg, init, u)
      else if WriteOf(cfg, Exec(cfg, init), e, u) || LastPush(init, u).None? then 0.0
      else PathSince(cfg, init, u) + cfg.geo.dist(LastPush(init, u).value.at, e.event.entry.at)
  }

  /** The user's stamp is the latest write, or was swept away after the TTL. */
  predicate StampIsLastWrite(cfg: Config, run: seq<Timed>, u: UserId) {
    var (s, w) := (Exec(cfg, run), LastWrite(cfg, run, u));
    && (w.Some? <==> LastPush(run, u).Some?)
    && (w.None? ==> u !in s.suppression && FirstPush(run, u).None? && Writes(cfg, run, u) == 0)
    && (w.Some? ==>
          && FirstPush(run, u).Some? && w.value.time <= LastPush(run, u).value.time <= Clock(run)
          && (if u in s.suppression then s.suppression[u] == w.value else Clock(run) - w.value.time > cfg.ttl))
  }

  lemma {:induction false} StampsAreLastWrites(cfg: Config, run: seq<Timed>, u: UserId)
    requires Chronological(run) && NeverDeletes(run, u)
    ensures StampIsLastWrite(cfg, run, u)
  {
    if run != [] {
      var (init, e) := (run[..|run| - 1], run[|run| - 1]);
      assert forall x :: x in init ==> x in run;
      StampsAreLastWrites(cfg, init, u);
      EveryRunIsGood(cfg, init);
      if e.event.Sweep? {
        StaleUsersAreFlat(cfg, Exec(cfg, init), e.at, u);
        assert StampFits(cfg, Exec(cfg, init), Clock(init), u);
      }
    }
  }

  ghost predicate RateHolds(cfg: Config, run: seq<Timed>, u: UserId)
    requires cfg.updateInterval > 0.0 && cfg.updateDistanceM > 0.0
    requires LastWrite(cfg, run, u).Some? && FirstPush(run, u).Some? && LastPush(run, u).Some?
  {
    var (w, p) := (LastWrite(cfg, run, u).value, LastPush(run, u).value);
    && cfg.geo.dist(w.at, p.at) <= PathSince(cfg, run, u)
    && Writes(cfg, run, u) as real - 1.0 <= (w.time - FirstPush(run, u).value.time) / cfg.updateInterval
         + (PathLength(cfg, run, u) - PathSince(cfg, run, u)) / cfg.updateDistanceM
  }

  lemma {:induction false} RateOverRun(cfg: Config, run: seq<Timed>, u: UserId)
    requires Chronological(run) && NeverDeletes(run, u) && Metric(cfg.geo.dist)
    requires 0.0 < cfg.updateInterval <= cfg.ttl && cfg.updateDistanceM > 0.0
    ensures StampIsLastWrite(cfg, run, u)
    ensures LastPush(run, u).Some? ==> RateHolds(cfg, run, u)
  {
    StampsAreLastWrites(cfg, run, u);
    if run != [] && LastPush(run, u).Some? {
      var (init, e) := (run[..|run| - 1], run[|run| - 1]);
      assert forall x :: x in init ==> x in run;
      RateOverRun(cfg, init, u);
      if PushOf(e, u) {
        assert init + [e] == run;
        if LastPush(init, u).Some? {
          RateAfterNext(cfg, init, e, u);
        } else {
          RateAfterFirst(cfg, init, e, u);
        }
      }
    }
  }

  /** What a further push does to the quantities above. */
  lemma AfterPush(cfg: Config, init: seq<Timed>, e: Timed, u: UserId)
    requires PushOf(e, u)
    ensures var (run, q, write) := (init + [e], e.event.entry.at, WriteOf(cfg, Exec(cfg, init), e, u));
            && LastPush(run, u) == Some(Stamp(e.at, q))
            && FirstPush(run, u) == (if FirstPush(init, u).None? then Some(Stamp(e.at, q)) else FirstPush(init, u))
            && LastWrite(cfg, run, u) == (if write then Some(Stamp(e.at, q)) else LastWrite(cfg, init, u))
            && Writes(cfg, run, u) == Writes(cfg, init, u) + (if write then 1 else 0)
            && (var leg := if LastPush(init, u).Some? then cfg.geo.dist(LastPush(init, u).value.at, q) else 0.0;
                && PathLength(cfg, run, u) == PathLength(cfg, init, u) + leg
                 && PathSince(cfg, run, u) ==
                      if write || LastPush(init, u).None? then 0.0 else PathSince(cfg, init, u) + leg)
  {
  }

  /** A write that is not the first comes an interval after the one before, or a distance away. */
  lemma WriteNeedsReason(cfg: Config, init: seq<Timed>, e: Timed, u: UserId)
    requires cfg.updateInterval <= cfg.ttl && (init != [] ==> Clock(init) <= e.at)
    requires StampIsLastWrite(cfg, init, u) && LastWrite(cfg, init, u).Some?
    requires WriteOf(cfg, Exec(cfg, init), e, u)
    ensures var w := LastWrite(cfg, init, u).value;
            e.at - w.time >= cfg.updateInterval || cfg.geo.dist(w.at, e.event.entry.at) >= cfg.updateDistanceM
    ensures init != [] && LastWrite(cfg, init, u).value.time <= e.at
  {
  }

  lemma {:induction false} NoPathBeforeFirstPush(cfg: Config, run: seq<Timed>, u: UserId)
    requires LastPush(run, u).None?
    ensures PathLength(cfg, run, u) == 0.0
  {
    if run != [] {
      NoPathBeforeFirstPush(cfg, run[..|run| - 1], u);
    }
  }

  lemma RateAfterFirst(cfg: Config, init: seq<Timed>, e: Timed, u: UserId)
    requires Metric(cfg.geo.dist) && PushOf(e, u)
    requires cfg.updateInterval > 0.0 && cfg.updateDistanceM > 0.0
    requires StampIsLastWrite(cfg, init, u) && LastPush(init, u).None?
    ensures LastWrite(cfg, init + [e], u).Some? && FirstPush(init + [e], u).Some? && LastPush(init + [e], u).Some?
    ensures RateHolds(cfg, init + [e], u)
  {
    AfterPush(cfg, init, e, u);
    NoPathBeforeFirstPush(cfg, init, u);
    ZeroQuotient(cfg.updateInterval);
    ZeroQuotient(cfg.updateDistanceM);
  }

  lemma RateAfterNext(cfg: Config, init: seq<Timed>, e: Timed, u: UserId)
    requires Metric(cfg.geo.dist) && PushOf(e, u) && (init != [] ==> Clock(init) <= e.at)
    requires 0.0 < cfg.updateInterval <= cfg.ttl && cfg.updateDistanceM > 0.0
    requires StampIsLastWrite(cfg, init, u) && LastPush(init, u).Some? && RateHolds(cfg, init, u)
    ensures LastWrite(cfg, init + [e], u).Some? && FirstPush(init + [e], u).Some? && LastPush(init + [e], u).Some?
    ensures RateHolds(cfg, init + [e], u)
  {
    AfterPush(cfg, init, e, u);
    var (w, p, q) := (LastWrite(cfg, init, u).value, LastPush(init, u).value, e.event.entry.at);
    assert cfg.geo.dist(w.at, q) <= cfg.geo.dist(w.at, p.at) + cfg.geo.dist(p.at, q);
    if WriteOf(cfg, Exec(cfg, init), e, u) {
      WriteNeedsReason(cfg, init, e, u);
      hide LastPush, FirstPush, LastWrite, Writes, PathLength, PathSince, WriteOf, Exec, StampIsLastWrite, Clock;
      var (first, upTo) := (FirstPush(init, u).value.time, PathLength(cfg, init, u) - PathSince(cfg, init, u));
      OneMoreWrite(w.time - first, e.at - first, cfg.updateInterval,
                   upTo, PathLength(cfg, init + [e], u), cfg.updateDistanceM);
    } else {
      hide LastPush, FirstPush, LastWrite, Writes, PathLength, PathSince, WriteOf, Exec, StampIsLastWrite, Clock;
      assert PathLength(cfg, init + [e], u) - PathSince(cfg, init + [e], u)
          == PathLength(cfg, init, u) - PathSince(cfg, init, u);
    }
  }

  lemma ZeroQuotient(k: real)
    requires k > 0.0
    ensures 0.0 / k == 0.0
  {
  }

  /** A write after the interval, or after the distance, pays for itself. */
  lemma OneMoreWrite(t: real, t': real, interval: real, path: real, path': real, distance: real)
    requires interval > 0.0 && distance > 0.0 && t <= t' && path <= path'
    requires t' - t >= interval || path' - path >= distance
    ensures t' / interval + path' / distance >= t / interval + path / distance + 1.0
  {
    QuotientGrows(t, t', interval);
    QuotientGrows(path, path', distance);
  }

  lemma QuotientGrows(x: real, y: real, k: real)
    requires k > 0.0 && x <= y
    ensures x / k <= y / k
    ensures y - x >= k ==> x / k + 1.0 <= y / k
  {
    QuotientTimes(x, k);
    LeQuotient(k, x / k, y);
    if y - x >= k {
      Distributes(x / k, 1.0, k);
      assert 1.0 * k == k;
      LeQuotient(k, x / k + 1.0, y);
    }
  }

  /** Without deletions a user's accepted writes number at most one more than the elapsed time in
      suppression intervals plus the path travelled in update distances. */
  lemma WriteRateBound(cfg: Config, run: seq<Timed>, u: UserId)
    requires Chronological(run) && NeverDeletes(run, u) && Metric(cfg.geo.dist)
    requires 0.0 < cfg.updateInterval <= cfg.ttl && cfg.updateDistanceM > 0.0
    requires LastPush(run, u).Some?
    ensures FirstPush(run, u).Some?
    ensures Writes(cfg, run, u) as real - 1.0 <=
              (LastPush(run, u).value.time - FirstPush(run, u).value.time) / cfg.updateInterval
            + PathLength(cfg, run, u) / cfg.updateDistanceM
  {
    RateOverRun(cfg, run, u);
    var (w, p, first) := (LastWrite(cfg, run, u).value, LastPush(run, u).value, FirstPush(run, u).value);
    assert cfg.geo.dist(w.at, p.at) >= 0.0;
    QuotientGrows(w.time - first.time, p.time - first.time, cfg.updateInterval);
    QuotientGrows(PathLength(cfg, run, u) - PathSince(cfg, run, u), PathLength(cfg, run, u), cfg.updateDistanceM);
  }

  ghost predicate WriteRateHolds(cfg: Config)
    requires cfg.updateInterval > 0.0 && cfg.updateDistanceM > 0.0
  {
    forall run, u :: Chronological(run) && NeverDeletes(run, u) && LastPush(run, u).Some? ==>
      && FirstPush(run, u).Some?
      && Writes(cfg, run, u) as real - 1.0 <=
           (LastPush(run, u).value.time - FirstPush(run, u).value.time) / cfg.updateInterval
         + PathLength(cfg, run, u) / cfg.updateDistanceM
  }

  /** The bound holds of every such run exactly if suppression is no longer than the TTL: otherwise a sweep
      in between forgets the stamp, and a second push from the same place is written too soon. */
  lemma WriteRateHoldsIff(cfg: Config)
    requires cfg.updateInterval > 0.0 && cfg.updateDistanceM > 0.0 && Metric(cfg.geo.dist)
    ensures WriteRateHolds(cfg) <==> cfg.updateInterval <= cfg.ttl
  {
    if cfg.updateInterval <= cfg.ttl {
      hide Chronological, NeverDeletes, LastPush, FirstPush, Writes, PathLength, Metric;
      forall run, u | Chronological(run) && NeverDeletes(run, u) && LastPush(run, u).Some?
        ensures FirstPush(run, u).Some?
        ensures Writes(cfg, run, u) as real - 1.0 <=
                  (LastPush(run, u).value.time - FirstPush(run, u).value.time) / cfg.updateInterval
                + PathLength(cfg, run, u) / cfg.updateDistanceM
      {
        WriteRateBound(cfg, run, u);
      }
    } else {
      var run := WrittenTooSoon(cfg);
      assert Chronological(run) && NeverDeletes(run, "u") && LastPush(run, "u").Some?;
    }
  }

  /** Push, sweep past the TTL, push from the same place before the suppression interval is over. */
  lemma WrittenTooSoon(cfg: Config) returns (run: seq<Timed>)
    requires cfg.updateInterval > 0.0 && cfg.updateDistanceM > 0.0 && Metric(cfg.geo.dist)
    requires cfg.updateInterval > cfg.ttl
    ensures Chronological(run) && NeverDeletes(run, "u") && LastPush(run, "u").Some? && FirstPush(run, "u").Some?
    ensures Writes(cfg, run, "u") as real - 1.0 >
              (LastPush(run, "u").value.time - FirstPush(run, "u").value.time) / cfg.updateInterval
            + PathLength(cfg, run, "u") / cfg.updateDistanceM
  {
    var t := (cfg.ttl + cfg.updateInterval) / 2.0;
    var (a, b, c) := (PushAt(0.0), Timed(t, Sweep), PushAt(t));
    AfterSweep(cfg, a.event.entry, t);
    NoDistance(cfg.geo, Point(0.0, 0.0));
    ZeroQuotient(cfg.updateDistanceM);
    QuotientBelow(t, 1.0, cfg.updateInterval);
    EmptyIsChronological();
    ChronologicalSnoc([], a);
    ChronologicalSnoc([a], b);
    ChronologicalSnoc([a] + [b], c);
    assert [] + [a] == [a] && [a][..0] == [] && ([a] + [b])[..1] == [a];
    AfterPush(cfg, [], a, "u");
    AfterQuiet(cfg, [a], b, "u");
    AfterPush(cfg, [a] + [b], c, "u");
    run := [a] + [b] + [c];
    assert !Suppressed(cfg, Exec(cfg, []), a.event.entry, 0.0);
  }

  /** An event that is no push of the user's changes none of the quantities above. */
  lemma AfterQuiet(cfg: Config, init: seq<Timed>, e: Timed, u: UserId)
    requires !PushOf(e, u)
    ensures var run := init + [e];
            && LastPush(run, u) == LastPush(init, u) && FirstPush(run, u) == FirstPush(init, u)
            && Writes(cfg, run, u) == Writes(cfg, init, u) && PathLength(cfg, run, u) == PathLength(cfg, init, u)
  {
    assert (init + [e])[..|init|] == init;
  }

  lemma AfterSweep(cfg: Config, first: Entry, t: Time)
    requires first.updatedAt == 0.0 && t > cfg.ttl
    ensures var (a, b) := (Timed(0.0, Push(first)), Timed(t, Sweep));
            var s := Exec(cfg, [a] + [b]);
            Inv(cfg, s) && forall e: Entry :: e.userId == first.userId ==> !Suppressed(cfg, s, e, t)
  {
    var (a, b) := (Timed(0.0, Push(first)), Timed(t, Sweep));
    Extend(cfg, [], a);
    Extend(cfg, [a], b);
    assert [] + [a] == [a] && [a][..0] == [] && ([a] + [b])[..1] == [a];
    UpsertedKeepsInv(cfg, EMPTY, first, 0.0);
    UpsertIsFlatInsert(cfg, EMPTY, first, 0.0);
    SweptKeepsInv(cfg, Exec(cfg, [a]), t);
    StaleUsersAreFlat(cfg, Exec(cfg, [a]), t, first.userId);
  }
}
