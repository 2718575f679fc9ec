/** Upserts and removals at lock granularity: each step is what one operation does while it holds
    its locks, steps of different users interleave freely, and each user has at most one operation
    in flight. Between steps nothing is locked; in particular an upsert that finds its cell missing
    lets go of the outer map before it takes it again to create the cell. */
module Interleaving {
  import opened Grid
  import opened LocationStore
  import opened StoreRuns

  /** Where a user's operation stands. */
  datatype Pc =
    | Idle
    | Checking(entry: Entry, now: Time)
    | ReadingIndex(entry: Entry, now: Time)
    | LeavingOld(entry: Entry, now: Time, from: ShardKey)
    | Inserting(entry: Entry, now: Time)
    | Creating(entry: Entry, now: Time)
    | WritingIndex(entry: Entry, now: Time)
    | WritingStamp(entry: Entry, now: Time)
    | RemovalStarting
    | Unfiling(key: ShardKey)
    | Unindexing
    | Unstamping

  /** The shared maps, every user's operation, and the operations completed so far, in order. */
  datatype System = System(store: State, pcs: map<UserId, Pc>, done: seq<Timed>)

  datatype Action = BeginUpsert(entry: Entry, now: Time) | BeginRemove(user: UserId) | Advance(user: UserId)

  function PcOf(sys: System, u: UserId): Pc {
    if u in sys.pcs then sys.pcs[u] else Idle
  }

  function Goto(sys: System, u: UserId, store: State, pc: Pc): System {
    System(store, sys.pcs[u := pc], sys.done)
  }

  function Finish(sys: System, u: UserId, store: State, e: Timed): System {
    System(store, sys.pcs[u := Idle], sys.done + [e])
  }

  function Advanced(cfg: Config, sys: System, u: UserId): System {
    var s := sys.store;
    match PcOf(sys, u)
    case Idle => sys
    case Checking(e, now) =>
      if Suppressed(cfg, s, e, now) then Finish(sys, u, s, Timed(now, Push(e)))
      else Goto(sys, u, s, ReadingIndex(e, now))
    case ReadingIndex(e, now) =>
      if u in s.index && s.index[u] != KeyOf(cfg, e) then Goto(sys, u, s, LeavingOld(e, now, s.index[u]))
      else Goto(sys, u, s, Inserting(e, now))
    case LeavingOld(e, now, from) =>
      Goto(sys, u, s.(shards := Unfile(s.shards, from, u)), Inserting(e, now))
    case Inserting(e, now) =>
      if KeyOf(cfg, e) in s.shards then
        Goto(sys, u, s.(shards := File(s.shards, KeyOf(cfg, e), e)), WritingIndex(e, now))
      else Goto(sys, u, s, Creating(e, now))
    case Creating(e, now) =>
      Goto(sys, u, s.(shards := File(s.shards, KeyOf(cfg, e), e)), WritingIndex(e, now))
    case WritingIndex(e, now) =>
      Goto(sys, u, s.(index := s.index[u := KeyOf(cfg, e)]), WritingStamp(e, now))
    case WritingStamp(e, now) =>
      Finish(sys, u, s.(suppression := s.suppression[u := Stamp(now, e.at)]), Timed(now, Push(e)))
    case RemovalStarting =>
      if u !in s.index then Finish(sys, u, s, Timed(0.0, Delete(u)))
      else Goto(sys, u, s, Unfiling(s.index[u]))
    case Unfiling(key) =>
      Goto(sys, u, s.(shards := Unfile(s.shards, key, u)), Unindexing)
    case Unindexing =>
      Goto(sys, u, s.(index := s.index - {u}), Unstamping)
    case Unstamping =>
      Finish(sys, u, s.(suppression := s.suppression - {u}), Timed(0.0, Delete(u)))
  }

  /** A user whose operation is still in flight cannot begin another. */
  function Act(cfg: Config, sys: System, a: Action): System {
    match a
    case BeginUpsert(e, now) =>
      if PcOf(sys, e.userId).Idle? then Goto(sys, e.userId, sys.store, Checking(e, now)) else sys
    case BeginRemove(u) =>
      if PcOf(sys, u).Idle? then Goto(sys, u, sys.store, RemovalStarting) else sys
    case Advance(u) => Advanced(cfg, sys, u)
  }

  function Schedule(cfg: Config, actions: seq<Action>): System {
    if actions == [] then System(EMPTY, map[], [])
    else Act(cfg, Schedule(cfg, actions[..|actions| - 1]), actions[|actions| - 1])
  }

  // ----- One user's part of the store -----

  predicate Has(m: map<ShardKey, Shard>, k: ShardKey, u: UserId) {
    k in m && u in m[k]
  }

  /** Both file `u` in the same cells with the same entries. */
  ghost predicate SameFiling(m: map<ShardKey, Shard>, n: map<ShardKey, Shard>, u: UserId) {
    forall k :: (Has(m, k, u) <==> Has(n, k, u)) && (Has(m, k, u) ==> m[k][u] == n[k][u])
  }

  predicate SameLookup<T(==)>(m: map<UserId, T>, n: map<UserId, T>, u: UserId) {
    (u in m <==> u in n) && (u in m ==> m[u] == n[u])
  }

  ghost predicate SameView(s: State, t: State, u: UserId) {
    SameFiling(s.shards, t.shards, u) && SameLookup(s.index, t.index, u) && SameLookup(s.suppression, t.suppression, u)
  }

  /** `u` is filed with `e` in the cell of `e` and nowhere else. */
  ghost predicate FiledOnlyAs(cfg: Config, m: map<ShardKey, Shard>, u: UserId, e: Entry) {
    forall k :: (Has(m, k, u) <==> k == KeyOf(cfg, e)) && (Has(m, k, u) ==> m[k][u] == e)
  }

  /** How the shared maps look to `u` in mid-operation, against the store `t` in which `u`'s
      operation has not happened yet. */
  ghost predicate Agrees(cfg: Config, s: State, t: State, u: UserId, pc: Pc) {
    match pc
    case Idle => SameView(s, t, u)
    case Checking(e, now) => SameView(s, t, u) && e.userId == u
    case ReadingIndex(e, now) => SameView(s, t, u) && e.userId == u && !Suppressed(cfg, t, e, now)
    case LeavingOld(e, now, from) =>
      && SameView(s, t, u) && e.userId == u && !Suppressed(cfg, t, e, now)
      && u in t.index && t.index[u] == from != KeyOf(cfg, e)
    case Inserting(e, now) => HalfUpserted(cfg, s, t, u, e, now)
    case Creating(e, now) => HalfUpserted(cfg, s, t, u, e, now)
    case WritingIndex(e, now) =>
      && e.userId == u && !Suppressed(cfg, t, e, now) && FiledOnlyAs(cfg, s.shards, u, e)
      && SameLookup(s.index, t.index, u) && SameLookup(s.suppression, t.suppression, u)
    case WritingStamp(e, now) =>
      && e.userId == u && !Suppressed(cfg, t, e, now) && FiledOnlyAs(cfg, s.shards, u, e)
      && u in s.index && s.index[u] == KeyOf(cfg, e) && SameLookup(s.suppression, t.suppression, u)
    case RemovalStarting => SameView(s, t, u)
    case Unfiling(key) => SameView(s, t, u) && u in t.index && t.index[u] == key
    case Unindexing =>
      && (forall k :: !Has(s.shards, k, u)) && u in t.index
      && SameLookup(s.index, t.index, u) && SameLookup(s.suppression, t.suppression, u)
    case Unstamping =>
      && (forall k :: !Has(s.shards, k, u)) && u in t.index && u !in s.index &&
          SameLookup(s.suppression, t.suppression, u)
  }

  /** Gone from any other cell, not yet in its own, unless the old entry was there already. */
  ghost predicate HalfUpserted(cfg: Config, s: State, t: State, u: UserId, e: Entry, now: Time) {
    && e.userId == u && !Suppressed(cfg, t, e, now)
    && (forall k :: Has(s.shards, k, u) ==> k == KeyOf(cfg, e))
    && SameLookup(s.index, t.index, u) && SameLookup(s.suppression, t.suppression, u)
  }

  // ----- No step disturbs another user -----

  function Actor(a: Action): UserId {
    match a
    case BeginUpsert(e, _) => e.userId
    case BeginRemove(u) => u
    case Advance(u) => u
  }

  lemma FilingForOthers(m: map<ShardKey, Shard>, k: ShardKey, e: Entry, v: UserId)
    requires v != e.userId
    ensures SameFiling(File(m, k, e), m, v)
  {
  }

  lemma UnfilingForOthers(m: map<ShardKey, Shard>, k: ShardKey, u: UserId, v: UserId)
    requires v != u
    ensures SameFiling(Unfile(m, k, u), m, v)
  {
  }

  /** The user an in-flight upsert belongs to is the user of its entry. */
  predicate OwnEntry(pc: Pc, u: UserId) {
    match pc
    case Checking(e, _) => e.userId == u
    case ReadingIndex(e, _) => e.userId == u
    case LeavingOld(e, _, _) => e.userId == u
    case Inserting(e, _) => e.userId == u
    case Creating(e, _) => e.userId == u
    case WritingIndex(e, _) => e.userId == u
    case WritingStamp(e, _) => e.userId == u
    case _ => true
  }

  /** A step of one user's operation leaves every other user's entry, index and stamp alone, also
      when it creates a cell that someone else created meanwhile. */
  lemma OthersUndisturbed(cfg: Config, sys: System, a: Action, v: UserId)
    requires v != Actor(a) && OwnEntry(PcOf(sys, Actor(a)), Actor(a))
    ensures SameView(Act(cfg, sys, a).store, sys.store, v)
    ensures PcOf(Act(cfg, sys, a), v) == PcOf(sys, v)
  {
    var (s, u) := (sys.store, Actor(a));
    if a.Advance? {
      match PcOf(sys, u)
      case LeavingOld(_, _, from) => UnfilingForOthers(s.shards, from, u, v);
      case Inserting(e, _) => FilingForOthers(s.shards, KeyOf(cfg, e), e, v);
      case Creating(e, _) => FilingForOthers(s.shards, KeyOf(cfg, e), e, v);
      case Unfiling(key) => UnfilingForOthers(s.shards, key, u, v);
      case _ =>
    }
  }

  predicate EventOf(e: Timed, u: UserId) {
    (e.event.Push? && e.event.entry.userId == u) || e.event == Delete(u)
  }

  /** A step completes nothing, or one operation of its own user. */
  lemma Completes(cfg: Config, sys: System, a: Action)
    requires OwnEntry(PcOf(sys, Actor(a)), Actor(a))
    ensures var done := Act(cfg, sys, a).done;
            done == sys.done || (|done| == |sys.done| + 1 && done == sys.done + [done[|sys.done|]] &&
                EventOf(done[|sys.done|], Actor(a)))
  {
  }

  /** Nor does completing an operation change what the completed operations mean for others. */
  lemma DoneForOthers(cfg: Config, sys: System, a: Action, v: UserId)
    requires v != Actor(a) && OwnEntry(PcOf(sys, Actor(a)), Actor(a))
    ensures SameView(Exec(cfg, Act(cfg, sys, a).done), Exec(cfg, sys.done), v)
  {
    Completes(cfg, sys, a);
    var done := Act(cfg, sys, a).done;
    hide Act;
    if done != sys.done {
      var e := done[|sys.done|];
      Extend(cfg, sys.done, e);
      AtomicForOthers(cfg, Exec(cfg, sys.done), e, Actor(a), v);
    }
  }

  lemma AtomicForOthers(cfg: Config, t: State, e: Timed, u: UserId, v: UserId)
    requires v != u && EventOf(e, u)
    ensures SameView(Step(cfg, t, e), t, v)
  {
    if e.event.Push? {
      AtomicUpsertForOthers(cfg, t, e.event.entry, e.at, v);
    } else if u in t.index {
      UnfilingForOthers(t.shards, t.index[u], u, v);
    }
  }

  lemma AtomicUpsertForOthers(cfg: Config, t: State, e: Entry, now: Time, v: UserId)
    requires v != e.userId
    ensures SameView(Upserted(cfg, t, e, now), t, v)
  {
    var (u, key) := (e.userId, KeyOf(cfg, e));
    FilingForOthers(t.shards, key, e, v);
    if u in t.index {
      UnfilingForOthers(t.shards, t.index[u], u, v);
      FilingForOthers(Unfile(t.shards, t.index[u], u), key, e, v);
      FilingTransitive(File(Unfile(t.shards, t.index[u], u), key, e), Unfile(t.shards, t.index[u], u), t.shards, v);
    }
  }

  lemma FilingTransitive(l: map<ShardKey, Shard>, m: map<ShardKey, Shard>, n: map<ShardKey, Shard>, v: UserId)
    requires SameFiling(l, m, v) && SameFiling(m, n, v)
    ensures SameFiling(l, n, v)
  {
  }

  lemma AgreesTransfers(cfg: Config, s: State, t: State, s': State, t': State, v: UserId, pc: Pc)
    requires Agrees(cfg, s, t, v, pc) && SameView(s', s, v) && SameView(t', t, v)
    ensures Agrees(cfg, s', t', v, pc)
  {
  }

  // ----- A user's own steps follow the atomic operation -----

  lemma IndexedCellOnly(cfg: Config, t: State, u: UserId)
    requires Inv(cfg, t)
    ensures forall k :: Has(t.shards, k, u) ==> u in t.index && t.index[u] == k
  {
  }

  /** What an accepted atomic upsert leaves of its user. */
  lemma UpsertedView(cfg: Config, t: State, e: Entry, now: Time)
    requires Inv(cfg, t) && !Suppressed(cfg, t, e, now)
    ensures var t' := Upserted(cfg, t, e, now);
            && FiledOnlyAs(cfg, t'.shards, e.userId, e)
            && e.userId in t'.index && t'.index[e.userId] == KeyOf(cfg, e)
            && e.userId in t'.suppression && t'.suppression[e.userId] == Stamp(now, e.at)
  {
  }

  /** What an atomic removal of an indexed user leaves of it: nothing. */
  lemma RemovedView(cfg: Config, t: State, u: UserId)
    requires Inv(cfg, t) && u in t.index
    ensures var t' := Removed(t, u);
            (forall k :: !Has(t'.shards, k, u)) && u !in t'.index && u !in t'.suppression
  {
  }

  lemma FilingOwn(cfg: Config, m: map<ShardKey, Shard>, e: Entry)
    requires forall k :: Has(m, k, e.userId) ==> k == KeyOf(cfg, e)
    ensures FiledOnlyAs(cfg, File(m, KeyOf(cfg, e), e), e.userId, e)
  {
    var m' := File(m, KeyOf(cfg, e), e);
    forall k ensures Has(m', k, e.userId) <==> k == KeyOf(cfg, e) {
      assert k != KeyOf(cfg, e) ==> (Has(m', k, e.userId) <==> Has(m, k, e.userId));
    }
  }

  /** A step that completes the operation gives the user what the atomic operation gives. */
  lemma OwnLastStep(cfg: Config, sys: System, u: UserId)
    requires Inv(cfg, Exec(cfg, sys.done))
    requires Agrees(cfg, sys.store, Exec(cfg, sys.done), u, PcOf(sys, u))
    requires Advanced(cfg, sys, u).done != sys.done
    ensures SameView(Advanced(cfg, sys, u).store, Exec(cfg, Advanced(cfg, sys, u).done), u)
  {
    var t := Exec(cfg, sys.done);
    match PcOf(sys, u)
    case Checking(e, now) => Extend(cfg, sys.done, Timed(now, Push(e)));
    case WritingStamp(e, now) =>
      Extend(cfg, sys.done, Timed(now, Push(e)));
      UpsertedView(cfg, t, e, now);
    case RemovalStarting => Extend(cfg, sys.done, Timed(0.0, Delete(u)));
    case Unstamping =>
      Extend(cfg, sys.done, Timed(0.0, Delete(u)));
      RemovedView(cfg, t, u);
  }

  predicate Removing(pc: Pc) {
    pc.RemovalStarting? || pc.Unfiling? || pc.Unindexing? || pc.Unstamping?
  }

  lemma OwnUpsertStep(cfg: Config, sys: System, t: State, u: UserId)
    requires Inv(cfg, t) && Agrees(cfg, sys.store, t, u, PcOf(sys, u)) && !Removing(PcOf(sys, u))
    requires Advanced(cfg, sys, u).done == sys.done
    ensures Agrees(cfg, Advanced(cfg, sys, u).store, t, u, PcOf(Advanced(cfg, sys, u), u))
  {
    IndexedCellOnly(cfg, t, u);
    hide Inv, Suppressed;
    match PcOf(sys, u)
    case Inserting(e, now) => FilingOwn(cfg, sys.store.shards, e);
    case Creating(e, now) => FilingOwn(cfg, sys.store.shards, e);
    case _ =>
  }

  lemma OwnRemovalStep(cfg: Config, sys: System, t: State, u: UserId)
    requires Inv(cfg, t) && Agrees(cfg, sys.store, t, u, PcOf(sys, u)) && Removing(PcOf(sys, u))
    requires Advanced(cfg, sys, u).done == sys.done
    ensures Agrees(cfg, Advanced(cfg, sys, u).store, t, u, PcOf(Advanced(cfg, sys, u), u))
  {
  }

  /** Any other step of a user's operation keeps the shared maps in agreement with its progress. */
  lemma OwnStep(cfg: Config, sys: System, a: Action)
    requires Inv(cfg, Exec(cfg, sys.done))
    requires Agrees(cfg, sys.store, Exec(cfg, sys.done), Actor(a), PcOf(sys, Actor(a)))
    ensures var sys' := Act(cfg, sys, a);
            Agrees(cfg, sys'.store, Exec(cfg, sys'.done), Actor(a), PcOf(sys', Actor(a)))
  {
    var (t, u) := (Exec(cfg, sys.done), Actor(a));
    if a.Advance? {
      hide Agrees, Advanced;
      if Advanced(cfg, sys, u).done != sys.done {
        OwnLastStep(cfg, sys, u);
      } else if Removing(PcOf(sys, u)) {
        OwnRemovalStep(cfg, sys, t, u);
      } else {
        OwnUpsertStep(cfg, sys, t, u);
      }
    }
  }

  // ----- Every interleaving -----

  lemma {:induction false} AtomicRunsKeepInv(cfg: Config, run: seq<Timed>)
    ensures Inv(cfg, Exec(cfg, run))
  {
    if run != [] {
      AtomicRunsKeepInv(cfg, run[..|run| - 1]);
      StepKeepsInv(cfg, Exec(cfg, run[..|run| - 1]), run[|run| - 1]);
    }
  }

  /** In every interleaving, every user's part of the store is what the completed operations, run
      atomically one after the other, make of it, up to the user's own operation in flight. */
  lemma {:induction false} EveryInterleavingAgrees(cfg: Config, actions: seq<Action>, u: UserId)
    ensures var sys := Schedule(cfg, actions);
            Agrees(cfg, sys.store, Exec(cfg, sys.done), u, PcOf(sys, u))
  {
    if actions != [] {
      var (init, a) := (actions[..|actions| - 1], actions[|actions| - 1]);
      var sys := Schedule(cfg, init);
      EveryInterleavingAgrees(cfg, init, Actor(a));
      AtomicRunsKeepInv(cfg, sys.done);
      if u == Actor(a) {
        OwnStep(cfg, sys, a);
      } else {
        EveryInterleavingAgrees(cfg, init, u);
        OthersUndisturbed(cfg, sys, a, u);
        DoneForOthers(cfg, sys, a, u);
        var sys' := Act(cfg, sys, a);
        AgreesTransfers(cfg, sys.store, Exec(cfg, sys.done), sys'.store, Exec(cfg, sys'.done), u, PcOf(sys, u));
      }
    }
  }

  /** An idle user is in at most one cell, the cell of its entry, and the index points to it. */
  lemma IdleUserIsPlaced(cfg: Config, actions: seq<Action>, u: UserId, k: ShardKey)
    requires PcOf(Schedule(cfg, actions), u).Idle? && Has(Schedule(cfg, actions).store.shards, k, u)
    ensures Placed(cfg, Schedule(cfg, actions).store, k, u)
  {
    var sys := Schedule(cfg, actions);
    EveryInterleavingAgrees(cfg, actions, u);
    AtomicRunsKeepInv(cfg, sys.done);
    assert Has(Exec(cfg, sys.done).shards, k, u) && Placed(cfg, Exec(cfg, sys.done), k, u);
  }

  lemma SameViewKeepsPlace(cfg: Config, s: State, t: State, u: UserId)
    requires Inv(cfg, t) && SameView(s, t, u)
    ensures SameLookup(Flat(s), Flat(t), u) && (u in s.index <==> u in s.suppression)
    ensures forall k :: Has(s.shards, k, u) ==> Placed(cfg, s, k, u)
  {
  }

  /** A store in which every user sees what they see in a well-formed one is well-formed and holds the
      same flat map. */
  lemma SameViewsAgree(cfg: Config, s: State, t: State)
    requires Inv(cfg, t) && forall u :: SameView(s, t, u)
    ensures Inv(cfg, s) && Flat(s) == Flat(t)
  {
    hide SameView, Flat, Placed;
    forall u ensures (u in Flat(s) <==> u in Flat(t)) && (u in Flat(s) ==> Flat(s)[u] == Flat(t)[u])
             ensures u in s.index <==> u in s.suppression
    {
      SameViewKeepsPlace(cfg, s, t, u);
    }
    assert Flat(s) == Flat(t) && s.index.Keys == s.suppression.Keys;
    forall k, u | k in s.shards && u in s.shards[k] ensures Placed(cfg, s, k, u) {
      SameViewKeepsPlace(cfg, s, t, u);
      assert Has(s.shards, k, u);
    }
  }

  /** When nothing is in flight the invariant holds and the flat map is that of the completed
      operations run atomically. */
  lemma QuiescentIsAtomic(cfg: Config, actions: seq<Action>)
    requires forall u :: PcOf(Schedule(cfg, actions), u).Idle?
    ensures var sys := Schedule(cfg, actions);
            Inv(cfg, sys.store) && Flat(sys.store) == Flat(Exec(cfg, sys.done))
  {
    hide Schedule, SameView, Inv, Flat, Exec;
    var sys := Schedule(cfg, actions);
    AtomicRunsKeepInv(cfg, sys.done);
    forall u ensures SameView(sys.store, Exec(cfg, sys.done), u) {
      EveryInterleavingAgrees(cfg, actions, u);
    }
    SameViewsAgree(cfg, sys.store, Exec(cfg, sys.done));
  }
}
