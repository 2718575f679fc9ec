/** The migration runner: bodies applied in order and recorded one by one, with a failure possible
    at the record look-up, inside any body, at any record and at any dropped collection. */
module Migration {

  const MIGRATIONS: seq<string> := [
    "001_indexes",
    "002_locations_2dsphere",
    "003_blocks_indexes",
    "004_tiers_seed",
    "005_rename_developer_tier",
    "006_email_index_sparse",
    "007_shard_index",
    "008_opaque_emailhash",
    "009_admin_settings",
    "010_meta_rename_and_features"
  ]

  const TO_DROP: seq<string> := ["sessions", "locations", "messages", "favourites", "_migrations"]

  /** What a body does to the database, what it has done when it fails part way, and what dropping
      a collection does. */
  datatype Bodies<!Db> = Bodies(apply: (string, Db) -> Db, interrupted: (string, Db, nat) -> Db,
                                drop: (string, Db) -> Db)

  /** Running a body again after it ran, wholly or in part, gives what running it once gives. */
  ghost predicate Redoable<Db(!new)>(b: Bodies<Db>) {
    && (forall id, db :: b.apply(id, b.apply(id, db)) == b.apply(id, db))
    && (forall id, db, k :: b.apply(id, b.interrupted(id, db, k)) == b.apply(id, db))
  }

  datatype State<Db> = State(db: Db, records: seq<string>)

  /** How one migration goes; a record that reports failure may have been written all the same. */
  datatype Fault = Fine | BodyFails(progress: nat) | RecordFails(written: bool)

  function Attempt<Db>(b: Bodies<Db>, s: State<Db>, id: string, f: Fault): (State<Db>, bool) {
    match f
    case Fine => (State(b.apply(id, s.db), s.records + [id]), true)
    case BodyFails(k) => (s.(db := b.interrupted(id, s.db, k)), false)
    case RecordFails(written) => (State(b.apply(id, s.db), if written then s.records + [id] else s.records), false)
  }

  function First(faults: seq<Fault>): Fault {
    if faults == [] then Fine else faults[0]
  }

  function Rest(faults: seq<Fault>): seq<Fault> {
    if faults == [] then [] else faults[1..]
  }

  /** Bodies run and recorded in order until one fails. */
  function ApplyEach<Db>(b: Bodies<Db>, s: State<Db>, ids: seq<string>, faults: seq<Fault>): (State<Db>, bool)
    decreases |ids|
  {
    if ids == [] then (s, true)
    else
      var (s', ok) := Attempt(b, s, ids[0], First(faults));
      if ok then ApplyEach(b, s', ids[1..], Rest(faults)) else (s', false)
  }

  function Pending(ids: seq<string>, records: seq<string>): (pending: seq<string>)
    ensures |pending| <= |ids|
  {
    if ids == [] then []
    else if ids[0] in records then Pending(ids[1..], records)
    else [ids[0]] + Pending(ids[1..], records)
  }

  /** Looking up the applied ids: refused, cut off while being read (taken for none), or done. */
  datatype Lookup = Refused | CutOff | Done

  function Applied(lookup: Lookup, records: seq<string>): seq<string> {
    if lookup.CutOff? then [] else records
  }

  function RunState<Db>(b: Bodies<Db>, s: State<Db>, lookup: Lookup, faults: seq<Fault>): (State<Db>, bool) {
    if lookup.Refused? then (s, false)
    else ApplyEach(b, s, Pending(MIGRATIONS, Applied(lookup, s.records)), faults)
  }

  /** Drops that fail are ignored. */
  function Dropped<Db>(b: Bodies<Db>, s: State<Db>, names: seq<string>, dropOk: set<string>): State<Db>
    decreases |names|
  {
    if names == [] then s
    else
      var s' := if names[0] !in dropOk then s
                else if names[0] == "_migrations" then s.(records := [])
                else s.(db := b.drop(names[0], s.db));
      Dropped(b, s', names[1..], dropOk)
  }

  function ResetState<Db>(b: Bodies<Db>, s: State<Db>, dropOk: set<string>, faults: seq<Fault>): (State<Db>, bool) {
    ApplyEach(b, Dropped(b, s, TO_DROP, dropOk), MIGRATIONS, faults)
  }

  // ----- The service -----

  datatype Response = Error | AppliedCount(count: nat)

  class MigrationService<!Db(0)> {
    const bodies: Bodies<Db>
    var db: Db
    var records: seq<string>

    ghost function Contents(): State<Db>
      reads this
    {
      State(db, records)
    }

    constructor (bodies: Bodies<Db>, db: Db, records: seq<string>)
      ensures this.bodies == bodies && Contents() == State(db, records)
    {
      this.bodies, this.db, this.records := bodies, db, records;
    }

    method MigrateRun(lookup: Lookup, faults: seq<Fault>) returns (r: Response)
      modifies this
      ensures Contents() == RunState(bodies, old(Contents()), lookup, faults).0
      ensures r == if RunState(bodies, old(Contents()), lookup, faults).1
                   then AppliedCount(|Pending(MIGRATIONS, Applied(lookup, old(records)))|) else Error
    {
      if lookup.Refused? {
        return Error;
      }
      var applied := if lookup.CutOff? then [] else records;
      var pending := Pending(MIGRATIONS, applied);
      var ok := ApplyAndRecord(pending, faults);
      return if ok then AppliedCount(|pending|) else Error;
    }

    method MigrateReset(dropOk: set<string>, faults: seq<Fault>) returns (r: bool)
      modifies this
      ensures Contents() == ResetState(bodies, old(Contents()), dropOk, faults).0
      ensures r == ResetState(bodies, old(Contents()), dropOk, faults).1
    {
      ghost var start := Contents();
      for i := 0 to |TO_DROP|
        invariant Dropped(bodies, Contents(), TO_DROP[i..], dropOk) == Dropped(bodies, start, TO_DROP, dropOk)
      {
        var name := TO_DROP[i];
        if name in dropOk {
          if name == "_migrations" {
            records := [];
          } else {
            db := bodies.drop(name, db);
          }
        }
        assert TO_DROP[i..][1..] == TO_DROP[i + 1..];
      }
      r := ApplyAndRecord(MIGRATIONS, faults);
    }

    method ApplyAndRecord(ids: seq<string>, faults: seq<Fault>) returns (ok: bool)
      modifies this
      ensures Contents() == ApplyEach(bodies, old(Contents()), ids, faults).0
      ensures ok == ApplyEach(bodies, old(Contents()), ids, faults).1
    {
      ghost var start := Contents();
      var left := faults;
      for i := 0 to |ids|
        invariant ApplyEach(bodies, Contents(), ids[i..], left) == ApplyEach(bodies, start, ids, faults)
      {
        var id := ids[i];
        var fault := First(left);
        assert ids[i..][1..] == ids[i + 1..];
        if fault.BodyFails? {
          db := bodies.interrupted(id, db, fault.progress);
          return false;
        }
        db := bodies.apply(id, db);
        if fault == RecordFails(false) {
          return false;
        }
        records := records + [id];
        if fault == RecordFails(true) {
          return false;
        }
        left := Rest(left);
      }
      return true;
    }
  }

  // ----- Records form a prefix -----

  predicate Distinct(ids: seq<string>) {
    forall i, j :: 0 <= i < j < |ids| ==> ids[i] != ids[j]
  }

  lemma MigrationsAreDistinct()
    ensures Distinct(MIGRATIONS)
  {
  }

  /** The records, as a set, are the first `n` ids. */
  ghost predicate RecordsUpTo(ids: seq<string>, records: seq<string>, n: nat) {
    n <= |ids| && forall id :: id in records <==> id in ids[..n]
  }

  ghost predicate RecordsArePrefix(ids: seq<string>, records: seq<string>) {
    exists n :: RecordsUpTo(ids, records, n)
  }

  lemma {:induction false} PendingIsTail(ids: seq<string>, records: seq<string>, n: nat)
    requires Distinct(ids) && n <= |ids|
    requires forall i :: 0 <= i < |ids| ==> (ids[i] in records <==> i < n)
    ensures Pending(ids, records) == ids[n..]
  {
    if ids != [] {
      PendingIsTail(ids[1..], records, if n == 0 then 0 else n - 1);
      if n > 0 {
        assert ids[1..][n - 1..] == ids[n..];
      } else {
        assert [ids[0]] + ids[1..] == ids;
        assert ids[1..][0..] == ids[1..];
      }
    }
  }

  lemma PendingAfterPrefix(ids: seq<string>, records: seq<string>, n: nat)
    requires Distinct(ids) && RecordsUpTo(ids, records, n)
    ensures Pending(ids, records) == ids[n..]
  {
    forall i | 0 <= i < |ids| ensures ids[i] in records <==> i < n {
      if i < n {
        assert ids[..n][i] == ids[i];
      }
      if ids[i] in ids[..n] {
        var j :| 0 <= j < n && ids[..n][j] == ids[i];
      }
    }
    PendingIsTail(ids, records, n);
  }

  /** Bodies completed before a failure, whatever became of the last record. */
  function Completed(count: nat, faults: seq<Fault>): nat
    decreases count
  {
    if count == 0 then 0
    else match First(faults)
         case Fine => 1 + Completed(count - 1, Rest(faults))
         case BodyFails(_) => 0
         case RecordFails(_) => 1
  }

  /** Bodies completed and recorded before a failure. */
  function Recorded(count: nat, faults: seq<Fault>): nat
    decreases count
  {
    if count == 0 then 0
    else match First(faults)
         case Fine => 1 + Recorded(count - 1, Rest(faults))
         case BodyFails(_) => 0
         case RecordFails(written) => if written then 1 else 0
  }

  lemma {:induction false} RecordsAfter<Db>(b: Bodies<Db>, s: State<Db>, ids: seq<string>, faults: seq<Fault>)
    ensures Recorded(|ids|, faults) <= Completed(|ids|, faults) <= |ids|
    ensures ApplyEach(b, s, ids, faults).0.records == s.records + ids[..Recorded(|ids|, faults)]
    ensures ApplyEach(b, s, ids, faults).1 ==> Recorded(|ids|, faults) == |ids|
    decreases |ids|
  {
    if ids != [] {
      var (s', ok) := Attempt(b, s, ids[0], First(faults));
      if ok {
        RecordsAfter(b, s', ids[1..], Rest(faults));
        assert [ids[0]] + ids[1..][..Recorded(|ids| - 1, Rest(faults))] == ids[..Recorded(|ids|, faults)];
        assert s.records + [ids[0]] + ids[1..][..Recorded(|ids| - 1, Rest(faults))]
            == s.records + ([ids[0]] + ids[1..][..Recorded(|ids| - 1, Rest(faults))]);
      }
    }
  }

  /** Recording a prefix of the list on top of another. */
  lemma JoinPrefixes(records: seq<string>, kept: nat, m: nat)
    requires RecordsUpTo(MIGRATIONS, records, kept) && m <= |MIGRATIONS|
    ensures RecordsUpTo(MIGRATIONS, records + MIGRATIONS[..m], if m < kept then kept else m)
  {
  }

  /** A run records more of the list from where the records end, unless the look-up was cut off:
      then it starts over and records again. */
  lemma RunExtendsRecords<Db>(b: Bodies<Db>, s: State<Db>, n: nat, lookup: Lookup, faults: seq<Fault>)
    requires RecordsUpTo(MIGRATIONS, s.records, n)
    ensures n <= |MIGRATIONS|
    ensures lookup.Refused? ==> RunState(b, s, lookup, faults).0 == s
    ensures lookup.Done? ==>
              RecordsUpTo(MIGRATIONS, RunState(b, s, lookup, faults).0.records, n + Recorded(|MIGRATIONS| - n, faults))
    ensures lookup.CutOff? ==>
              var m := Recorded(|MIGRATIONS|, faults);
              RecordsUpTo(MIGRATIONS, RunState(b, s, lookup, faults).0.records, if m < n then n else m)
  {
    hide MIGRATIONS;
    MigrationsAreDistinct();
    if lookup.Done? {
      var m := Recorded(|MIGRATIONS| - n, faults);
      PendingAfterPrefix(MIGRATIONS, s.records, n);
      RecordsAfter(b, s, MIGRATIONS[n..], faults);
      assert MIGRATIONS[..n + m] == MIGRATIONS[..n] + MIGRATIONS[n..][..m];
    } else if lookup.CutOff? {
      PendingAfterPrefix(MIGRATIONS, [], 0);
      assert MIGRATIONS[0..] == MIGRATIONS;
      RecordsAfter(b, s, MIGRATIONS, faults);
      JoinPrefixes(s.records, n, Recorded(|MIGRATIONS|, faults));
    }
  }

  lemma {:induction false} DropKeepsOrClears<Db>(b: Bodies<Db>, s: State<Db>, names: seq<string>, dropOk: set<string>)
    ensures Dropped(b, s, names, dropOk).records ==
            if "_migrations" in names && "_migrations" in dropOk then [] else s.records
    decreases |names|
  {
    if names != [] {
      var s' := if names[0] !in dropOk then s
                else if names[0] == "_migrations" then s.(records := [])
                else s.(db := b.drop(names[0], s.db));
      DropKeepsOrClears(b, s', names[1..], dropOk);
    }
  }

  /** A reset's records: the old ones if their drop failed, and the bodies it recorded. */
  lemma ResetRecords<Db>(b: Bodies<Db>, s: State<Db>, n: nat, dropOk: set<string>, faults: seq<Fault>)
    requires RecordsUpTo(MIGRATIONS, s.records, n)
    ensures var kept := if "_migrations" in dropOk then 0 else n;
            var m := Recorded(|MIGRATIONS|, faults);
            RecordsUpTo(MIGRATIONS, ResetState(b, s, dropOk, faults).0.records, if m < kept then kept else m)
  {
    var kept := if "_migrations" in dropOk then 0 else n;
    var m := Recorded(|MIGRATIONS|, faults);
    DropKeepsOrClears(b, s, TO_DROP, dropOk);
    RecordsAfter(b, Dropped(b, s, TO_DROP, dropOk), MIGRATIONS, faults);
    assert TO_DROP[4] == "_migrations";
    JoinPrefixes(Dropped(b, s, TO_DROP, dropOk).records, kept, m);
  }

  datatype Request = Run(lookup: Lookup, faults: seq<Fault>) | Reset(dropOk: set<string>, faults: seq<Fault>)

  function Serve<Db>(b: Bodies<Db>, s: State<Db>, r: Request): (State<Db>, bool) {
    match r
    case Run(lookup, faults) => RunState(b, s, lookup, faults)
    case Reset(dropOk, faults) => ResetState(b, s, dropOk, faults)
  }

  function ServeAll<Db>(b: Bodies<Db>, s: State<Db>, rs: seq<Request>): State<Db> {
    if rs == [] then s else Serve(b, ServeAll(b, s, rs[..|rs| - 1]), rs[|rs| - 1]).0
  }

  /** Whatever fails, in any mix of runs and resets, the recorded ids are a prefix of the list. */
  lemma {:induction false} RecordsStayPrefix<Db>(b: Bodies<Db>, s: State<Db>, rs: seq<Request>)
    requires RecordsArePrefix(MIGRATIONS, s.records)
    ensures RecordsArePrefix(MIGRATIONS, ServeAll(b, s, rs).records)
  {
    if rs != [] {
      var t := ServeAll(b, s, rs[..|rs| - 1]);
      RecordsStayPrefix(b, s, rs[..|rs| - 1]);
      var n :| RecordsUpTo(MIGRATIONS, t.records, n);
      match rs[|rs| - 1]
      case Run(lookup, faults) => RunExtendsRecords(b, t, n, lookup, faults);
      case Reset(dropOk, faults) => ResetRecords(b, t, n, dropOk, faults);
    }
  }

  // ----- Interrupted runs resume -----

  /** The uninterrupted result of the given bodies. */
  function ApplyAll<Db>(b: Bodies<Db>, db: Db, ids: seq<string>): Db
    decreases |ids|
  {
    if ids == [] then db else ApplyAll(b, b.apply(ids[0], db), ids[1..])
  }

  lemma {:induction false} RemainderUnrecorded<Db(!new)>(b: Bodies<Db>, s: State<Db>, ids: seq<string>,
                                                  faults: seq<Fault>)
    requires Redoable(b)
    ensures Recorded(|ids|, faults) <= |ids|
    ensures ApplyAll(b, ApplyEach(b, s, ids, faults).0.db, ids[Recorded(|ids|, faults)..]) == ApplyAll(b, s.db, ids)
    decreases |ids|
  {
    if ids != [] {
      if First(faults) == Fine {
        hide Redoable;
        RemainderUnrecorded(b, Attempt(b, s, ids[0], Fine).0, ids[1..], Rest(faults));
        assert ids[1..][Recorded(|ids| - 1, Rest(faults))..] == ids[Recorded(|ids|, faults)..];
      } else {
        assert ids[0..] == ids;
      }
    }
  }

  lemma {:induction false} RemainderUncompleted<Db(!new)>(b: Bodies<Db>, s: State<Db>, ids: seq<string>,
                                                   faults: seq<Fault>)
    requires Redoable(b)
    ensures Completed(|ids|, faults) <= |ids|
    ensures ApplyAll(b, ApplyEach(b, s, ids, faults).0.db, ids[Completed(|ids|, faults)..]) == ApplyAll(b, s.db, ids)
    decreases |ids|
  {
    if ids != [] {
      if First(faults) == Fine {
        hide Redoable;
        RemainderUncompleted(b, Attempt(b, s, ids[0], Fine).0, ids[1..], Rest(faults));
        assert ids[1..][Completed(|ids| - 1, Rest(faults))..] == ids[Completed(|ids|, faults)..];
      } else {
        assert ids[0..] == ids;
      }
    }
  }

  /** Wherever an attempt stops, running the bodies not yet recorded leads where the whole list
      would have led; so does running only those not yet completed. */
  lemma WhatRemains<Db(!new)>(b: Bodies<Db>, s: State<Db>, ids: seq<string>, faults: seq<Fault>)
    requires Redoable(b)
    ensures Recorded(|ids|, faults) <= Completed(|ids|, faults) <= |ids|
    ensures ApplyAll(b, ApplyEach(b, s, ids, faults).0.db, ids[Recorded(|ids|, faults)..]) == ApplyAll(b, s.db, ids)
    ensures ApplyAll(b, ApplyEach(b, s, ids, faults).0.db, ids[Completed(|ids|, faults)..]) == ApplyAll(b, s.db, ids)
  {
    RecordsBehindByOne(|ids|, faults);
    RemainderUnrecorded(b, s, ids, faults);
    RemainderUncompleted(b, s, ids, faults);
  }

  /** One run, failed or not, keeps the destination. */
  lemma RunKeepsGoal<Db(!new)>(b: Bodies<Db>, s: State<Db>, n: nat, lookup: Lookup, faults: seq<Fault>) returns (m: nat)
    requires Redoable(b) && !lookup.CutOff? && RecordsUpTo(MIGRATIONS, s.records, n)
    ensures RecordsUpTo(MIGRATIONS, RunState(b, s, lookup, faults).0.records, m)
    ensures ApplyAll(b, RunState(b, s, lookup, faults).0.db, MIGRATIONS[m..]) == ApplyAll(b, s.db, MIGRATIONS[n..])
    ensures RunState(b, s, lookup, faults).1 ==> m == |MIGRATIONS|
  {
    hide MIGRATIONS, ApplyEach, ApplyAll, Recorded, Completed, Pending, RecordsUpTo;
    RunExtendsRecords(b, s, n, lookup, faults);
    m := n;
    if lookup.Done? {
      MigrationsAreDistinct();
      PendingAfterPrefix(MIGRATIONS, s.records, n);
      WhatRemains(b, s, MIGRATIONS[n..], faults);
      RecordsAfter(b, s, MIGRATIONS[n..], faults);
      m := n + Recorded(|MIGRATIONS| - n, faults);
      assert MIGRATIONS[n..][m - n..] == MIGRATIONS[m..];
    }
  }

  // ----- Interrupted resets resume only when the records were dropped -----

  /** A reset and then a run in which nothing fails. */
  function ResetThenRun<Db>(b: Bodies<Db>, s: State<Db>, dropOk: set<string>, faults: seq<Fault>): Db {
    RunState(b, ResetState(b, s, dropOk, faults).0, Done, []).0.db
  }

  function ResetGoal<Db>(b: Bodies<Db>, s: State<Db>, dropOk: set<string>): Db {
    ApplyAll(b, Dropped(b, s, TO_DROP, dropOk).db, MIGRATIONS)
  }

  /** Whether the reset got past everything that was recorded before it and stayed recorded. */
  predicate PastOldRecords(n: nat, dropOk: set<string>, faults: seq<Fault>) {
    "_migrations" in dropOk || n <= Completed(|MIGRATIONS|, faults)
  }

  /** A reset, failed or not, that got past the old records aims at its own goal. */
  lemma ResetSetsGoal<Db(!new)>(b: Bodies<Db>, s: State<Db>, n: nat, dropOk: set<string>, faults: seq<Fault>)
    returns (m: nat)
    requires Redoable(b) && RecordsUpTo(MIGRATIONS, s.records, n)
    requires PastOldRecords(n, dropOk, faults)
    ensures RecordsUpTo(MIGRATIONS, ResetState(b, s, dropOk, faults).0.records, m)
    ensures ApplyAll(b, ResetState(b, s, dropOk, faults).0.db, MIGRATIONS[m..]) == ResetGoal(b, s, dropOk)
    ensures ResetState(b, s, dropOk, faults).1 ==> m == |MIGRATIONS|
  {
    hide MIGRATIONS, TO_DROP, ApplyEach, ApplyAll, Recorded, Completed, RecordsUpTo;
    var all := |MIGRATIONS|;
    var kept := if "_migrations" in dropOk then 0 else n;
    m := if Recorded(all, faults) < kept then kept else Recorded(all, faults);
    ResetRecords(b, s, n, dropOk, faults);
    RecordsAfter(b, Dropped(b, s, TO_DROP, dropOk), MIGRATIONS, faults);
    WhatRemains(b, Dropped(b, s, TO_DROP, dropOk), MIGRATIONS, faults);
    RecordsBehindByOne(all, faults);
    UpToIsWithin(s.records, n);
    assert m == Recorded(all, faults) || m == Completed(all, faults);
  }

  lemma UpToIsWithin(records: seq<string>, n: nat)
    requires RecordsUpTo(MIGRATIONS, records, n)
    ensures n <= |MIGRATIONS|
  {
  }

  lemma ResetThenRunReachesGoal<Db(!new)>(b: Bodies<Db>, s: State<Db>, n: nat, dropOk: set<string>, faults: seq<Fault>)
    requires Redoable(b) && RecordsUpTo(MIGRATIONS, s.records, n)
    requires PastOldRecords(n, dropOk, faults)
    ensures ResetThenRun(b, s, dropOk, faults) == ResetGoal(b, s, dropOk)
  {
    hide MIGRATIONS, TO_DROP, ResetState;
    var t := ResetState(b, s, dropOk, faults).0;
    var m := ResetSetsGoal(b, s, n, dropOk, faults);
    var end := RunKeepsGoal(b, t, m, Done, []);
    NoFaultsSucceeds(b, t, Pending(MIGRATIONS, t.records));
  }

  lemma {:induction false} RecordsBehindByOne(count: nat, faults: seq<Fault>)
    ensures Completed(count, faults) <= Recorded(count, faults) + 1
    ensures Recorded(count, faults) <= Completed(count, faults)
    decreases count
  {
    if count > 0 {
      RecordsBehindByOne(count - 1, Rest(faults));
    }
  }

  lemma {:induction false} NoFaultsSucceeds<Db>(b: Bodies<Db>, s: State<Db>, ids: seq<string>)
    ensures ApplyEach(b, s, ids, []).1
    ensures ApplyEach(b, s, ids, []).0.db == ApplyAll(b, s.db, ids)
    decreases |ids|
  {
    if ids != [] {
      NoFaultsSucceeds(b, Attempt(b, s, ids[0], Fine).0, ids[1..]);
    }
  }

  /** A pass over the list succeeds exactly if nothing fails on the way. */
  lemma {:induction false} SucceedsIff<Db>(b: Bodies<Db>, s: State<Db>, ids: seq<string>, faults: seq<Fault>)
    ensures ApplyEach(b, s, ids, faults).1 <==> forall k :: 0 <= k < |ids| && k < |faults| ==> faults[k] == Fine
    decreases |ids|
  {
    if ids != [] && First(faults) == Fine {
      SucceedsIff(b, Attempt(b, s, ids[0], Fine).0, ids[1..], Rest(faults));
      assert forall k :: 0 < k < |faults| ==> faults[k] == Rest(faults)[k - 1];
      assert forall k :: 0 <= k < |Rest(faults)| ==> Rest(faults)[k] == faults[k + 1];
    }
  }

  // ----- Any mix of runs and resets -----

  /** How many bodies count as applied. */
  function AppliedSoFar(records: seq<string>): nat {
    |MIGRATIONS| - |Pending(MIGRATIONS, records)|
  }

  /** A request after which the work can be taken up again: a run whose look-up was not cut off, or had
      nothing to read; a reset that got past what was recorded before it. */
  predicate Resumable<Db>(s: State<Db>, r: Request) {
    match r
    case Run(lookup, _) => lookup.CutOff? ==> s.records == []
    case Reset(dropOk, faults) => PastOldRecords(AppliedSoFar(s.records), dropOk, faults)
  }

  /** Whatever came before a reset does not matter: only the last reset and the runs after it, or all
      runs if there was no reset, must be resumable. */
  ghost predicate AllResumable<Db>(b: Bodies<Db>, s: State<Db>, rs: seq<Request>) {
    forall k :: 0 <= k < |rs| && RunsOnly(rs[k + 1..]) ==> Resumable(ServeAll(b, s, rs[..k]), rs[k])
  }

  predicate RunsOnly(rs: seq<Request>) {
    forall r :: r in rs ==> r.Run?
  }

  /** Where the requests aim: at what the pending bodies make of the database, and after a reset at
      what all bodies make of what its drops left. */
  function GoalOf<Db>(b: Bodies<Db>, s: State<Db>, rs: seq<Request>): Db {
    if rs == [] then ApplyAll(b, s.db, Pending(MIGRATIONS, s.records))
    else
      var (init, r) := (rs[..|rs| - 1], rs[|rs| - 1]);
      match r
      case Run(_, _) => GoalOf(b, s, init)
      case Reset(dropOk, _) => ResetGoal(b, ServeAll(b, s, init), dropOk)
  }

  /** One request keeps the goal, or a reset sets its own. */
  lemma RequestKeepsGoal<Db(!new)>(b: Bodies<Db>, s: State<Db>, n: nat, r: Request) returns (m: nat)
    requires Redoable(b) && RecordsUpTo(MIGRATIONS, s.records, n) && Resumable(s, r)
    ensures RecordsUpTo(MIGRATIONS, Serve(b, s, r).0.records, m)
    ensures ApplyAll(b, Serve(b, s, r).0.db, MIGRATIONS[m..]) ==
            if r.Run? then ApplyAll(b, s.db, MIGRATIONS[n..]) else ResetGoal(b, s, r.dropOk)
    ensures Serve(b, s, r).1 ==> m == |MIGRATIONS|
  {
    hide MIGRATIONS, ApplyAll, ResetState, ResetGoal, Redoable;
    match r
    case Run(lookup, faults) =>
      assert lookup.CutOff? ==> RunState(b, s, lookup, faults) == RunState(b, s, Done, faults);
      m := RunKeepsGoal(b, s, n, if lookup.CutOff? then Done else lookup, faults);
    case Reset(dropOk, faults) =>
      MigrationsAreDistinct();
      PendingAfterPrefix(MIGRATIONS, s.records, n);
      m := ResetSetsGoal(b, s, n, dropOk, faults);
  }

  /** Any mix of runs and resets, each failing anywhere as long as the last reset got past the old
      records: what is still pending leads to the goal. When the last request succeeds, the database has
      reached it, every id is recorded, and the next run applies 0. */
  lemma {:induction false} InterruptedRunsReachGoal<Db(!new)>(b: Bodies<Db>, s: State<Db>, rs: seq<Request>)
    returns (m: nat)
    requires Redoable(b) && RecordsArePrefix(MIGRATIONS, s.records) && AllResumable(b, s, rs)
    ensures RecordsUpTo(MIGRATIONS, ServeAll(b, s, rs).records, m)
    ensures ApplyAll(b, ServeAll(b, s, rs).db, MIGRATIONS[m..]) == GoalOf(b, s, rs)
    ensures rs != [] && Serve(b, ServeAll(b, s, rs[..|rs| - 1]), rs[|rs| - 1]).1 ==>
              && ServeAll(b, s, rs).db == GoalOf(b, s, rs)
              && Pending(MIGRATIONS, ServeAll(b, s, rs).records) == []
  {
    MigrationsAreDistinct();
    if rs == [] {
      m :| RecordsUpTo(MIGRATIONS, s.records, m);
      PendingAfterPrefix(MIGRATIONS, s.records, m);
    } else {
      hide MIGRATIONS, Serve, Redoable, ResetGoal, Pending, Resumable, RecordsUpTo;
      hide ServeAll, GoalOf, ApplyAll, AllResumable;
      ServedLast(b, s, rs);
      ResumableLast(b, s, rs);
      var (init, r) := (rs[..|rs| - 1], rs[|rs| - 1]);
      var t := ServeAll(b, s, init);
      var n: nat;
      if r.Run? {
        n := InterruptedRunsReachGoal(b, s, init);
      } else {
        RecordsStayPrefix(b, s, init);
        n :| RecordsUpTo(MIGRATIONS, t.records, n);
      }
      m := RequestKeepsGoal(b, t, n, r);
      PendingAfterPrefix(MIGRATIONS, ServeAll(b, s, rs).records, m);
      if m == |MIGRATIONS| {
        NothingToApply(b, ServeAll(b, s, rs).db, MIGRATIONS[m..]);
      }
    }
  }

  lemma NothingToApply<Db>(b: Bodies<Db>, db: Db, ids: seq<string>)
    requires ids == []
    ensures ApplyAll(b, db, ids) == db
  {
  }

  lemma ResumableLast<Db>(b: Bodies<Db>, s: State<Db>, rs: seq<Request>)
    requires rs != [] && AllResumable(b, s, rs)
    ensures var (init, r) := (rs[..|rs| - 1], rs[|rs| - 1]);
            Resumable(ServeAll(b, s, init), r) && (r.Run? ==> AllResumable(b, s, init))
  {
    hide ServeAll, Resumable;
    var (init, r) := (rs[..|rs| - 1], rs[|rs| - 1]);
    assert rs[|rs|..] == [];
    if r.Run? {
      forall k | 0 <= k < |init| && RunsOnly(init[k + 1..]) ensures Resumable(ServeAll(b, s, init[..k]), init[k]) {
        assert init[..k] == rs[..k] && rs[k + 1..] == init[k + 1..] + [r];
      }
    }
  }

  lemma ServedLast<Db>(b: Bodies<Db>, s: State<Db>, rs: seq<Request>)
    requires rs != []
    ensures var (init, r) := (rs[..|rs| - 1], rs[|rs| - 1]);
            && ServeAll(b, s, rs) == Serve(b, ServeAll(b, s, init), r).0
            && GoalOf(b, s, rs) == if r.Run? then GoalOf(b, s, init) else ResetGoal(b, ServeAll(b, s, init), r.dropOk)
  {
  }

  // ----- The condition on resets is needed -----

  /** Bodies that leave a mark each, on a database that is the set of marks; dropping wipes it. */
  const MARKING: Bodies<set<string>> := Bodies((id, db) => db + {id}, (id, db, k) => db, (name, db) => {})

  lemma {:induction false} Marks(db: set<string>, ids: seq<string>, id: string)
    ensures id in ApplyAll(MARKING, db, ids) <==> id in db || id in ids
    decreases |ids|
  {
    if ids != [] {
      Marks(db + {ids[0]}, ids[1..], id);
    }
  }

  lemma {:induction false} MarksAfter(s: State<set<string>>, ids: seq<string>, faults: seq<Fault>, id: string)
    ensures Completed(|ids|, faults) <= |ids|
    ensures id in ApplyEach(MARKING, s, ids, faults).0.db <==> id in s.db || id in ids[..Completed(|ids|, faults)]
    decreases |ids|
  {
    if ids != [] && First(faults) == Fine {
      MarksAfter(Attempt(MARKING, s, ids[0], Fine).0, ids[1..], Rest(faults), id);
      assert ids[..Completed(|ids|, faults)] == [ids[0]] + ids[1..][..Completed(|ids| - 1, Rest(faults))];
    }
  }

  /** A reset that fails is completed by the next run, whatever the bodies do, exactly when the
      `_migrations` collection was really dropped or the reset got past the ids already in it: the
      drop's failure is ignored, and the run then skips bodies the reset never reached. */
  lemma ResetResumesIff(n: nat, dropOk: set<string>, faults: seq<Fault>)
    requires n <= |MIGRATIONS|
    ensures (forall b: Bodies<set<string>>, db ::
               Redoable(b) ==> ResetThenRun(b, State(db, MIGRATIONS[..n]), dropOk, faults)
                               == ResetGoal(b, State(db, MIGRATIONS[..n]), dropOk))
       <==> PastOldRecords(n, dropOk, faults)
  {
    if PastOldRecords(n, dropOk, faults) {
      forall b: Bodies<set<string>>, db | Redoable(b)
        ensures ResetThenRun(b, State(db, MIGRATIONS[..n]), dropOk, faults)
             == ResetGoal(b, State(db, MIGRATIONS[..n]), dropOk)
      {
        ResetThenRunReachesGoal(b, State(db, MIGRATIONS[..n]), n, dropOk, faults);
      }
    } else {
      SkippedBody(n, dropOk, faults);
    }
  }

  lemma SkippedBody(n: nat, dropOk: set<string>, faults: seq<Fault>)
    requires n <= |MIGRATIONS| && !PastOldRecords(n, dropOk, faults)
    ensures Redoable(MARKING)
    ensures ResetThenRun(MARKING, State({}, MIGRATIONS[..n]), dropOk, faults)
         != ResetGoal(MARKING, State({}, MIGRATIONS[..n]), dropOk)
  {
    hide MIGRATIONS, TO_DROP;
    var s := State({}, MIGRATIONS[..n]);
    var (c, r) := (Completed(|MIGRATIONS|, faults), Recorded(|MIGRATIONS|, faults));
    var (d, t) := (Dropped(MARKING, s, TO_DROP, dropOk), ResetState(MARKING, s, dropOk, faults).0);
    var missing := MIGRATIONS[c];
    MigrationsAreDistinct();
    RecordsAfter(MARKING, d, MIGRATIONS, faults);
    ResetRecords(MARKING, s, n, dropOk, faults);
    PendingAfterPrefix(MIGRATIONS, t.records, n);
    NothingMarked(s, TO_DROP, dropOk);
    MarksAfter(d, MIGRATIONS, faults, missing);
    NoFaultsSucceeds(MARKING, t, MIGRATIONS[n..]);
    Marks(t.db, MIGRATIONS[n..], missing);
    Marks(d.db, MIGRATIONS, missing);
    assert missing !in MIGRATIONS[..c];
    assert missing !in MIGRATIONS[n..];
  }

  lemma {:induction false} NothingMarked(s: State<set<string>>, names: seq<string>, dropOk: set<string>)
    requires s.db == {}
    ensures Dropped(MARKING, s, names, dropOk).db == {}
    decreases |names|
  {
    if names != [] {
      var s' := if names[0] !in dropOk then s
                else if names[0] == "_migrations" then s.(records := [])
                else s.(db := MARKING.drop(names[0], s.db));
      NothingMarked(s', names[1..], dropOk);
    }
  }

  // ----- A look-up cut off -----

  /** The first `n` bodies done and recorded, a run whose look-up was cut off, and then a run in
      which nothing fails. */
  function CutThenRun<Db>(b: Bodies<Db>, db: Db, n: nat, faults: seq<Fault>): Db
    requires n <= |MIGRATIONS|
  {
    var cut := RunState(b, State(ApplyAll(b, db, MIGRATIONS[..n]), MIGRATIONS[..n]), CutOff, faults).0;
    RunState(b, cut, Done, []).0.db
  }

  lemma {:induction false} NothingApplied(ids: seq<string>)
    ensures Pending(ids, []) == ids
  {
    if ids != [] {
      NothingApplied(ids[1..]);
    }
  }

  /** What the two runs come to: all bodies over again as far as they got, then the tail behind the
      records. */
  lemma CutThenRunIs<Db>(b: Bodies<Db>, db: Db, n: nat, faults: seq<Fault>) returns (cut: State<Db>, m: nat)
    requires n <= |MIGRATIONS|
    ensures cut == ApplyEach(b, State(ApplyAll(b, db, MIGRATIONS[..n]), MIGRATIONS[..n]), MIGRATIONS, faults).0
    ensures var r := Recorded(|MIGRATIONS|, faults); m == if r < n then n else r
    ensures m <= |MIGRATIONS| && CutThenRun(b, db, n, faults) == ApplyAll(b, cut.db, MIGRATIONS[m..])
  {
    hide MIGRATIONS, ApplyEach, ApplyAll, Recorded, Completed;
    var s := State(ApplyAll(b, db, MIGRATIONS[..n]), MIGRATIONS[..n]);
    NothingApplied(MIGRATIONS);
    cut := ApplyEach(b, s, MIGRATIONS, faults).0;
    RunExtendsRecords(b, s, n, CutOff, faults);
    m := if Recorded(|MIGRATIONS|, faults) < n then n else Recorded(|MIGRATIONS|, faults);
    MigrationsAreDistinct();
    PendingAfterPrefix(MIGRATIONS, cut.records, m);
    NoFaultsSucceeds(b, cut, MIGRATIONS[m..]);
  }

  lemma CutOffHarmless<Db(!new)>(b: Bodies<Db>, db: Db, n: nat, faults: seq<Fault>)
    requires Redoable(b) && n <= 1 && n <= Completed(|MIGRATIONS|, faults)
    ensures CutThenRun(b, db, n, faults) == ApplyAll(b, db, MIGRATIONS)
  {
    hide MIGRATIONS, ApplyEach, CutThenRun, Recorded, Completed;
    assert |MIGRATIONS| == 10 by { MigrationsAreTen(); }
    var (all, s) := (|MIGRATIONS|, State(ApplyAll(b, db, MIGRATIONS[..n]), MIGRATIONS[..n]));
    var cut, m := CutThenRunIs(b, db, n, faults);
    WhatRemains(b, s, MIGRATIONS, faults);
    RecordsBehindByOne(all, faults);
    assert m == Recorded(all, faults) || m == Completed(all, faults);
    if n == 1 {
      assert MIGRATIONS[..1] == [MIGRATIONS[0]] && [MIGRATIONS[0]][1..] == [];
      assert s.db == b.apply(MIGRATIONS[0], db);
    }
  }

  lemma MigrationsAreTen()
    ensures |MIGRATIONS| == 10
  {
  }

  /** A database that notes which bodies hold and in which order they were run; running the last one
      again adds nothing, and an interrupted body does not hold. */
  datatype Trace = Trace(marks: set<string>, order: seq<string>)

  function Noted(id: string, t: Trace): Trace {
    Trace(t.marks + {id}, if t.order != [] && t.order[|t.order| - 1] == id then t.order else t.order + [id])
  }

  const NOTING: Bodies<Trace> := Bodies((id, t) => Noted(id, t), (id, t: Trace, k) => t.(marks := t.marks - {id}),
      (name, t) => t)

  lemma {:induction false} NotesGrow(t: Trace, ids: seq<string>)
    ensures t.order <= ApplyAll(NOTING, t, ids).order
    ensures forall id :: id in ApplyAll(NOTING, t, ids).marks <==> id in t.marks || id in ids
    decreases |ids|
  {
    if ids != [] {
      NotesGrow(Noted(ids[0], t), ids[1..]);
    }
  }

  lemma {:induction false} NotesKeepOrder(t: Trace, ids: seq<string>)
    requires Distinct(ids) && (t.order != [] && ids != [] ==> t.order[|t.order| - 1] != ids[0])
    ensures ApplyAll(NOTING, t, ids).order == t.order + ids
    decreases |ids|
  {
    if ids != [] {
      assert Noted(ids[0], t).order == t.order + [ids[0]];
      assert forall i, j :: 0 <= i < j < |ids[1..]| ==> ids[1..][i] == ids[i + 1] && ids[1..][j] == ids[j + 1];
      NotesKeepOrder(Noted(ids[0], t), ids[1..]);
    }
  }

  lemma {:induction false} NotesGrowEach(s: State<Trace>, ids: seq<string>, faults: seq<Fault>)
    ensures s.db.order <= ApplyEach(NOTING, s, ids, faults).0.db.order
    decreases |ids|
  {
    if ids != [] && First(faults) == Fine {
      NotesGrowEach(Attempt(NOTING, s, ids[0], Fine).0, ids[1..], Rest(faults));
    }
  }

  /** What the first body of a cut-off run leaves: run over again, or interrupted. */
  lemma FirstOverAgain(s: State<Trace>, ids: seq<string>, faults: seq<Fault>)
    requires ids != [] && s.db.order != [] && s.db.order[|s.db.order| - 1] != ids[0]
    ensures var t := ApplyEach(NOTING, s, ids, faults).0;
            if Completed(|ids|, faults) > 0 then s.db.order + [ids[0]] <= t.db.order
            else t.db == s.db.(marks := s.db.marks - {ids[0]})
  {
    if First(faults) == Fine {
      NotesGrowEach(Attempt(NOTING, s, ids[0], Fine).0, ids[1..], Rest(faults));
    }
  }

  lemma CutOffHarms(n: nat, faults: seq<Fault>)
    requires n <= |MIGRATIONS| && !(n <= 1 && n <= Completed(|MIGRATIONS|, faults))
    ensures Redoable(NOTING)
    ensures CutThenRun(NOTING, Trace({}, []), n, faults) != ApplyAll(NOTING, Trace({}, []), MIGRATIONS)
  {
    hide MIGRATIONS, CutThenRun, ApplyEach, ApplyAll;
    NotingIsRedoable();
    MigrationsAreTen();
    MigrationsAreDistinct();
    var start := Trace({}, []);
    var cut, m := CutThenRunIs(NOTING, start, n, faults);
    var s := State(ApplyAll(NOTING, start, MIGRATIONS[..n]), MIGRATIONS[..n]);
    NotesKeepOrder(start, MIGRATIONS[..n]);
    NotesKeepOrder(start, MIGRATIONS);
    NotesGrow(start, MIGRATIONS);
    NotesGrow(cut.db, MIGRATIONS[m..]);
    if n == 1 {
      FirstInterrupted(s, faults);
      assert MIGRATIONS[0] !in MIGRATIONS[m..];
    } else {
      assert s.db.order[|s.db.order| - 1] == MIGRATIONS[n - 1] != MIGRATIONS[0];
      FirstOverAgain(s, MIGRATIONS, faults);
      if Completed(|MIGRATIONS|, faults) > 0 {
        var twice := s.db.order + [MIGRATIONS[0]];
        assert twice[n] == MIGRATIONS[0];
        assert twice <= cut.db.order <= CutThenRun(NOTING, start, n, faults).order;
        assert n < |MIGRATIONS| ==> MIGRATIONS[n] != MIGRATIONS[0];
      } else {
        assert MIGRATIONS[0] !in MIGRATIONS[m..];
      }
    }
  }

  lemma FirstInterrupted(s: State<Trace>, faults: seq<Fault>)
    requires |MIGRATIONS| > 0 && Completed(|MIGRATIONS|, faults) == 0
    ensures ApplyEach(NOTING, s, MIGRATIONS, faults).0.db == s.db.(marks := s.db.marks - {MIGRATIONS[0]})
    ensures Recorded(|MIGRATIONS|, faults) == 0
  {
  }

  lemma NotingIsRedoable()
    ensures Redoable(NOTING)
  {
    forall id, t ensures Noted(id, Noted(id, t)) == Noted(id, t) && Noted(id, t.(marks := t.marks - {id})) ==
        Noted(id, t) {
      assert t.marks + {id} + {id} == t.marks + {id} && t.marks - {id} + {id} == t.marks + {id};
    }
  }

  /** A look-up cut off while being read is taken for an empty one, so the run starts over. After
      `n` bodies it is harmless, whatever the bodies, exactly if there was at most one and the run
      got past it. */
  lemma CutOffHarmlessIff(n: nat, faults: seq<Fault>)
    requires n <= |MIGRATIONS|
    ensures (forall b: Bodies<Trace>, db :: Redoable(b) ==> CutThenRun(b, db, n, faults) == ApplyAll(b, db, MIGRATIONS))
       <==> n <= 1 && n <= Completed(|MIGRATIONS|, faults)
  {
    hide MIGRATIONS, CutThenRun, ApplyAll, Completed, Redoable;
    if n <= 1 && n <= Completed(|MIGRATIONS|, faults) {
      forall b: Bodies<Trace>, db | Redoable(b) ensures CutThenRun(b, db, n, faults) == ApplyAll(b, db, MIGRATIONS) {
        CutOffHarmless(b, db, n, faults);
      }
    } else {
      CutOffHarms(n, faults);
    }
  }
}
