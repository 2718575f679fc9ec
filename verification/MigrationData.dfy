/** What resets do to the documents there were: those of the collections dropped go, all others stay,
    whatever the bodies do beside them and wherever something fails. */
module MigrationData {
  import opened Migration

  /** The documents of one collection a database held before, as `kept` finds them: dropping that
      collection removes them all, and neither another drop nor a body touches them. */
  ghost predicate Watches<Db(!new), Doc(!new)>(b: Bodies<Db>, name: string, kept: Db -> set<Doc>) {
    && (forall db :: kept(b.drop(name, db)) == {})
    && (forall other, db :: other != name ==> kept(b.drop(other, db)) == kept(db))
    && (forall id, db :: kept(b.apply(id, db)) == kept(db))
    && (forall id, db, k :: kept(b.interrupted(id, db, k)) == kept(db))
  }

  lemma {:induction false} BodiesKeep<Db(!new), Doc(!new)>(b: Bodies<Db>, name: string, kept: Db -> set<Doc>,
                                                           s: State<Db>, ids: seq<string>, faults: seq<Fault>)
    requires Watches(b, name, kept)
    ensures kept(ApplyEach(b, s, ids, faults).0.db) == kept(s.db)
    decreases |ids|
  {
    if ids != [] {
      var (t, ok) := Attempt(b, s, ids[0], First(faults));
      assert kept(t.db) == kept(s.db);
      if ok {
        hide Watches, Attempt;
        BodiesKeep(b, name, kept, t, ids[1..], Rest(faults));
      }
    }
  }

  lemma {:induction false} DropsEmpty<Db(!new), Doc(!new)>(b: Bodies<Db>, name: string, kept: Db -> set<Doc>,
                                                           s: State<Db>, names: seq<string>, dropOk: set<string>)
    requires Watches(b, name, kept)
    ensures kept(Dropped(b, s, names, dropOk).db) ==
            if name in names && name != "_migrations" && name in dropOk then {} else kept(s.db)
    decreases |names|
  {
    if names != [] {
      var t := if names[0] !in dropOk then s
               else if names[0] == "_migrations" then s.(records := [])
               else s.(db := b.drop(names[0], s.db));
      DropsEmpty(b, name, kept, t, names[1..], dropOk);
    }
  }

  /** The collections a reset means to empty, beside its own records. */
  predicate Emptied(name: string) {
    name == "sessions" || name == "locations" || name == "messages" || name == "favourites"
  }

  /** After a reset, failed or not, nothing old is left in those of the four whose drop succeeded; the
      others, and every other collection, users among them, hold all they held. */
  lemma ResetEmptiesExactly<Db(!new), Doc(!new)>(b: Bodies<Db>, name: string, kept: Db -> set<Doc>, s: State<Db>,
                                                 dropOk: set<string>, faults: seq<Fault>)
    requires Watches(b, name, kept)
    ensures kept(ResetState(b, s, dropOk, faults).0.db) == if Emptied(name) && name in dropOk then {} else kept(s.db)
  {
    hide Watches;
    DropsEmpty(b, name, kept, s, TO_DROP, dropOk);
    BodiesKeep(b, name, kept, Dropped(b, s, TO_DROP, dropOk), MIGRATIONS, faults);
    DropListIs(name);
  }

  lemma DropListIs(name: string)
    ensures name in TO_DROP <==> Emptied(name) || name == "_migrations"
  {
    assert TO_DROP[0] == "sessions" && TO_DROP[1] == "locations" && TO_DROP[2] == "messages"
        && TO_DROP[3] == "favourites" && TO_DROP[4] == "_migrations";
  }

  /** Over any mix of runs and resets, each failing anywhere: what a collection held at the start is gone
      exactly if it is one of the four and some reset's drop of it succeeded, and is otherwise all there. */
  lemma {:induction false} OldDataAfterRequests<Db(!new), Doc(!new)>(b: Bodies<Db>, name: string,
                                                                     kept: Db -> set<Doc>, s: State<Db>,
                                                                     rs: seq<Request>)
    requires Watches(b, name, kept)
    ensures kept(ServeAll(b, s, rs).db) ==
            if Emptied(name) && exists r :: r in rs && r.Reset? && name in r.dropOk then {} else kept(s.db)
  {
    if rs != [] {
      hide Watches, MIGRATIONS, ResetState, Emptied, Pending;
      var (init, r) := (rs[..|rs| - 1], rs[|rs| - 1]);
      var t := ServeAll(b, s, init);
      assert forall q :: q in rs <==> q in init || q == r;
      OldDataAfterRequests(b, name, kept, s, init);
      match r
      case Run(lookup, faults) =>
        BodiesKeep(b, name, kept, t, Pending(MIGRATIONS, Applied(lookup, t.records)), faults);
      case Reset(dropOk, faults) => ResetEmptiesExactly(b, name, kept, t, dropOk, faults);
    }
  }

  // ----- A database with one component per collection -----

  /** The old documents of each collection, and what the bodies have made beside them. */
  datatype Collections = Collections(former: map<string, set<int>>, made: set<string>)

  const KEEPING: Bodies<Collections> := Bodies(
    (id: string, db: Collections) => db.(made := db.made + {id}),
    (id: string, db: Collections, k: nat) => db,
    (name: string, db: Collections) => db.(former := db.former - {name}))

  function OldIn(name: string): Collections -> set<int> {
    (db: Collections) => if name in db.former then db.former[name] else {}
  }

  /** So the conditions can be met, for every collection at once. */
  lemma KeepingIsWatched(name: string)
    ensures Redoable(KEEPING) && Watches(KEEPING, name, OldIn(name))
  {
    forall id: string, made: set<string> ensures made + {id} + {id} == made + {id} {}
  }
}
