/** The fixed-window limiters: the per-address limiter of the gateway with its live replacement,
    the per-user limiter of the message service, and the WebSocket send limiter. */
module RateLimit {
  import opened LocationStore

  /** Requests counted since the window opened. */
  datatype Bucket = Bucket(count: nat, start: Time)

  const U32 := 0x1_0000_0000

  /** A new key starts a window now; an expired window is replaced by an empty one. */
  function Opened(b: Option<Bucket>, window: Duration, now: Time): Bucket {
    match b
    case None => Bucket(0, now)
    case Some(old_) => if now - old_.start >= window then Bucket(0, now) else old_
  }

  /** Counts accepted requests only. */
  function Check(b: Option<Bucket>, max: nat, window: Duration, now: Time): (Bucket, bool) {
    var o := Opened(b, window, now);
    if o.count >= max then (o, false) else (o.(count := o.count + 1), true)
  }

  /** Counts every request, in 32 bits. */
  function WsCheck(b: Option<Bucket>, limit: nat, window: Duration, now: Time): (Bucket, bool) {
    var o := Opened(b, window, now);
    var count := (o.count + 1) % U32;
    (o.(count := count), count <= limit)
  }

  function Find<K>(m: map<K, Bucket>, key: K): Option<Bucket> {
    if key in m then Some(m[key]) else None
  }

  // ----- The limiters as they run -----

  class FixedWindow<K(==)> {
    const max: nat
    const window: Duration
    var buckets: map<K, Bucket>

    constructor (max: nat, window: Duration)
      ensures this.max == max && this.window == window && buckets == map[]
    {
      this.max, this.window, buckets := max, window, map[];
    }

    /** Decides on the key's own bucket and touches no other. */
    method CheckKey(key: K, now: Time) returns (ok: bool)
      modifies this
      ensures ok == Check(Find(old(buckets), key), max, window, now).1
      ensures buckets == old(buckets)[key := Check(Find(old(buckets), key), max, window, now).0]
    {
      if key !in buckets {
        buckets := buckets[key := Bucket(0, now)];
      }
      if now - buckets[key].start >= window {
        buckets := buckets[key := Bucket(0, now)];
      }
      if buckets[key].count >= max {
        return false;
      }
      buckets := buckets[key := buckets[key].(count := buckets[key].count + 1)];
      return true;
    }
  }

  /** A limiter that the settings refresh replaces by a new, empty one. */
  class LiveLimiter<K(==)> {
    var inner: FixedWindow<K>

    constructor (max: nat, window: Duration)
      ensures fresh(inner) && inner.max == max && inner.window == window && inner.buckets == map[]
    {
      inner := new FixedWindow(max, window);
    }

    method Refresh(max: nat, window: Duration)
      modifies this
      ensures fresh(inner) && inner.max == max && inner.window == window && inner.buckets == map[]
    {
      inner := new FixedWindow(max, window);
    }

    method CheckLim(key: K, now: Time) returns (ok: bool)
      modifies inner
      ensures ok == Check(Find(old(inner.buckets), key), inner.max, inner.window, now).1
      ensures inner.buckets == old(inner.buckets)[key := Check(Find(old(inner.buckets), key), inner.max, inner.window,
          now).0]
    {
      ok := inner.CheckKey(key, now);
    }
  }

  /** The message service's buckets; limit and window come with each call. */
  class UserBuckets {
    var buckets: map<UserId, Bucket>

    constructor ()
      ensures buckets == map[]
    {
      buckets := map[];
    }

    method CheckUserRate(user: UserId, max: nat, window: Duration, now: Time) returns (ok: bool)
      modifies this
      ensures ok == Check(Find(old(buckets), user), max, window, now).1
      ensures buckets == old(buckets)[user := Check(Find(old(buckets), user), max, window, now).0]
    {
      if user !in buckets {
        buckets := buckets[user := Bucket(0, now)];
      }
      if now - buckets[user].start >= window {
        buckets := buckets[user := Bucket(0, now)];
      }
      if buckets[user].count >= max {
        return false;
      }
      buckets := buckets[user := buckets[user].(count := buckets[user].count + 1)];
      return true;
    }
  }

  const WS_SEND_LIMIT := 10
  const WS_SEND_WINDOW: Duration := 10.0

  class SendBuckets {
    var buckets: map<UserId, Bucket>

    constructor ()
      ensures buckets == map[]
    {
      buckets := map[];
    }

    method WsCheckSend(user: UserId, now: Time) returns (ok: bool)
      modifies this
      ensures ok == WsCheck(Find(old(buckets), user), WS_SEND_LIMIT, WS_SEND_WINDOW, now).1
      ensures buckets == old(buckets)[user := WsCheck(Find(old(buckets), user), WS_SEND_LIMIT, WS_SEND_WINDOW, now).0]
    {
      if user !in buckets {
        buckets := buckets[user := Bucket(0, now)];
      }
      if now - buckets[user].start >= WS_SEND_WINDOW {
        buckets := buckets[user := Bucket(0, now)];
      }
      buckets := buckets[user := buckets[user].(count := (buckets[user].count + 1) % U32)];
      ok := buckets[user].count <= WS_SEND_LIMIT;
    }
  }

  // ----- One key's history -----

  /** A request of the key; a replacement of the whole limiter, which starts empty; or new settings
      for the next calls, which leave the buckets as they are. */
  datatype Event =
    | Request(at: Time)
    | Swap(at: Time, max: nat, window: Duration)
    | Retune(at: Time, max: nat, window: Duration)

  datatype Limiter = Limiter(max: nat, window: Duration, bucket: Option<Bucket>)

  function After(l: Limiter, e: Event): Limiter {
    match e
    case Request(t) => l.(bucket := Some(Check(l.bucket, l.max, l.window, t).0))
    case Swap(_, max, window) => Limiter(max, window, None)
    case Retune(_, max, window) => l.(max := max, window := window)
  }

  function Exec(l: Limiter, run: seq<Event>): Limiter {
    if run == [] then l else After(Exec(l, run[..|run| - 1]), run[|run| - 1])
  }

  lemma ExecSnoc(l: Limiter, run: seq<Event>, e: Event)
    ensures Exec(l, run + [e]) == After(Exec(l, run), e)
  {
  }

  predicate RequestsOnly(run: seq<Event>) {
    forall e :: e in run ==> e.Request?
  }

  predicate Chronological(run: seq<Event>) {
    forall i, j :: 0 <= i < j < |run| ==> run[i].at <= run[j].at
  }

  /** Whether event `i` of the run is an admitted request. */
  predicate AdmittedAt(l: Limiter, run: seq<Event>, i: nat)
    requires i < |run|
  {
    var before := Exec(l, run[..i]);
    run[i].Request? && Check(before.bucket, before.max, before.window, run[i].at).1
  }

  /** Admitted requests in the closed interval from `a` to `b`. */
  function Admitted(l: Limiter, run: seq<Event>, a: Time, b: Time): nat {
    if run == [] then 0
    else
      Admitted(l, run[..|run| - 1], a, b) +
      if a <= run[|run| - 1].at <= b && AdmittedAt(l, run, |run| - 1) then 1 else 0
  }

  /** A replacement, or new settings with a shorter window, under which a bucket may end early. */
  predicate Disturbs(before: Limiter, e: Event) {
    e.Swap? || (e.Retune? && e.window < before.window)
  }

  function DisturbancesIn(l: Limiter, run: seq<Event>, a: Time, b: Time): nat {
    if run == [] then 0
    else
      var (init, e) := (run[..|run| - 1], run[|run| - 1]);
      DisturbancesIn(l, init, a, b) + if Disturbs(Exec(l, init), e) && a <= e.at <= b then 1 else 0
  }

  /** Every configuration in force allows at most `max` per window of at least `window`. */
  predicate Within(l: Limiter, run: seq<Event>, max: nat, window: Duration) {
    l.max <= max && l.window >= window && forall e :: e in run && !e.Request? ==> e.max <= max && e.window >= window
  }

  // ----- At most twice the maximum in any window-long interval -----

  /** The budget spent, with an allowance for disturbances, after a prefix whose last event was at `t`:
      a bucket opened by `a` has at most its own count spent, a later one a full one more, and a bucket
      with anything spent beyond the allowance does not end by `a`. */
  predicate Budget(l: Limiter, t: Time, a: Time, max: nat, spent: nat, allowance: nat) {
    && (t < a ==> spent == 0)
    && match l.bucket
       case None => spent <= allowance + max && (t <= a ==> spent <= allowance)
       case Some(b) =>
         && b.count <= max && b.start <= t
         && (if b.start <= a then spent <= allowance + b.count else spent <= allowance + max + b.count)
         && (spent > allowance ==> b.start + l.window > a)
  }

  function LastTime(run: seq<Event>, a: Time): Time {
    if run == [] then a - 1.0 else run[|run| - 1].at
  }

  lemma {:induction false} StaysWithin(l: Limiter, run: seq<Event>, max: nat, window: Duration)
    requires Within(l, run, max, window)
    ensures Exec(l, run).max <= max && Exec(l, run).window >= window
  {
    if run != [] {
      assert forall x :: x in run[..|run| - 1] ==> x in run;
      StaysWithin(l, run[..|run| - 1], max, window);
      assert run[|run| - 1] in run;
    }
  }

  lemma BudgetAfterEvent(l: Limiter, t: Time, e: Event, a: Time, max: nat, window: Duration, spent: nat, swaps: nat)
    requires Budget(l, t, a, max, spent, swaps * max) && t <= e.at <= a + window && max > 0
    requires l.max <= max && l.window >= window > 0.0
    ensures Budget(After(l, e), e.at, a, max,
                   spent + (if a <= e.at && e.Request? && Check(l.bucket, l.max, l.window, e.at).1 then 1 else 0),
                   (swaps + (if Disturbs(l, e) && a <= e.at then 1 else 0)) * max)
  {
    assert (swaps + 1) * max == swaps * max + max;
  }

  /** One event more, read off the definitions. */
  lemma CountedSnoc(l: Limiter, run: seq<Event>, a: Time, b: Time)
    requires run != []
    ensures var (init, e) := (run[..|run| - 1], run[|run| - 1]);
            var before := Exec(l, init);
            && Exec(l, run) == After(before, e)
            && Admitted(l, run, a, b) == Admitted(l, init, a, b) +
                 (if a <= e.at <= b && e.Request? && Check(before.bucket, before.max, before.window, e.at).1 then 1
                     else 0)
            && DisturbancesIn(l, run, a, b) ==
                 DisturbancesIn(l, init, a, b) + (if Disturbs(before, e) && a <= e.at <= b then 1 else 0)
  {
  }

  ghost predicate AllBy(run: seq<Event>, t: Time) {
    forall e :: e in run ==> e.at <= t
  }

  /** What the induction below needs of the run, for all but its last event. */
  lemma BeforeLast(l: Limiter, run: seq<Event>, t: Time, max: nat, window: Duration)
    requires run != [] && Chronological(run) && Within(l, run, max, window) && AllBy(run, t)
    ensures var (init, e) := (run[..|run| - 1], run[|run| - 1]);
            && Chronological(init) && Within(l, init, max, window) && AllBy(init, t)
            && e.at <= t && (init != [] ==> init[|init| - 1].at <= e.at)
  {
    assert run[|run| - 1] in run;
  }

  lemma {:induction false} BudgetHolds(l: Limiter, run: seq<Event>, a: Time, max: nat, window: Duration)
    requires l.bucket == None && Chronological(run) && Within(l, run, max, window) && window > 0.0 && max > 0
    requires AllBy(run, a + window)
    ensures Budget(Exec(l, run), LastTime(run, a), a, max, Admitted(l, run, a, a + window),
                   DisturbancesIn(l, run, a, a + window) * max)
  {
    hide Budget, Check, After, AdmittedAt, Exec, Admitted, DisturbancesIn, Disturbs, Chronological, Within, AllBy;
    EmptyCounts(l, a, a + window);
    assert 0 * max == 0;
    if run == [] {
      BudgetFromEmpty(l, a - 1.0, a, max);
    } else {
      var (init, e) := (run[..|run| - 1], run[|run| - 1]);
      BeforeLast(l, run, a + window, max, window);
      BudgetHolds(l, init, a, max, window);
      StaysWithin(l, init, max, window);
      CountedSnoc(l, run, a, a + window);
      var t := if init == [] && e.at < a - 1.0 then e.at else LastTime(init, a);
      BudgetFromEmpty(l, t, a, max);
      BudgetAfterEvent(Exec(l, init), t, e, a, max, window,
                       Admitted(l, init, a, a + window), DisturbancesIn(l, init, a, a + window));
    }
  }

  lemma EmptyCounts(l: Limiter, a: Time, b: Time)
    ensures Exec(l, []) == l && Admitted(l, [], a, b) == 0 && DisturbancesIn(l, [], a, b) == 0
  {
  }

  lemma BudgetFromEmpty(l: Limiter, t: Time, a: Time, max: nat)
    ensures l.bucket == None && t < a ==> Budget(l, t, a, max, 0, 0)
  {
  }

  /** Any closed interval one window long admits at most twice the maximum, plus the maximum again
      for each replacement of the limiter, or shortening of its window, within it. */
  lemma {:induction false} AtMostTwicePerWindow(l: Limiter, run: seq<Event>, a: Time, max: nat, window: Duration)
    requires l.bucket == None && Chronological(run) && Within(l, run, max, window) && window > 0.0
    ensures Admitted(l, run, a, a + window) <= (2 + DisturbancesIn(l, run, a, a + window)) * max
  {
    hide Budget, Check, AdmittedAt, Disturbs, Chronological, Within, AllBy, Exec;
    if max == 0 {
      NothingAdmittedWithin(l, run, a, a + window, window);
    } else if run != [] && run[|run| - 1].at > a + window {
      InOrder(l, run, max, window);
      AtMostTwicePerWindow(l, run[..|run| - 1], a, max, window);
    } else {
      LastIsLatest(run, a + window);
      BudgetHolds(l, run, a, max, window);
      StaysWithin(l, run, max, window);
      BudgetBounds(Exec(l, run), LastTime(run, a), a, max, Admitted(l, run, a, a + window),
                   DisturbancesIn(l, run, a, a + window));
    }
  }

  lemma BudgetBounds(l: Limiter, t: Time, a: Time, max: nat, spent: nat, disturbances: nat)
    requires Budget(l, t, a, max, spent, disturbances * max)
    ensures spent <= (2 + disturbances) * max
  {
    assert (2 + disturbances) * max == max + max + disturbances * max;
  }

  lemma InOrder(l: Limiter, run: seq<Event>, max: nat, window: Duration)
    requires run != [] && Chronological(run) && Within(l, run, max, window)
    ensures Chronological(run[..|run| - 1]) && Within(l, run[..|run| - 1], max, window)
  {
  }

  lemma LastIsLatest(run: seq<Event>, t: Time)
    requires Chronological(run) && (run != [] ==> run[|run| - 1].at <= t)
    ensures AllBy(run, t)
  {
    forall e | e in run ensures e.at <= t {
      var i :| 0 <= i < |run| && run[i] == e;
    }
  }

  lemma NothingAdmittedWithin(l: Limiter, run: seq<Event>, a: Time, b: Time, window: Duration)
    requires Within(l, run, 0, window)
    ensures Admitted(l, run, a, b) == 0
  {
    NothingAdmitted(l, run, a, b);
  }

  lemma {:induction false} NothingAdmitted(l: Limiter, run: seq<Event>, a: Time, b: Time)
    requires Within(l, run, 0, 0.0)
    ensures Admitted(l, run, a, b) == 0 && Exec(l, run).max == 0
  {
    if run != [] {
      assert forall x :: x in run[..|run| - 1] ==> x in run;
      NothingAdmitted(l, run[..|run| - 1], a, b);
      assert run[|run| - 1] in run;
    }
  }

  // ----- A window of zero limits nothing -----

  function Repeat(t: Time, n: nat): seq<Event> {
    if n == 0 then [] else Repeat(t, n - 1) + [Request(t)]
  }

  lemma {:induction false} ZeroWindowAdmitsAll(max: nat, n: nat)
    requires max > 0
    ensures var l := Limiter(max, 0.0, None); var run := Repeat(0.0, n);
            |run| == n && (forall e :: e in run ==> e == Request(0.0)) && Admitted(l, run, 0.0, 0.0) == n
    ensures var end := Exec(Limiter(max, 0.0, None), Repeat(0.0, n));
            end.max == max && end.window == 0.0 && (end.bucket.Some? ==> end.bucket.value.start == 0.0)
  {
    hide Exec, Admitted, AdmittedAt, DisturbancesIn;
    var l := Limiter(max, 0.0, None);
    EmptyCounts(l, 0.0, 0.0);
    if n > 0 {
      ZeroWindowAdmitsAll(max, n - 1);
      assert Repeat(0.0, n)[..n - 1] == Repeat(0.0, n - 1);
      CountedSnoc(l, Repeat(0.0, n), 0.0, 0.0);
    }
  }

  /** Admitted requests in the interval one window long from `a` on. */
  function AdmittedFrom(max: nat, window: Duration, run: seq<Event>, a: Time): nat {
    Admitted(Limiter(max, window, None), run, a, a + window)
  }

  ghost predicate NeverExceedsTwice(max: nat, window: Duration) {
    forall run, a :: Chronological(run) && RequestsOnly(run) ==> AdmittedFrom(max, window, run, a) <= 2 * max
  }

  /** The bound holds for every trace of requests exactly when the window is positive, or nothing
      is admitted at all. */
  lemma TwiceBoundIff(max: nat, window: Duration)
    ensures NeverExceedsTwice(max, window) <==> window > 0.0 || max == 0
  {
    if window > 0.0 || max == 0 {
      forall run, a | Chronological(run) && RequestsOnly(run)
        ensures AdmittedFrom(max, window, run, a) <= 2 * max
      {
        NothingDisturbs(Limiter(max, window, None), run, a, a + window);
        if max == 0 {
          NothingAdmitted(Limiter(max, window, None), run, a, a + window);
        } else {
          AtMostTwicePerWindow(Limiter(max, window, None), run, a, max, window);
        }
      }
    } else {
      var run := TooManyAtOnce(max);
      assert AdmittedFrom(max, window, run, 0.0) > 2 * max;
    }
  }

  /** With a window of zero, simultaneous requests are all admitted. */
  lemma TooManyAtOnce(max: nat) returns (run: seq<Event>)
    requires max > 0
    ensures Chronological(run) && RequestsOnly(run) && AdmittedFrom(max, 0.0, run, 0.0) > 2 * max
  {
    run := Repeat(0.0, 2 * max + 1);
    ZeroWindowAdmitsAll(max, 2 * max + 1);
    assert forall i :: 0 <= i < |run| ==> run[i] in run;
  }

  lemma {:induction false} NothingDisturbs(l: Limiter, run: seq<Event>, a: Time, b: Time)
    requires RequestsOnly(run)
    ensures DisturbancesIn(l, run, a, b) == 0
  {
    if run != [] {
      assert run[|run| - 1] in run;
      assert forall x :: x in run[..|run| - 1] ==> x in run;
      NothingDisturbs(l, run[..|run| - 1], a, b);
    }
  }

  // ----- Modest callers are never refused -----

  function RequestTimes(run: seq<Event>): seq<Time> {
    if run == [] then []
    else
      RequestTimes(run[..|run| - 1]) + if run[|run| - 1].Request? then [run[|run| - 1].at] else []
  }

  /** No span shorter than the window holds more than `max` requests. */
  predicate Modest(times: seq<Time>, max: nat, window: Duration) {
    forall i, j :: 0 <= i <= j < |times| && times[j] - times[i] < window ==> j - i + 1 <= max
  }

  /** Every configuration in force allows at least `max` per window of at most `window`. */
  predicate Lenient(l: Limiter, run: seq<Event>, max: nat, window: Duration) {
    l.max >= max && l.window <= window && forall e :: e in run && !e.Request? ==> e.max >= max && e.window <= window
  }

  /** The open window of `b` started at the request `b.count` places before the end of `times`. */
  predicate StartedBack(b: Option<Bucket>, times: seq<Time>) {
    b.Some? ==> 1 <= b.value.count <= |times| && b.value.start == times[|times| - b.value.count]
  }

  lemma ModestHasRoom(l: Limiter, times: seq<Time>, t: Time, max: nat, window: Duration)
    requires Modest(times + [t], max, window) && window > 0.0 && l.max >= max && l.window <= window
    requires StartedBack(l.bucket, times)
    ensures var (b, ok) := Check(l.bucket, l.max, l.window, t); ok && StartedBack(Some(b), times + [t])
  {
    var (all, n) := (times + [t], |times|);
    assert all[n] == t && all[n] - all[n] < window;
    assert 1 <= max;
    if l.bucket.Some? {
      var i := n - l.bucket.value.count;
      assert all[i] == times[i];
      assert all[n] - all[i] < window ==> n - i + 1 <= max;
    }
  }

  lemma {:induction false} ModestAdmitted(l: Limiter, run: seq<Event>, max: nat, window: Duration)
    requires l.bucket == None && Modest(RequestTimes(run), max, window) && window > 0.0 && Lenient(l, run, max, window)
    ensures Exec(l, run).max >= max && Exec(l, run).window <= window
    ensures StartedBack(Exec(l, run).bucket, RequestTimes(run))
    ensures run != [] && run[|run| - 1].Request? ==> AdmittedAt(l, run, |run| - 1)
  {
    if run != [] {
      hide Modest, Check, StartedBack;
      var (init, e) := (run[..|run| - 1], run[|run| - 1]);
      assert e in run && forall x :: x in init ==> x in run;
      ModestPrefix(RequestTimes(init), RequestTimes(run), max, window);
      ModestAdmitted(l, init, max, window);
      if e.Request? {
        ModestHasRoom(Exec(l, init), RequestTimes(init), e.at, max, window);
      } else {
        FreshStartsBack(RequestTimes(run));
      }
    }
  }

  lemma FreshStartsBack(times: seq<Time>)
    ensures StartedBack(None, times)
  {
  }

  lemma ModestPrefix(times: seq<Time>, more: seq<Time>, max: nat, window: Duration)
    requires times <= more && Modest(more, max, window)
    ensures Modest(times, max, window)
  {
    forall i, j | 0 <= i <= j < |times| && times[j] - times[i] < window ensures j - i + 1 <= max {
      assert more[j] - more[i] < window;
    }
  }

  /** A caller who never makes more than `max` requests in a span shorter than the window has every
      request admitted, through replacements and new settings, as long as every configuration allows
      that many in a window no longer. */
  lemma ModestCallerNeverRefused(l: Limiter, run: seq<Event>, max: nat, window: Duration, i: nat)
    requires l.bucket == None && Modest(RequestTimes(run), max, window) && window > 0.0 && Lenient(l, run, max, window)
    requires i < |run| && run[i].Request?
    ensures AdmittedAt(l, run, i)
  {
    hide Modest, Check, RequestTimes, Exec;
    var part := run[..i + 1];
    assert Lenient(l, part, max, window) by {
      assert forall x :: x in part ==> x in run;
    }
    TimesOfPrefix(run, i + 1);
    ModestPrefix(RequestTimes(part), RequestTimes(run), max, window);
    ModestAdmitted(l, part, max, window);
    assert part[..i] == run[..i] && part[i] == run[i];
  }

  lemma {:induction false} TimesOfPrefix(run: seq<Event>, n: nat)
    requires n <= |run|
    ensures RequestTimes(run[..n]) <= RequestTimes(run)
  {
    if n == |run| {
      assert run[..n] == run;
    } else {
      TimesOfPrefix(run[..|run| - 1], n);
      assert run[..|run| - 1][..n] == run[..n];
    }
  }

  // ----- Keys do not interfere -----

  function RunKeys<K(==)>(max: nat, window: Duration, calls: seq<(K, Time)>): map<K, Bucket> {
    if calls == [] then map[]
    else
      var (before, call) := (RunKeys(max, window, calls[..|calls| - 1]), calls[|calls| - 1]);
      before[call.0 := Check(Find(before, call.0), max, window, call.1).0]
  }

  function RequestsOf<K(==)>(calls: seq<(K, Time)>, key: K): seq<Event> {
    if calls == [] then []
    else
      RequestsOf(calls[..|calls| - 1], key) + if calls[|calls| - 1].0 == key then [Request(calls[|calls| - 1].1)]
          else []
  }

  /** In a trace over many keys each key's bucket is what its own requests alone make it, so the
      bounds above hold key by key. */
  lemma {:induction false} KeysAreIndependent<K>(max: nat, window: Duration, calls: seq<(K, Time)>, key: K)
    ensures Find(RunKeys(max, window, calls), key) == Exec(Limiter(max, window, None), RequestsOf(calls, key)).bucket
    ensures var l := Exec(Limiter(max, window, None), RequestsOf(calls, key)); l.max == max && l.window == window
  {
    if calls != [] {
      var init := calls[..|calls| - 1];
      KeysAreIndependent(max, window, init, key);
      assert RequestsOf(init, key) + [] == RequestsOf(init, key);
      if calls[|calls| - 1].0 == key {
        ExecSnoc(Limiter(max, window, None), RequestsOf(init, key), Request(calls[|calls| - 1].1));
      }
    }
  }

  // ----- Counting all requests or only accepted ones -----

  function WsExec(limit: nat, window: Duration, times: seq<Time>): Option<Bucket> {
    if times == [] then None
    else Some(WsCheck(WsExec(limit, window, times[..|times| - 1]), limit, window, times[|times| - 1]).0)
  }

  function CheckExec(max: nat, window: Duration, times: seq<Time>): Option<Bucket> {
    if times == [] then None
    else Some(Check(CheckExec(max, window, times[..|times| - 1]), max, window, times[|times| - 1]).0)
  }

  /** All requests of the current window, without a bound on the count. */
  function WindowCount(window: Duration, times: seq<Time>): Option<Bucket> {
    if times == [] then None
    else
      var o := Opened(WindowCount(window, times[..|times| - 1]), window, times[|times| - 1]);
      Some(o.(count := o.count + 1))
  }

  predicate SameDecision(max: nat, window: Duration, times: seq<Time>, i: nat)
    requires i < |times|
  {
    WsCheck(WsExec(max, window, times[..i]), max, window, times[i]).1
      == Check(CheckExec(max, window, times[..i]), max, window, times[i]).1
  }

  /** With `c` requests in the window, one limiter stores `c` in 32 bits and the other the lesser
      of `c` and the maximum, unless the limit is 0 and nothing is ever stored by the other. */
  lemma {:induction false} Simulation(max: nat, window: Duration, times: seq<Time>)
    ensures times != [] ==>
              var (c, w, f) := (WindowCount(window, times), WsExec(max, window, times), CheckExec(max, window, times));
              && c.Some? && w.Some? && f.Some? && c.value.count > 0
              && w.value == Bucket(c.value.count % U32, c.value.start)
              && f.value == Bucket(if c.value.count < max then c.value.count else max, c.value.start)
  {
    if times != [] {
      Simulation(max, window, times[..|times| - 1]);
      var c := WindowCount(window, times[..|times| - 1]);
      if c.Some? {
        WrapSuccessor(c.value.count);
      }
    }
  }

  lemma WrapSuccessor(c: nat)
    ensures (c % U32 + 1) % U32 == (c + 1) % U32
  {
  }

  function CountAt(window: Duration, times: seq<Time>, i: nat): nat
    requires i < |times|
  {
    WindowCount(window, times[..i + 1]).value.count
  }

  lemma DecisionByCount(max: nat, window: Duration, times: seq<Time>, i: nat)
    requires i < |times|
    ensures SameDecision(max, window, times, i) <==> (CountAt(window, times, i) % U32 <= max <==>
        CountAt(window, times, i) <= max)
  {
    Simulation(max, window, times[..i]);
    Simulation(max, window, times[..i + 1]);
    assert times[..i + 1][..i] == times[..i];
  }

  /** The two limiters decide every request of a trace alike exactly when no window holds as many
      as 2^32 requests, at which the 32-bit count starts again from zero. */
  lemma DecideAlikeIff(max: nat, window: Duration, times: seq<Time>)
    requires max < U32
    ensures (forall i :: 0 <= i < |times| ==> SameDecision(max, window, times, i))
       <==> (forall i :: 0 <= i < |times| ==> CountAt(window, times, i) < U32)
  {
    forall i | 0 <= i < |times|
      ensures SameDecision(max, window, times, i) <==> (CountAt(window, times, i) % U32 <= max <==>
          CountAt(window, times, i) <= max)
    {
      DecisionByCount(max, window, times, i);
    }
    if i :| 0 <= i < |times| && CountAt(window, times, i) >= U32 {
      var j := FirstWrap(window, times, i);
      assert !SameDecision(max, window, times, j);
    }
  }

  /** Counts grow one by one, so some request is the 2^32-th of its window. */
  lemma {:induction false} FirstWrap(window: Duration, times: seq<Time>, i: nat) returns (j: nat)
    requires i < |times| && CountAt(window, times, i) >= U32
    ensures j <= i && CountAt(window, times, j) == U32
  {
    assert times[..i + 1][..i] == times[..i];
    if CountAt(window, times, i) == U32 {
      j := i;
    } else {
      assert times[..0] == [];
      assert CountAt(window, times, i) == Opened(WindowCount(window, times[..i]), window, times[i]).count + 1;
      j := FirstWrap(window, times, i - 1);
    }
  }
}
