/** Which backups a cleanup keeps.
  *
  * Times are nanoseconds since the zero time, the start of year 1.  Backups of the hourly and of
  * the daily window share one table of buckets, keyed by the start of their hour or day, so the
  * first hour of a day and the day itself are the same bucket.
  */
module Retention {
  import opened Common
  import StringOrder

  const Hour := 3_600_000_000_000
  const Day := 24 * Hour
  /** The largest Duration; subtraction of times saturates there. */
  const MaxDuration := 0x7fff_ffff_ffff_ffff

  /** How a backup name is read, and how long hourly and daily backups are kept. */
  datatype Policy = Policy(parse: string -> Option<int>, hourly: int, daily: int)

  predicate ValidPolicy(policy: Policy) {
    policy.hourly <= MaxDuration && policy.daily <= MaxDuration
  }

  function Age(now: int, t: int): int {
    if now - t > MaxDuration then MaxDuration else if now - t < -MaxDuration - 1 then -MaxDuration - 1 else now - t
  }

  /** The start of the hour, and of the day, that `t` lies in. */
  function HourOf(t: int): int {
    t - t % Hour
  }

  function DayOf(t: int): int {
    t - t % Day
  }

  predicate IsYoung(now: int, t: int) {
    Age(now, t) < Hour
  }

  /** The bucket of a backup made at `t`; none when it is young or past the daily window. */
  function Bucket(policy: Policy, now: int, t: int): Option<int> {
    if IsYoung(now, t) then None
    else if Age(now, t) < policy.hourly then Some(HourOf(t))
    else if Age(now, t) < policy.daily then Some(DayOf(t))
    else None
  }

  predicate At(policy: Policy, name: string, t: int) {
    policy.parse(name) == Some(t)
  }

  /** Among `names`, `x` is the one its bucket keeps: no earlier backup shares the bucket, and of
    * the backups made at the same time it is the last by name. */
  ghost predicate Represents(policy: Policy, names: set<string>, now: int, x: string) {
    && policy.parse(x).Some?
    && var t := policy.parse(x).value;
       var k := Bucket(policy, now, t);
       && k.Some?
       && (forall y, u | y in names && At(policy, y, u) && Bucket(policy, now, u) == k :: t <= u)
       && (forall y | y in names && At(policy, y, t) :: StringOrder.LessEq(y, x))
  }

  /** What a cleanup at `now` keeps. */
  ghost predicate Kept(policy: Policy, names: set<string>, now: int, x: string) {
    || policy.parse(x).None?
    || IsYoung(now, policy.parse(x).value)
    || Represents(policy, names, now, x)
  }

  ghost function Survivors(policy: Policy, names: set<string>, now: int): set<string> {
    set x | x in names && Kept(policy, names, now, x)
  }

  // ---------- buckets have representatives ----------

  /** Of a non-empty set of backups, one is the earliest. */
  lemma {:induction false} Earliest(policy: Policy, names: set<string>) returns (x: string)
    requires names != {} && forall y | y in names :: policy.parse(y).Some?
    ensures x in names && forall y | y in names :: policy.parse(x).value <= policy.parse(y).value
  {
    var y :| y in names;
    if names == {y} {
      x := y;
    } else {
      x := Earliest(policy, names - {y});
      if policy.parse(y).value < policy.parse(x).value {
        x := y;
      }
    }
  }

  /** Of a non-empty set of names, one is the last. */
  lemma {:induction false} Last(names: set<string>) returns (x: string)
    requires names != {}
    ensures x in names && forall y | y in names :: StringOrder.LessEq(y, x)
  {
    var y :| y in names;
    StringOrder.Reflexive(y);
    if names == {y} {
      x := y;
    } else {
      x := Last(names - {y});
      StringOrder.Total(x, y);
      if StringOrder.LessEq(x, y) {
        forall z | z in names ensures StringOrder.LessEq(z, y) {
          if z != y { StringOrder.Transitive(z, x, y); }
        }
        x := y;
      }
    }
  }

  /** The bucket of `x` keeps a backup no later than `x`. */
  lemma Representative(policy: Policy, names: set<string>, now: int, x: string) returns (r: string)
    requires x in names && policy.parse(x).Some? && Bucket(policy, now, policy.parse(x).value).Some?
    ensures r in names && Represents(policy, names, now, r)
    ensures policy.parse(r).value <= policy.parse(x).value
    ensures Bucket(policy, now, policy.parse(r).value) == Bucket(policy, now, policy.parse(x).value)
  {
    var k := Bucket(policy, now, policy.parse(x).value);
    var mates := set y | y in names && policy.parse(y).Some? && Bucket(policy, now, policy.parse(y).value) == k;
    assert x in mates;
    var e := Earliest(policy, mates);
    var same := set y | y in names && At(policy, y, policy.parse(e).value);
    assert e in same;
    r := Last(same);
    forall y, u | y in names && At(policy, y, u) && Bucket(policy, now, u) == k ensures policy.parse(r).value <= u {
      assert y in mates;
    }
    forall y | y in names && At(policy, y, policy.parse(r).value) ensures StringOrder.LessEq(y, r) {
      assert y in same;
    }
  }

  // ---------- one cleanup ----------

  /** Hours do not straddle days. */
  lemma HourInDay(t: int)
    ensures DayOf(HourOf(t)) == DayOf(t) <= HourOf(t) <= t < HourOf(t) + Hour <= DayOf(t) + Day
    ensures HourOf(DayOf(t)) == DayOf(t)
  {
    var h, r := t / Hour, t % Hour;
    var d, m := h / 24, h % 24;
    assert t == h * Hour + r && h == d * 24 + m;
    assert t == d * Day + (m * Hour + r);
    assert 0 <= m * Hour + r < Day;
    DayDivision(t, d, m * Hour + r);
    DayDivision(HourOf(t), d, m * Hour);
    HourDivision(DayOf(t), d * 24, 0);
  }

  lemma HourDivision(x: int, q: int, r: int)
    requires x == q * Hour + r && 0 <= r < Hour
    ensures x / Hour == q && x % Hour == r
  {
  }

  lemma DayDivision(x: int, q: int, r: int)
    requires x == q * Day + r && 0 <= r < Day
    ensures x / Day == q && x % Day == r
  {
  }

  /** Backups that share a bucket were made on the same day; and the ones before a backup of the
    * hourly window in the same hour. */
  lemma BucketMates(policy: Policy, now: int, t: int, u: int)
    requires Bucket(policy, now, t).Some? && Bucket(policy, now, t) == Bucket(policy, now, u) && u <= t
    ensures DayOf(u) == DayOf(t)
    ensures Age(now, t) < policy.hourly ==> HourOf(u) == HourOf(t)
  {
    HourInDay(t);
    HourInDay(u);
    var k := Bucket(policy, now, t).value;
    if HourOf(t) == k == DayOf(u) && HourOf(t) != HourOf(u) {
      SameHour(k, u);
      SameHour(k, t);
    }
    SameDay(k, t);
    SameDay(k, u);
  }

  lemma SameHour(k: int, t: int)
    requires k <= t < k + Hour && HourOf(k) == k
    ensures HourOf(t) == k
  {
  }

  lemma SameDay(k: int, t: int)
    requires k == HourOf(t) || k == DayOf(t)
    ensures DayOf(k) == DayOf(t)
  {
    HourInDay(t);
    if k == DayOf(t) {
      DayDivision(k, t / Day, 0);
    }
  }

  /** What a cleanup removes within the daily window is covered by a survivor that is no later: in
    * the same hour for the hourly window, on the same day for the daily one. */
  lemma RemovedIsCovered(policy: Policy, names: set<string>, now: int, x: string) returns (y: string)
    requires x in names && x !in Survivors(policy, names, now)
    requires policy.parse(x).Some? && Age(now, policy.parse(x).value) < policy.daily
    ensures y in Survivors(policy, names, now) && policy.parse(y).Some?
    ensures policy.parse(y).value <= policy.parse(x).value
    ensures DayOf(policy.parse(y).value) == DayOf(policy.parse(x).value)
    ensures Age(now, policy.parse(x).value) < policy.hourly ==>
      HourOf(policy.parse(y).value) == HourOf(policy.parse(x).value)
  {
    y := Representative(policy, names, now, x);
    BucketMates(policy, now, policy.parse(x).value, policy.parse(y).value);
  }

  /** Of two backups of one hour within the hourly window the later one is removed, once it is an hour
    * old. */
  lemma LaterOfHourIsRemoved(policy: Policy, names: set<string>, now: int, x: string, y: string, t: int, u: int)
    requires x in names && y in names && At(policy, x, t) && At(policy, y, u) && t < u && HourOf(t) == HourOf(u)
    requires Hour <= Age(now, u) && Age(now, t) < policy.hourly
    ensures y !in Survivors(policy, names, now)
  {
    assert Bucket(policy, now, t) == Bucket(policy, now, u) == Some(HourOf(u));
  }

  /** Of two backups of one day, both past the hourly window and within the daily one, the later one is
    * removed. */
  lemma LaterOfDayIsRemoved(policy: Policy, names: set<string>, now: int, x: string, y: string, t: int, u: int)
    requires x in names && y in names && At(policy, x, t) && At(policy, y, u) && t < u && DayOf(t) == DayOf(u)
    requires Hour <= Age(now, u) && policy.hourly <= Age(now, u) && Age(now, t) < policy.daily
    ensures y !in Survivors(policy, names, now)
  {
    assert Bucket(policy, now, t) == Bucket(policy, now, u) == Some(DayOf(u));
  }

  /** A backup of time `t` makes one of time `u` superfluous: the same hour, or the same day, and earlier. */
  predicate Supersedes(policy: Policy, now: int, t: int, u: int) {
    && t < u && Hour <= Age(now, u)
    && (|| (HourOf(t) == HourOf(u) && Age(now, t) < policy.hourly)
        || (DayOf(t) == DayOf(u) && policy.hourly <= Age(now, u) && Age(now, t) < policy.daily))
  }

  /** Past every window. */
  predicate Expired(policy: Policy, now: int, t: int) {
    Hour <= Age(now, t) && policy.hourly <= Age(now, t) && policy.daily <= Age(now, t)
  }

  /** A backup past every window is removed. */
  lemma ExpiredIsRemoved(policy: Policy, names: set<string>, now: int, x: string, t: int)
    requires At(policy, x, t) && Expired(policy, now, t)
    ensures x !in Survivors(policy, names, now)
  {
  }

  /** What survives is sparse: of the backups that are an hour old, one per hour in the hourly window, one per
    * day after it, and none past both windows. */
  lemma SurvivorsAreSparse(policy: Policy, names: set<string>, now: int, x: string, y: string, t: int, u: int)
    requires x in Survivors(policy, names, now) && y in Survivors(policy, names, now) && x != y
    requires At(policy, x, t) && At(policy, y, u) && Hour <= Age(now, t) && Hour <= Age(now, u)
    ensures !Expired(policy, now, t)
    ensures Age(now, t) < policy.hourly && Age(now, u) < policy.hourly ==> HourOf(t) != HourOf(u)
    ensures policy.hourly <= Age(now, t) && policy.hourly <= Age(now, u) ==> DayOf(t) != DayOf(u)
  {
    if Bucket(policy, now, t) == Bucket(policy, now, u) {
      assert t == u;
      StringOrder.Antisymmetric(x, y);
    }
  }

  /** A second cleanup at the same instant removes nothing. */
  lemma CleanupIsIdempotent(policy: Policy, names: set<string>, now: int)
    ensures Survivors(policy, Survivors(policy, names, now), now) == Survivors(policy, names, now)
  {
  }

  /** `e` is the time of the earliest backup of its day. */
  ghost predicate EarliestOfDay(policy: Policy, names: set<string>, e: int) {
    && (exists x :: x in names && At(policy, x, e))
    && forall y, u | y in names && At(policy, y, u) && DayOf(u) == DayOf(e) :: e <= u
  }

  /** A cleanup keeps a backup of the earliest time of every day within the daily window. */
  lemma EarliestOfDaySurvives(policy: Policy, names: set<string>, now: int, e: int)
    requires EarliestOfDay(policy, names, e) && Age(now, e) < policy.daily
    ensures EarliestOfDay(policy, Survivors(policy, names, now), e)
  {
    var x :| x in names && At(policy, x, e);
    var s := Survivors(policy, names, now);
    if IsYoung(now, e) {
      assert x in s;
    } else {
      var r := Representative(policy, names, now, x);
      BucketMates(policy, now, e, policy.parse(r).value);
      assert At(policy, r, policy.parse(r).value);
      assert r in s && At(policy, r, e);
    }
  }

  // ---------- any sequence of backups and cleanups ----------

  /** `failing` are the removals that did not succeed. */
  datatype Op = Insert(name: string) | Cleanup(now: int, failing: set<string>)

  ghost function Apply(policy: Policy, names: set<string>, op: Op): set<string> {
    match op
    case Insert(name) => names + {name}
    case Cleanup(now, failing) => Survivors(policy, names, now) + (names * failing)
  }

  ghost function Run(policy: Policy, names: set<string>, ops: seq<Op>): set<string>
    decreases |ops|
  {
    if ops == [] then names else Run(policy, Apply(policy, names, ops[0]), ops[1..])
  }

  /** The earliest backup of a day is never lost: as long as no backup of that day is inserted with
    * an earlier time, and every cleanup runs while it is younger than the daily limit, a backup of
    * that time is there after any sequence of insertions and cleanups, and is still the earliest. */
  lemma {:induction false} EarliestOfDayIsNeverLost(policy: Policy, names: set<string>, ops: seq<Op>, e: int)
    requires EarliestOfDay(policy, names, e)
    requires forall op, u | op in ops && op.Insert? && At(policy, op.name, u) && DayOf(u) == DayOf(e) :: e <= u
    requires forall op | op in ops && op.Cleanup? :: Age(op.now, e) < policy.daily
    ensures EarliestOfDay(policy, Run(policy, names, ops), e)
    decreases |ops|
  {
    if ops != [] {
      var op := ops[0];
      assert op in ops;
      if op.Cleanup? {
        EarliestOfDaySurvives(policy, names, op.now, e);
        var x :| x in Survivors(policy, names, op.now) && At(policy, x, e);
        assert x in Apply(policy, names, op);
      } else {
        var x :| x in names && At(policy, x, e);
        assert x in Apply(policy, names, op);
      }
      EarliestOfDayIsNeverLost(policy, Apply(policy, names, op), ops[1..], e);
    }
  }

  /** A name that cannot be read is there after any sequence of insertions and cleanups, and any other
    * as long as every cleanup happens within an hour of its time. */
  lemma {:induction false} UnreadableAndYoungAreNeverLost(policy: Policy, names: set<string>, ops: seq<Op>, x: string)
    requires x in names
    requires policy.parse(x).None? || forall op | op in ops && op.Cleanup? :: IsYoung(op.now, policy.parse(x).value)
    ensures x in Run(policy, names, ops)
    decreases |ops|
  {
    if ops != [] {
      assert ops[0] in ops;
      UnreadableAndYoungAreNeverLost(policy, Apply(policy, names, ops[0]), ops[1..], x);
    }
  }

  lemma {:induction false} NeverComesBack(policy: Policy, names: set<string>, ops: seq<Op>, x: string)
    requires x !in names && Insert(x) !in ops
    ensures x !in Run(policy, names, ops)
    decreases |ops|
  {
    if ops != [] {
      assert ops[0] in ops;
      NeverComesBack(policy, Apply(policy, names, ops[0]), ops[1..], x);
    }
  }

  /** Once a cleanup has met a backup past every window, and removed it without failing, it is gone whatever
    * follows, unless it is made again. */
  lemma {:induction false} ExpiredStaysGone(policy: Policy, names: set<string>, ops: seq<Op>, i: nat, x: string, t: int)
    requires i < |ops| && ops[i].Cleanup? && x !in ops[i].failing
    requires At(policy, x, t) && Expired(policy, ops[i].now, t)
    requires Insert(x) !in ops[i + 1..]
    ensures x !in Run(policy, names, ops)
    decreases |ops|
  {
    var names' := Apply(policy, names, ops[0]);
    if i == 0 {
      ExpiredIsRemoved(policy, names, ops[0].now, x, t);
      NeverComesBack(policy, names', ops[1..], x);
    } else {
      assert ops[1..][i..] == ops[i + 1..];
      ExpiredStaysGone(policy, names', ops[1..], i - 1, x, t);
    }
  }

  // ---------- the cleanup itself ----------

  function Seen(names: seq<string>, i: nat): set<string>
    requires i <= |names|
  {
    set j | 0 <= j < i :: names[j]
  }

  /** `backups` maps each time to the last name made at it. */
  ghost predicate LastNames(policy: Policy, seen: set<string>, backups: map<int, string>) {
    && (forall y, t | y in seen && At(policy, y, t) :: t in backups && StringOrder.LessEq(y, backups[t]))
    && (forall t | t in backups :: backups[t] in seen && At(policy, backups[t], t))
  }

  /** `buckets` maps each bucket to the earliest time in it. */
  ghost predicate EarliestTimes(policy: Policy, seen: set<string>, now: int, buckets: map<int, int>) {
    && (forall y, t | y in seen && At(policy, y, t) && Bucket(policy, now, t).Some? ::
          Bucket(policy, now, t).value in buckets && buckets[Bucket(policy, now, t).value] <= t)
    && (forall k | k in buckets ::
          Bucket(policy, now, buckets[k]) == Some(k) && exists y :: y in seen && At(policy, y, buckets[k]))
  }

  /** The name a bucket keeps is the one that represents it. */
  lemma BucketKeeps(policy: Policy, names: set<string>, now: int, backups: map<int, string>, buckets: map<int, int>,
                    x: string)
    requires LastNames(policy, names, backups) && EarliestTimes(policy, names, now, buckets) && x in names
    ensures Represents(policy, names, now, x) <==>
      exists k :: k in buckets && buckets[k] in backups && backups[buckets[k]] == x
  {
    if Represents(policy, names, now, x) {
      var t := policy.parse(x).value;
      var k := Bucket(policy, now, t).value;
      assert At(policy, x, t);
      assert buckets[k] == t;
      assert At(policy, backups[t], t);
      StringOrder.Antisymmetric(x, backups[t]);
    }
    if k :| k in buckets && buckets[k] in backups && backups[buckets[k]] == x {
      assert At(policy, x, buckets[k]);
    }
  }

  /** Keep the earlier time; the zero time counts as no time at all. */
  function Lower(buckets: map<int, int>, k: int, t: int): map<int, int> {
    if k !in buckets || buckets[k] == 0 || buckets[k] > t then buckets[k := t] else buckets
  }

  /** The earlier of the two times is kept, unless a zero time is followed by a later one. */
  lemma LowerExactly(buckets: map<int, int>, k: int, t: int)
    ensures var kept := Lower(buckets, k, t)[k];
      (kept <= t && (k in buckets ==> kept <= buckets[k])) <==> !(k in buckets && buckets[k] == 0 < t)
  {
  }

  lemma LastNamesGrow(policy: Policy, seen: set<string>, backups: map<int, string>, name: string)
    requires LastNames(policy, seen, backups) && forall y | y in seen :: StringOrder.LessEq(y, name)
    ensures LastNames(policy, seen + {name},
                      if policy.parse(name).Some? then backups[policy.parse(name).value := name] else backups)
  {
    StringOrder.Reflexive(name);
  }

  // ---------- the zero time ----------

  /** The bucket a name falls into, if it has one. */
  function NameBucket(policy: Policy, name: string, now: int): Option<int> {
    var t :- policy.parse(name);
    Bucket(policy, now, t)
  }

  /** What the loop makes of the first `n` names. */
  function BucketsOf(policy: Policy, names: seq<string>, n: nat, now: int): map<int, int>
    requires n <= |names|
  {
    if n == 0 then map[]
    else
      var buckets := BucketsOf(policy, names, n - 1, now);
      var k := NameBucket(policy, names[n - 1], now);
      if k.Some? then Lower(buckets, k.value, policy.parse(names[n - 1]).value) else buckets
  }

  predicate IsZero(policy: Policy, name: string, now: int) {
    At(policy, name, 0) && Bucket(policy, now, 0).Some?
  }

  /** The name shares the bucket of the zero time without being of it. */
  predicate FollowsZero(policy: Policy, name: string, now: int) {
    NameBucket(policy, name, now) == Some(0) && Bucket(policy, now, 0).Some? && !At(policy, name, 0)
  }

  /** Among the first `n` names, one of the zero time that has a bucket is followed by one of the same
    * bucket and a later time, and not again by one of the zero time. */
  predicate Forgets(policy: Policy, names: seq<string>, n: nat, now: int)
    requires n <= |names|
  {
    exists i, j | 0 <= i < j < n ::
      && IsZero(policy, names[i], now) && FollowsZero(policy, names[j], now)
      && forall l | j < l < n :: !IsZero(policy, names[l], now)
  }

  predicate ZeroSeen(policy: Policy, names: seq<string>, n: nat, now: int)
    requires n <= |names|
  {
    exists i | 0 <= i < n :: IsZero(policy, names[i], now)
  }

  lemma ForgetsStep(policy: Policy, names: seq<string>, n: nat, now: int)
    requires n < |names|
    ensures Forgets(policy, names, n + 1, now) <==>
      && !IsZero(policy, names[n], now)
      && (|| Forgets(policy, names, n, now)
          || (FollowsZero(policy, names[n], now) && ZeroSeen(policy, names, n, now)))
  {
    if !IsZero(policy, names[n], now) && Forgets(policy, names, n, now) {
      var i, j :| 0 <= i < j < n && IsZero(policy, names[i], now) && FollowsZero(policy, names[j], now)
                  && forall l | j < l < n :: !IsZero(policy, names[l], now);
      assert forall l | j < l < n + 1 :: !IsZero(policy, names[l], now);
    }
    if FollowsZero(policy, names[n], now) && ZeroSeen(policy, names, n, now) {
      var i :| 0 <= i < n && IsZero(policy, names[i], now);
      assert IsZero(policy, names[i], now) && FollowsZero(policy, names[n], now);
    }
  }

  /** The times in the bucket of the zero time are the zero time and later ones. */
  lemma ZeroBucket(policy: Policy, now: int, t: int)
    requires Bucket(policy, now, t) == Some(0)
    ensures 0 <= t
  {
    HourInDay(t);
  }

  lemma ZeroHasZeroBucket(policy: Policy, now: int)
    requires Bucket(policy, now, 0).Some?
    ensures Bucket(policy, now, 0) == Some(0)
  {
    HourDivision(0, 0, 0);
    DayDivision(0, 0, 0);
  }

  /** The earliest times, but for the bucket of the zero time if `except`. */
  ghost predicate EarliestBut(policy: Policy, seen: set<string>, now: int, buckets: map<int, int>, except: bool) {
    && (forall y | y in seen && NameBucket(policy, y, now).Some? ::
          var k := NameBucket(policy, y, now).value;
          k in buckets && (buckets[k] <= policy.parse(y).value || (except && k == 0)))
    && (forall k | k in buckets :: Bucket(policy, now, buckets[k]) == Some(k) && Made(policy, seen, buckets[k]))
  }

  ghost predicate Made(policy: Policy, seen: set<string>, t: int) {
    exists y :: y in seen && At(policy, y, t)
  }

  lemma EarliestButNone(policy: Policy, seen: set<string>, now: int, buckets: map<int, int>)
    ensures EarliestBut(policy, seen, now, buckets, false) <==> EarliestTimes(policy, seen, now, buckets)
  {
    if EarliestTimes(policy, seen, now, buckets) {
      forall y | y in seen && NameBucket(policy, y, now).Some?
        ensures var k := NameBucket(policy, y, now).value; k in buckets && buckets[k] <= policy.parse(y).value
      {
        assert At(policy, y, policy.parse(y).value);
      }
    }
    if EarliestBut(policy, seen, now, buckets, false) {
      forall y, t | y in seen && At(policy, y, t) && Bucket(policy, now, t).Some?
        ensures Bucket(policy, now, t).value in buckets && buckets[Bucket(policy, now, t).value] <= t
      {
        assert NameBucket(policy, y, now).Some?;
      }
    }
  }

  lemma MadeGrows(policy: Policy, seen: set<string>, name: string, t: int)
    requires Made(policy, seen, t) || At(policy, name, t)
    ensures Made(policy, seen + {name}, t)
  {
    if At(policy, name, t) {
      assert name in seen + {name};
    } else {
      var y :| y in seen && At(policy, y, t);
      assert y in seen + {name};
    }
  }

  /** A name without a bucket changes nothing. */
  lemma OutsiderKeeps(policy: Policy, seen: set<string>, now: int, buckets: map<int, int>, name: string, except: bool)
    requires EarliestBut(policy, seen, now, buckets, except) && NameBucket(policy, name, now).None?
    ensures EarliestBut(policy, seen + {name}, now, buckets, except)
  {
    forall k | k in buckets ensures Made(policy, seen + {name}, buckets[k]) {
      MadeGrows(policy, seen, name, buckets[k]);
    }
  }

  /** A name of bucket `k` and time `t`, in the cases in which the earlier time is kept or need not be. */
  lemma LowerKeeps(policy: Policy, seen: set<string>, now: int, buckets: map<int, int>, name: string,
                   k: int, t: int, except: bool, except': bool)
    requires EarliestBut(policy, seen, now, buckets, except) && At(policy, name, t) && Bucket(policy, now, t) == Some(k)
    requires k != 0 || except' || t == 0 || (!except && (0 !in buckets || buckets[0] != 0))
    requires k != 0 ==> except' == except
    ensures EarliestBut(policy, seen + {name}, now, Lower(buckets, k, t), except')
  {
    var b := Lower(buckets, k, t);
    assert k in buckets && buckets[k] == 0 ==> Bucket(policy, now, 0) == Some(k);
    if k in buckets && buckets[k] == 0 {
      ZeroHasZeroBucket(policy, now);
    }
    forall y | y in seen + {name} && NameBucket(policy, y, now).Some?
      ensures var l := NameBucket(policy, y, now).value;
        l in b && (b[l] <= policy.parse(y).value || (except' && l == 0))
    {
      if NameBucket(policy, y, now) == Some(0) {
        ZeroBucket(policy, now, policy.parse(y).value);
      }
    }
    forall l | l in b ensures Bucket(policy, now, b[l]) == Some(l) && Made(policy, seen + {name}, b[l]) {
      MadeGrows(policy, seen, name, b[l]);
    }
  }

  /** The state of the loop: all buckets hold the earliest times, but for that of the zero time if it
    * was forgotten, which then holds a later one. */
  ghost predicate LoopState(policy: Policy, names: seq<string>, n: nat, now: int)
    requires n <= |names|
  {
    var buckets := BucketsOf(policy, names, n, now);
    && EarliestBut(policy, Seen(names, n), now, buckets, Forgets(policy, names, n, now))
    && (Forgets(policy, names, n, now) ==> 0 in buckets && buckets[0] > 0)
  }

  /** As long as nothing is forgotten the bucket of a zero time that was seen holds it. */
  lemma ZeroIsHeld(policy: Policy, names: seq<string>, n: nat, now: int)
    requires n <= |names| && LoopState(policy, names, n, now) && !Forgets(policy, names, n, now)
    ensures var buckets := BucketsOf(policy, names, n, now);
      ZeroSeen(policy, names, n, now) <==> 0 in buckets && buckets[0] == 0
  {
    var buckets := BucketsOf(policy, names, n, now);
    if ZeroSeen(policy, names, n, now) {
      var i :| 0 <= i < n && IsZero(policy, names[i], now);
      ZeroHasZeroBucket(policy, now);
      assert names[i] in Seen(names, n) && NameBucket(policy, names[i], now) == Some(0);
      ZeroBucket(policy, now, buckets[0]);
    }
    if 0 in buckets && buckets[0] == 0 {
      assert Made(policy, Seen(names, n), 0);
      var y :| y in Seen(names, n) && At(policy, y, 0);
      var i :| 0 <= i < n && names[i] == y;
      assert IsZero(policy, names[i], now);
    }
  }

  lemma SeenGrows(names: seq<string>, n: nat)
    requires n < |names|
    ensures Seen(names, n + 1) == Seen(names, n) + {names[n]}
  {
  }

  lemma LoopStep(policy: Policy, names: seq<string>, n: nat, now: int)
    requires n < |names| && LoopState(policy, names, n, now)
    ensures LoopState(policy, names, n + 1, now)
  {
    var name, before := names[n], BucketsOf(policy, names, n, now);
    var was, willBe := Forgets(policy, names, n, now), Forgets(policy, names, n + 1, now);
    SeenGrows(names, n);
    ForgetsStep(policy, names, n, now);
    if NameBucket(policy, name, now).None? {
      OutsiderKeeps(policy, Seen(names, n), now, before, name, was);
    } else {
      var k, t := NameBucket(policy, name, now).value, policy.parse(name).value;
      if k == 0 {
        ZeroBucket(policy, now, t);
      } else if t == 0 {
        ZeroHasZeroBucket(policy, now);
      }
      if !was {
        ZeroIsHeld(policy, names, n, now);
      }
      BucketOfFollower(policy, name, now, k, t);
      LowerKeeps(policy, Seen(names, n), now, before, name, k, t, was, willBe);
    }
  }

  lemma BucketOfFollower(policy: Policy, name: string, now: int, k: int, t: int)
    requires At(policy, name, t) && Bucket(policy, now, t) == Some(k)
    ensures t == 0 ==> k == 0 && IsZero(policy, name, now)
    ensures t != 0 ==> !IsZero(policy, name, now)
    ensures FollowsZero(policy, name, now) ==> k == 0 && t != 0
    ensures k == 0 && t != 0 && Bucket(policy, now, 0).Some? ==> FollowsZero(policy, name, now)
  {
    if t == 0 {
      ZeroHasZeroBucket(policy, now);
    }
  }

  lemma LoopStart(policy: Policy, names: seq<string>, now: int)
    ensures LoopState(policy, names, 0, now)
  {
    assert Seen(names, 0) == {};
  }

  lemma {:induction false} LoopInvariant(policy: Policy, names: seq<string>, n: nat, now: int)
    requires n <= |names|
    ensures LoopState(policy, names, n, now)
  {
    if n == 0 {
      LoopStart(policy, names, now);
    } else {
      LoopInvariant(policy, names, n - 1, now);
      LoopStep(policy, names, n - 1, now);
    }
  }

  /** Exactly when every bucket ends up with its earliest time: when no zero time is forgotten. */
  lemma BucketsExactly(policy: Policy, names: seq<string>, now: int)
    ensures EarliestTimes(policy, Seen(names, |names|), now, BucketsOf(policy, names, |names|, now)) <==>
            !Forgets(policy, names, |names|, now)
  {
    var n := |names|;
    var buckets := BucketsOf(policy, names, n, now);
    LoopInvariant(policy, names, n, now);
    EarliestButNone(policy, Seen(names, n), now, buckets);
    if Forgets(policy, names, n, now) {
      var i, j :| 0 <= i < j < n && IsZero(policy, names[i], now) && FollowsZero(policy, names[j], now);
      ZeroHasZeroBucket(policy, now);
      assert names[i] in Seen(names, n) && At(policy, names[i], 0);
    }
  }

  /** A clock past the year 293 leaves no bucket to the zero time. */
  lemma ModernClocksForgetNothing(policy: Policy, names: seq<string>, now: int)
    requires ValidPolicy(policy) && now >= MaxDuration
    ensures !Forgets(policy, names, |names|, now)
  {
  }

  /** Two backups of one hour, the first of them made at the zero time, at a clock of that day: the bucket
    * forgets the first. */
  lemma ZeroTimeIsForgotten(policy: Policy, x: string, y: string, t: int, now: int)
    requires 0 < t < Hour && At(policy, x, 0) && At(policy, y, t)
    requires now == t + Hour && now < policy.hourly
    ensures Forgets(policy, [x, y], 2, now) && BucketsOf(policy, [x, y], 2, now) == map[0 := t]
  {
    HourDivision(t, 0, t);
    HourDivision(0, 0, 0);
    var names := [x, y];
    assert IsZero(policy, names[0], now) && FollowsZero(policy, names[1], now);
    assert BucketsOf(policy, names, 1, now) == Lower(BucketsOf(policy, names, 0, now), 0, 0);
  }

  // ---------- the cleanup ----------

  /** What a cleanup retains or ignores is what it keeps, if no zero time is forgotten. */
  lemma RetainedIsKept(policy: Policy, names: set<string>, now: int, backups: map<int, string>, buckets: map<int, int>,
                       x: string)
    requires LastNames(policy, names, backups) && EarliestTimes(policy, names, now, buckets) && x in names
    ensures Kept(policy, names, now, x) <==>
      || policy.parse(x).None? || IsYoung(now, policy.parse(x).value)
      || exists k :: k in buckets && buckets[k] in backups && backups[buckets[k]] == x
  {
    BucketKeeps(policy, names, now, backups, buckets, x);
  }

  /** The times of buckets are times of backups. */
  lemma BucketsAreMade(policy: Policy, names: seq<string>, now: int, backups: map<int, string>)
    requires LastNames(policy, Seen(names, |names|), backups)
    ensures var buckets := BucketsOf(policy, names, |names|, now); forall k | k in buckets :: buckets[k] in backups
  {
    LoopInvariant(policy, names, |names|, now);
    var buckets := BucketsOf(policy, names, |names|, now);
    forall k | k in buckets ensures buckets[k] in backups {
      assert Made(policy, Seen(names, |names|), buckets[k]);
    }
  }

  /** A forgotten zero time is retained by nothing. */
  lemma ForgottenIsNotRetained(policy: Policy, names: seq<string>, now: int, backups: map<int, string>, x: string,
                               k: int)
    requires LastNames(policy, Seen(names, |names|), backups)
    requires Forgets(policy, names, |names|, now) && At(policy, x, 0)
    requires var buckets := BucketsOf(policy, names, |names|, now); k in buckets && buckets[k] in backups
    ensures backups[BucketsOf(policy, names, |names|, now)[k]] != x
    ensures !IsYoung(now, 0)
  {
    LoopInvariant(policy, names, |names|, now);
    var buckets := BucketsOf(policy, names, |names|, now);
    if backups[buckets[k]] == x {
      assert buckets[k] == 0 && Bucket(policy, now, 0) == Some(k);
      ZeroHasZeroBucket(policy, now);
    }
  }

  /** A backup past every window is retained by nothing. */
  lemma ExpiredIsNotRetained(policy: Policy, names: seq<string>, now: int, backups: map<int, string>, x: string, t: int,
                             k: int)
    requires LastNames(policy, Seen(names, |names|), backups) && At(policy, x, t) && Expired(policy, now, t)
    requires var buckets := BucketsOf(policy, names, |names|, now); k in buckets && buckets[k] in backups
    ensures backups[BucketsOf(policy, names, |names|, now)[k]] != x
  {
    LoopInvariant(policy, names, |names|, now);
  }

  lemma SupersededIsRemoved(policy: Policy, names: set<string>, now: int, x: string, y: string, t: int, u: int)
    requires x in names && y in names && At(policy, x, t) && At(policy, y, u) && Supersedes(policy, now, t, u)
    ensures y !in Survivors(policy, names, now)
  {
    if HourOf(t) == HourOf(u) && Age(now, t) < policy.hourly {
      LaterOfHourIsRemoved(policy, names, now, x, y, t, u);
    } else {
      LaterOfDayIsRemoved(policy, names, now, x, y, t, u);
    }
  }

  class BackupCleanup {
    const policy: Policy
    const interval: int
    /** The names in the backup store. */
    var store: set<string>
    var lastCleanup: int

    constructor (policy: Policy, store: set<string>)
      ensures this.policy == policy && this.store == store && interval == Hour && lastCleanup == 0
    {
      this.policy := policy;
      this.store := store;
      interval := Hour;
      lastCleanup := 0;
    }

    /** Sort the listed backups into unreadable ones, young ones and buckets. */
    method Classify(names: seq<string>, now: int)
      returns (backups: map<int, string>, young: set<string>, ignore: set<string>, buckets: map<int, int>)
      requires StringOrder.Sorted(names)
      ensures LastNames(policy, Seen(names, |names|), backups)
      ensures buckets == BucketsOf(policy, names, |names|, now)
      ensures forall x :: x in ignore <==> x in names && policy.parse(x).None?
      ensures forall x :: x in young <==> x in names && policy.parse(x).Some? && IsYoung(now, policy.parse(x).value)
    {
      backups, young, ignore, buckets := map[], {}, {}, map[];
      for i := 0 to |names|
        invariant LastNames(policy, Seen(names, i), backups)
        invariant buckets == BucketsOf(policy, names, i, now)
        invariant forall x :: x in ignore <==> x in Seen(names, i) && policy.parse(x).None?
        invariant forall x :: x in young <==>
          x in Seen(names, i) && policy.parse(x).Some? && IsYoung(now, policy.parse(x).value)
      {
        var name := names[i];
        SeenGrows(names, i);
        LastNamesGrow(policy, Seen(names, i), backups, name);
        var parsed := policy.parse(name);
        if parsed.None? {
          ignore := ignore + {name};
          continue;
        }
        var t := parsed.value;
        backups := backups[t := name];
        var age := Age(now, t);
        if age < Hour {
          young := young + {name};
          continue;
        }
        if age < policy.hourly {
          buckets := Lower(buckets, HourOf(t), t);
          continue;
        }
        if age < policy.daily {
          buckets := Lower(buckets, DayOf(t), t);
        }
      }
    }

    /** Add the name each bucket keeps. */
    static method RetainBuckets(young: set<string>, backups: map<int, string>, buckets: map<int, int>)
      returns (retain: set<string>)
      requires forall k | k in buckets :: buckets[k] in backups
      ensures forall x :: x in retain <==> x in young || exists k :: k in buckets && backups[buckets[k]] == x
    {
      retain := young;
      var todo := buckets.Keys;
      while todo != {}
        invariant todo <= buckets.Keys
        invariant retain == young + (set k | k in buckets && k !in todo :: backups[buckets[k]])
        decreases todo
      {
        assert exists k :: k in todo by {
          var k := AnyOf(todo);
        }
        var k :| k in todo;
        todo := todo - {k};
        retain := retain + {backups[buckets[k]]};
      }
    }

    /** The loop that removes what is neither retained nor ignored; removals of `failing` fail. */
    method RemoveOthers(names: seq<string>, retain: set<string>, ignore: set<string>, failing: set<string>)
      requires Seen(names, |names|) == store
      modifies this`store
      ensures store == set x | x in old(store) && (x in retain || x in ignore || x in failing)
    {
      for i := 0 to |names|
        invariant store == old(store) - Removable(Seen(names, i), retain, ignore, failing)
      {
        SeenGrows(names, i);
        if names[i] in retain || names[i] in ignore {
          continue;
        }
        if names[i] !in failing {
          store := store - {names[i]};
        }
      }
    }

    /** MaybeDoBackupMaintenance; `listing` is what the store lists, if it can, and removals of `failing`
      * fail. */
    method MaybeDoBackupMaintenance(listing: Option<seq<string>>, now: int, failing: set<string>)
      requires listing.Some? ==>
        StringOrder.Sorted(listing.value) && Seen(listing.value, |listing.value|) == store
      modifies this
      ensures now - old(lastCleanup) < interval || listing.None? ==>
        store == old(store) && lastCleanup == old(lastCleanup)
      ensures now - old(lastCleanup) >= interval && listing.Some? ==>
        && lastCleanup == now
        && if !Forgets(policy, listing.value, |listing.value|, now)
           then store == Apply(policy, old(store), Cleanup(now, failing))
           else forall x | x in old(store) && At(policy, x, 0) && x !in failing :: x !in store
      ensures forall x | x in old(store) && (policy.parse(x).None? || IsYoung(now, policy.parse(x).value)) :: x in store
      ensures now - old(lastCleanup) >= interval && listing.Some? ==>
        forall x, t | x in store && At(policy, x, t) && Expired(policy, now, t) :: x in failing
      ensures now - old(lastCleanup) >= interval && listing.Some? ==>
        !Forgets(policy, listing.value, |listing.value|, now) ==>
        forall x, y, t, u | x in old(store) && y in store && At(policy, x, t) && At(policy, y, u)
                         && Supersedes(policy, now, t, u) :: y in failing
    {
      if now - lastCleanup < interval || listing.None? {
        return;
      }
      var names := listing.value;
      var backups, retain, ignore, buckets := Classify(names, now);
      BucketsAreMade(policy, names, now, backups);
      retain := RetainBuckets(retain, backups, buckets);
      ghost var all := store;
      RemoveOthers(names, retain, ignore, failing);
      if !Forgets(policy, names, |names|, now) {
        BucketsExactly(policy, names, now);
        forall x | x in all ensures Kept(policy, all, now, x) <==> x in retain || x in ignore {
          RetainedIsKept(policy, all, now, backups, buckets, x);
        }
        forall x, y, t, u | x in all && y in all && At(policy, x, t) && At(policy, y, u)
                         && Supersedes(policy, now, t, u)
          ensures y !in Survivors(policy, all, now)
        {
          SupersededIsRemoved(policy, all, now, x, y, t, u);
        }
      } else {
        forall x, k | x in all && At(policy, x, 0) && k in buckets
          ensures backups[buckets[k]] != x && !IsYoung(now, 0)
        {
          ForgottenIsNotRetained(policy, names, now, backups, x, k);
        }
      }
      forall x, t, k | x in all && At(policy, x, t) && Expired(policy, now, t) && k in buckets
        ensures backups[buckets[k]] != x
      {
        ExpiredIsNotRetained(policy, names, now, backups, x, t, k);
      }
      lastCleanup := now;
    }
  }

  function Removable(names: set<string>, retain: set<string>, ignore: set<string>, failing: set<string>): set<string> {
    set x | x in names && x !in retain && x !in ignore && x !in failing
  }
}
