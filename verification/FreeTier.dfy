/**
 Free-tier quotas: per-wallet counters in UTC hour and day buckets, consumed locally,
 merged from gossip and pruned.
 */
module FreeTier {
  import opened Numeric
  import opened Types

  const MS_PER_HOUR: u64 := 3_600_000
  const MS_PER_DAY: u64 := 86_400_000

  datatype Config = Config(hourlyLimit: u32, dailyLimit: u32)

  datatype QuotaOutcome =
    | Allowed(hourlyRemaining: u32, dailyRemaining: u32)
    | HourlyExceeded(retryAfterMs: u64)
    | DailyExceeded(retryAfterMs: u64)
    | RetryOverflow

  datatype Bucket = Bucket(wallet: Address, idx: u64)

  type Counts = map<Bucket, u32>

  datatype Tick = Tick(wallet: Address, hourBucket: u64, dayBucket: u64, hourlyCount: u32, dailyCount: u32)

  /** The two kinds of window. */
  datatype Window = Hour | Day

  function Width(w: Window): u64 {
    if w.Hour? then MS_PER_HOUR else MS_PER_DAY
  }

  function Index(w: Window, now: u64): u64 {
    now / Width(w)
  }

  /** When the window of `now` rolls over; nothing where that is past the end of the clock. */
  function RollsOver(w: Window, now: u64): Option<u64> {
    if (Index(w, now) + 1) * Width(w) > U64_MAX then None else Some((Index(w, now) + 1) * Width(w))
  }

  /** A caller that waits as told is in the next window and not a moment late; there is no
      answer exactly in the last window of the clock. */
  lemma RollsOverExactly(w: Window, now: u64)
    ensures RollsOver(w, now).None? <==> Index(w, now) == Index(w, U64_MAX)
    ensures RollsOver(w, now).Some? ==>
      var t := RollsOver(w, now).value;
      now < t <= now + Width(w) && Index(w, t) == Index(w, now) + 1 && Index(w, t - 1) == Index(w, now)
  {
    match w
    case Hour =>
    case Day =>
  }

  function Get(c: Counts, b: Bucket): u32 {
    if b in c then c[b] else 0
  }

  function Added(c: Counts, b: Bucket, delta: u32): Counts {
    c[b := SatAdd32(Get(c, b), delta)]
  }

  function Kept(c: Counts, cutoff: u64): Counts {
    map b | b in c && b.idx >= cutoff :: c[b]
  }

  // ----- The tracker -----

  datatype Quota = Quota(hourly: Counts, daily: Counts) {
    function Of(w: Window): Counts {
      if w.Hour? then hourly else daily
    }
  }

  function Limit(cfg: Config, w: Window): u32 {
    if w.Hour? then cfg.hourlyLimit else cfg.dailyLimit
  }

  function Checked(cfg: Config, q: Quota, wallet: Address, now: u64): QuotaOutcome {
    var h, d := Get(q.hourly, Bucket(wallet, Index(Hour, now))), Get(q.daily, Bucket(wallet, Index(Day, now)));
    if h >= cfg.hourlyLimit then
      match RollsOver(Hour, now) case Some(t) => HourlyExceeded(t) case None => RetryOverflow
    else if d >= cfg.dailyLimit then
      match RollsOver(Day, now) case Some(t) => DailyExceeded(t) case None => RetryOverflow
    else Allowed(cfg.hourlyLimit - h, cfg.dailyLimit - d)
  }

  function Consumed(cfg: Config, q: Quota, wallet: Address, now: u64): Quota {
    if Checked(cfg, q, wallet, now).Allowed? then
      Quota(Added(q.hourly, Bucket(wallet, Index(Hour, now)), 1), Added(q.daily, Bucket(wallet, Index(Day, now)), 1))
    else q
  }

  function Absorbed(q: Quota, t: Tick): Quota {
    Quota(
      if t.hourlyCount > 0 then Added(q.hourly, Bucket(t.wallet, t.hourBucket), t.hourlyCount) else q.hourly,
      if t.dailyCount > 0 then Added(q.daily, Bucket(t.wallet, t.dayBucket), t.dailyCount) else q.daily)
  }

  /** First bucket a pruning at `now` keeps: the one before the current. */
  function Cutoff(w: Window, now: u64): u64 {
    SatSub64(Index(w, now), 1)
  }

  function Pruned(q: Quota, now: u64): Quota {
    Quota(Kept(q.hourly, Cutoff(Hour, now)), Kept(q.daily, Cutoff(Day, now)))
  }

  class FreeTierTracker {
    const cfg: Config
    var hourly: Counts
    var daily: Counts

    function View(): Quota
      reads this
    {
      Quota(hourly, daily)
    }

    constructor (cfg: Config)
      ensures this.cfg == cfg && View() == Quota(map[], map[])
    {
      this.cfg, hourly, daily := cfg, map[], map[];
    }

    method Check(wallet: Address, now: u64) returns (r: QuotaOutcome)
      ensures r == Checked(cfg, View(), wallet, now)
    {
      var hourUsed := Get(hourly, Bucket(wallet, Index(Hour, now)));
      var dayUsed := Get(daily, Bucket(wallet, Index(Day, now)));
      if hourUsed >= cfg.hourlyLimit {
        if (Index(Hour, now) + 1) * MS_PER_HOUR > U64_MAX {
          return RetryOverflow;
        }
        return HourlyExceeded((Index(Hour, now) + 1) * MS_PER_HOUR);
      }
      if dayUsed >= cfg.dailyLimit {
        if (Index(Day, now) + 1) * MS_PER_DAY > U64_MAX {
          return RetryOverflow;
        }
        return DailyExceeded((Index(Day, now) + 1) * MS_PER_DAY);
      }
      r := Allowed(cfg.hourlyLimit - hourUsed, cfg.dailyLimit - dayUsed);
    }

    method Consume(wallet: Address, now: u64) returns (r: QuotaOutcome)
      modifies this
      ensures r == Checked(cfg, old(View()), wallet, now)
      ensures View() == Consumed(cfg, old(View()), wallet, now)
    {
      r := Check(wallet, now);
      if r.Allowed? {
        hourly := Added(hourly, Bucket(wallet, Index(Hour, now)), 1);
        daily := Added(daily, Bucket(wallet, Index(Day, now)), 1);
      }
    }

    method AbsorbTick(t: Tick)
      modifies this
      ensures View() == Absorbed(old(View()), t)
    {
      if t.hourlyCount > 0 {
        hourly := Added(hourly, Bucket(t.wallet, t.hourBucket), t.hourlyCount);
      }
      if t.dailyCount > 0 {
        daily := Added(daily, Bucket(t.wallet, t.dayBucket), t.dailyCount);
      }
    }

    method Prune(now: u64)
      modifies this
      ensures View() == Pruned(old(View()), now)
    {
      hourly := Kept(hourly, Cutoff(Hour, now));
      daily := Kept(daily, Cutoff(Day, now));
    }
  }

  /** A wallet under both limits is allowed one more, and told what is left; else the hour's limit is
      reported before the day's, unless the clock ends before its window does. */
  lemma CheckedExactly(cfg: Config, q: Quota, wallet: Address, now: u64)
    ensures var r, h, d := Checked(cfg, q, wallet, now),
        Get(q.hourly, Bucket(wallet, now / 3_600_000)), Get(q.daily, Bucket(wallet, now / 86_400_000));
      var hourEnds, dayEnds := (now / 3_600_000 + 1) * 3_600_000, (now / 86_400_000 + 1) * 86_400_000;
      if h < cfg.hourlyLimit && d < cfg.dailyLimit then r == Allowed(cfg.hourlyLimit - h, cfg.dailyLimit - d)
      else if h >= cfg.hourlyLimit then r == if hourEnds <= U64_MAX then HourlyExceeded(hourEnds) else RetryOverflow
      else r == if dayEnds <= U64_MAX then DailyExceeded(dayEnds) else RetryOverflow
  {
  }

  /** Pruning drops exactly the buckets before the last full hour and the last full day. */
  lemma PrunesExactly(q: Quota, now: u64)
    ensures var p := Pruned(q, now);
      && (forall b :: b in p.hourly <==> b in q.hourly && now / 3_600_000 <= b.idx + 1)
      && (forall b :: b in p.daily <==> b in q.daily && now / 86_400_000 <= b.idx + 1)
      && (forall b :: b in p.hourly ==> p.hourly[b] == q.hourly[b])
      && (forall b :: b in p.daily ==> p.daily[b] == q.daily[b])
  {
  }

  // ----- Runs -----

  datatype Op = Use(wallet: Address, now: u64) | Gossip(tick: Tick) | Clean(now: u64)

  function Next(cfg: Config, q: Quota, op: Op): Quota {
    match op
    case Use(wallet, now) => Consumed(cfg, q, wallet, now)
    case Gossip(t) => Absorbed(q, t)
    case Clean(now) => Pruned(q, now)
  }

  function After(cfg: Config, q: Quota, ops: seq<Op>): Quota {
    if ops == [] then q else Next(cfg, After(cfg, q, ops[..|ops| - 1]), ops[|ops| - 1])
  }

  const FRESH := Quota(map[], map[])

  /** Whether op `i` of a run grants `b.wallet` a job in window bucket `b.idx`. */
  predicate Grants(cfg: Config, q: Quota, op: Op, w: Window, b: Bucket) {
    op.Use? && op.wallet == b.wallet && Index(w, op.now) == b.idx && Checked(cfg, q, op.wallet, op.now).Allowed?
  }

  /** Jobs granted in bucket `b` over a run from an empty tracker. */
  function Granted(cfg: Config, ops: seq<Op>, w: Window, b: Bucket): nat {
    if ops == [] then 0
    else
      var earlier := ops[..|ops| - 1];
      Granted(cfg, earlier, w, b) + if Grants(cfg, After(cfg, FRESH, earlier), ops[|ops| - 1], w, b) then 1 else 0
  }

  /** Time of the last timed op, 0 before any. */
  function Clock(ops: seq<Op>): u64 {
    if ops == [] then 0
    else
      var last := ops[|ops| - 1];
      if last.Gossip? then Clock(ops[..|ops| - 1]) else last.now
  }

  /** Times of uses and prunings never go back. */
  predicate Ordered(ops: seq<Op>) {
    ops == [] ||
    (Ordered(ops[..|ops| - 1]) && (ops[|ops| - 1].Gossip? || Clock(ops[..|ops| - 1]) <= ops[|ops| - 1].now))
  }

  lemma IndexMono(w: Window, a: u64, b: u64)
    requires a <= b
    ensures Index(w, a) <= Index(w, b)
  {
  }

  lemma NextCount(cfg: Config, q: Quota, op: Op, w: Window, b: Bucket, clock: u64)
    requires !op.Gossip? ==> clock <= op.now
    requires b.idx >= Index(w, if op.Gossip? then clock else op.now)
    ensures var before, after := Get(q.Of(w), b), Get(Next(cfg, q, op).Of(w), b);
      before <= after && (Grants(cfg, q, op, w, b) ==> before < Limit(cfg, w) && after == before + 1)
  {
    match op
    case Use(wallet, now) =>
    case Gossip(t) =>
    case Clean(now) =>
  }

  /** Over every mix of uses, gossip and pruning with times that never go back, a wallet
      is granted at most the limit in each hour and in each day. */
  lemma {:induction false} GrantsWithinLimit(cfg: Config, ops: seq<Op>, w: Window, b: Bucket)
    requires Ordered(ops)
    ensures Granted(cfg, ops, w, b) <= Limit(cfg, w)
    ensures b.idx >= Index(w, Clock(ops)) ==> Granted(cfg, ops, w, b) <= Get(After(cfg, FRESH, ops).Of(w), b)
  {
    if ops != [] {
      var earlier, op := ops[..|ops| - 1], ops[|ops| - 1];
      GrantsWithinLimit(cfg, earlier, w, b);
      if !op.Gossip? {
        IndexMono(w, Clock(earlier), op.now);
      }
      if b.idx >= Index(w, Clock(ops)) {
        NextCount(cfg, After(cfg, FRESH, earlier), op, w, b, Clock(earlier));
      }
    }
  }

  function Amount(t: Tick, w: Window, b: Bucket): nat {
    if w.Hour? then (if Bucket(t.wallet, t.hourBucket) == b then t.hourlyCount else 0)
    else (if Bucket(t.wallet, t.dayBucket) == b then t.dailyCount else 0)
  }

  /** What gossip reported for bucket `b` over a run. */
  function Gossiped(ops: seq<Op>, w: Window, b: Bucket): nat {
    if ops == [] then 0
    else
      var op := ops[|ops| - 1];
      Gossiped(ops[..|ops| - 1], w, b) + if op.Gossip? then Amount(op.tick, w, b) else 0
  }

  /** What one operation adds to a bucket that is not over. */
  lemma NextCountIs(cfg: Config, q: Quota, op: Op, w: Window, b: Bucket, clock: u64)
    requires !op.Gossip? ==> clock <= op.now
    requires b.idx >= Index(w, if op.Gossip? then clock else op.now)
    ensures Get(Next(cfg, q, op).Of(w), b) == Min(Get(q.Of(w), b)
      + (if Grants(cfg, q, op, w, b) then 1 else 0) + (if op.Gossip? then Amount(op.tick, w, b) else 0), U32_MAX)
  {
    match op
    case Use(wallet, now) =>
    case Gossip(t) =>
    case Clean(now) =>
  }

  lemma GrantBelowLimit(cfg: Config, q: Quota, op: Op, w: Window, b: Bucket)
    ensures Grants(cfg, q, op, w, b) ==> Get(q.Of(w), b) < Limit(cfg, w)
  {
  }

  /** Of a window that is not over the tracker knows exactly what it granted and what gossip reported. */
  lemma {:induction false} CountsAreGrants(cfg: Config, ops: seq<Op>, w: Window, b: Bucket)
    requires Ordered(ops) && b.idx >= Index(w, Clock(ops))
    ensures Get(After(cfg, FRESH, ops).Of(w), b) == Min(Granted(cfg, ops, w, b) + Gossiped(ops, w, b), U32_MAX)
  {
    if ops != [] {
      hide Next, Grants, Index, Amount;
      var earlier, op := ops[..|ops| - 1], ops[|ops| - 1];
      if !op.Gossip? {
        IndexMono(w, Clock(earlier), op.now);
      }
      CountsAreGrants(cfg, earlier, w, b);
      NextCountIs(cfg, After(cfg, FRESH, earlier), op, w, b, Clock(earlier));
      GrantBelowLimit(cfg, After(cfg, FRESH, earlier), op, w, b);
    }
  }

  /** After every run a wallet is allowed a job exactly when what it was granted and what gossip reported
      are below the limit, in the hour and in the day. */
  lemma AllowedExactly(cfg: Config, ops: seq<Op>, wallet: Address, now: u64)
    requires Ordered(ops) && Clock(ops) <= now
    ensures var hour, day := Bucket(wallet, now / 3_600_000), Bucket(wallet, now / 86_400_000);
      Checked(cfg, After(cfg, FRESH, ops), wallet, now).Allowed? <==>
        && Granted(cfg, ops, Hour, hour) + Gossiped(ops, Hour, hour) < cfg.hourlyLimit
        && Granted(cfg, ops, Day, day) + Gossiped(ops, Day, day) < cfg.dailyLimit
  {
    hide Checked, After, Granted, Gossiped, Ordered;
    IndexMono(Hour, Clock(ops), now);
    IndexMono(Day, Clock(ops), now);
    CountsAreGrants(cfg, ops, Hour, Bucket(wallet, now / 3_600_000));
    CountsAreGrants(cfg, ops, Day, Bucket(wallet, now / 86_400_000));
    CheckedExactly(cfg, After(cfg, FRESH, ops), wallet, now);
  }

  // ----- Pruning is invisible -----

  /** Two trackers that agree from the bucket before `now` on. */
  ghost predicate AgreeFrom(q: Quota, q': Quota, now: u64) {
    forall w, b: Bucket :: b.idx >= Cutoff(w, now) ==> Get(q.Of(w), b) == Get(q'.Of(w), b)
  }

  /** Uses fall in buckets that a pruning at `now` keeps; gossip and further pruning are free. */
  predicate Recent(ops: seq<Op>, now: u64) {
    forall op :: op in ops && op.Use? ==>
      Index(Hour, op.now) >= Cutoff(Hour, now) && Index(Day, op.now) >= Cutoff(Day, now)
  }

  lemma NextAgrees(cfg: Config, q: Quota, q': Quota, op: Op, now: u64)
    requires AgreeFrom(q, q', now) && Recent([op], now)
    ensures op.Use? ==> Checked(cfg, q, op.wallet, op.now) == Checked(cfg, q', op.wallet, op.now)
    ensures AgreeFrom(Next(cfg, q, op), Next(cfg, q', op), now)
  {
    assert op in [op];
    if op.Use? {
      var h, d := Bucket(op.wallet, Index(Hour, op.now)), Bucket(op.wallet, Index(Day, op.now));
      assert Get(q.Of(Hour), h) == Get(q'.Of(Hour), h) && Get(q.Of(Day), d) == Get(q'.Of(Day), d);
    }
    var n, n' := Next(cfg, q, op), Next(cfg, q', op);
    forall w, b: Bucket | b.idx >= Cutoff(w, now)
      ensures Get(n.Of(w), b) == Get(n'.Of(w), b)
    {
      assert Get(q.Of(w), b) == Get(q'.Of(w), b);
    }
  }

  lemma {:induction false} PruneInvisibleAfter(cfg: Config, q: Quota, now: u64, ops: seq<Op>)
    requires Recent(ops, now)
    ensures AgreeFrom(After(cfg, q, ops), After(cfg, Pruned(q, now), ops), now)
  {
    if ops != [] {
      var earlier, op := ops[..|ops| - 1], ops[|ops| - 1];
      assert op in ops && forall o :: o in earlier ==> o in ops;
      PruneInvisibleAfter(cfg, q, now, earlier);
      NextAgrees(cfg, After(cfg, q, earlier), After(cfg, Pruned(q, now), earlier), op, now);
    }
  }

  /** A pruning changes no later outcome, whatever happens in between, down to uses one
      bucket behind the pruning. */
  lemma PruneChangesNoOutcome(cfg: Config, q: Quota, now: u64, ops: seq<Op>, wallet: Address, later: u64)
    requires Recent(ops + [Use(wallet, later)], now)
    ensures Checked(cfg, After(cfg, q, ops), wallet, later) ==
      Checked(cfg, After(cfg, Pruned(q, now), ops), wallet, later)
  {
    var use := Use(wallet, later);
    assert use in ops + [use] && forall o :: o in ops ==> o in ops + [use];
    PruneInvisibleAfter(cfg, q, now, ops);
    NextAgrees(cfg, After(cfg, q, ops), After(cfg, Pruned(q, now), ops), use, now);
  }

  // ----- Gossip order -----

  function Total(ts: seq<Tick>, w: Window, b: Bucket): nat {
    if ts == [] then 0 else Total(ts[..|ts| - 1], w, b) + Amount(ts[|ts| - 1], w, b)
  }

  function AbsorbedAll(q: Quota, ts: seq<Tick>): Quota {
    if ts == [] then q else Absorbed(AbsorbedAll(q, ts[..|ts| - 1]), ts[|ts| - 1])
  }

  /** A bucket holds what it had plus everything gossiped into it, clamped once. */
  lemma {:induction false} AbsorbedCount(q: Quota, ts: seq<Tick>, w: Window, b: Bucket)
    ensures Get(AbsorbedAll(q, ts).Of(w), b) == Min(Get(q.Of(w), b) + Total(ts, w, b), U32_MAX)
  {
    if ts != [] {
      AbsorbedCount(q, ts[..|ts| - 1], w, b);
    }
  }

  lemma {:induction false} TotalRemove(ts: seq<Tick>, i: nat, w: Window, b: Bucket)
    requires i < |ts|
    ensures Total(ts, w, b) == Total(ts[..i] + ts[i + 1..], w, b) + Amount(ts[i], w, b)
    decreases |ts|
  {
    var n := |ts| - 1;
    if i == n {
      assert ts[..i] + ts[i + 1..] == ts[..n];
    } else {
      TotalRemove(ts[..n], i, w, b);
      var fewer := ts[..i] + ts[i + 1..];
      assert fewer[..|fewer| - 1] == ts[..n][..i] + ts[..n][i + 1..];
    }
  }

  lemma WithoutAt(ts: seq<Tick>, i: nat)
    requires i < |ts|
    ensures multiset(ts[..i] + ts[i + 1..]) == multiset(ts) - multiset{ts[i]}
  {
    assert ts == ts[..i] + ([ts[i]] + ts[i + 1..]);
  }

  lemma FindIn(ts: seq<Tick>, t: Tick) returns (i: nat)
    requires t in multiset(ts)
    ensures i < |ts| && ts[i] == t
  {
    i :| 0 <= i < |ts| && ts[i] == t;
  }

  lemma {:induction false} TotalOfMultiset(ts: seq<Tick>, us: seq<Tick>, w: Window, b: Bucket)
    requires multiset(ts) == multiset(us)
    ensures Total(ts, w, b) == Total(us, w, b)
    decreases |ts|
  {
    assert |ts| == |multiset(ts)| == |multiset(us)| == |us|;
    if ts != [] {
      var n := |ts| - 1;
      var i := FindIn(us, ts[n]);
      WithoutAt(ts, n);
      WithoutAt(us, i);
      assert ts[..n] + ts[n + 1..] == ts[..n];
      TotalOfMultiset(ts[..n], us[..i] + us[i + 1..], w, b);
      TotalRemove(us, i, w, b);
    }
  }

  /** Absorbing the same ticks in any order gives the same counts. */
  lemma AbsorbOrderIrrelevant(q: Quota, ts: seq<Tick>, us: seq<Tick>, w: Window, b: Bucket)
    requires multiset(ts) == multiset(us)
    ensures Get(AbsorbedAll(q, ts).Of(w), b) == Get(AbsorbedAll(q, us).Of(w), b)
  {
    AbsorbedCount(q, ts, w, b);
    AbsorbedCount(q, us, w, b);
    TotalOfMultiset(ts, us, w, b);
  }
}
