/** The token buckets of server/src/rate_limiter.rs over timed traces of requests, in real arithmetic. */
module TokenBuckets {
  import opened Prelude

  type Name = string

  // ----- One bucket

  datatype Bucket = Bucket(tokens: real, last: real, burst: real, rps: real)

  function NewBucket(burst: real, rps: real, now: real): Bucket {
    Bucket(burst, now, burst, rps)
  }

  function MinR(a: real, b: real): real {
    if a < b then a else b
  }

  /** Time passed; a clock reading before `last` counts as no time. */
  function Since(last: real, now: real): real {
    if now < last then 0.0 else now - last
  }

  /** The tokens after the lazy refill at `now`. */
  function Level(b: Bucket, now: real): real {
    MinR(b.tokens + Since(b.last, now) * b.rps, b.burst)
  }

  /** `Bucket::take`: refill, then take one token if there is one. */
  function Take(b: Bucket, now: real): (bool, Bucket) {
    var level := Level(b, now);
    if level >= 1.0 then (true, b.(tokens := level - 1.0, last := now)) else (false, b.(tokens := level, last := now))
  }

  // ----- The limiter

  datatype Config = Config(globalRps: real, globalBurst: real, publishRps: real, publishBurst: real)

  /** One request; each of its two buckets reads the clock for itself. */
  datatype Call = Call(cn: Name, publish: bool, globalNow: real, publishNow: real)

  datatype Verdict = Allowed | GlobalLimited | PublishLimited

  datatype Limiter = Limiter(global: map<Name, Bucket>, publish: map<Name, Bucket>)

  function BucketOf(m: map<Name, Bucket>, cn: Name, burst: real, rps: real, now: real): Bucket {
    if cn in m then m[cn] else NewBucket(burst, rps, now)
  }

  function Check(cfg: Config, s: Limiter, call: Call): (Verdict, Limiter) {
    var g := Take(BucketOf(s.global, call.cn, cfg.globalBurst, cfg.globalRps, call.globalNow), call.globalNow);
    var s1 := s.(global := s.global[call.cn := g.1]);
    if !g.0 then (GlobalLimited, s1)
    else if !call.publish then (Allowed, s1)
    else
      var p := Take(BucketOf(s.publish, call.cn, cfg.publishBurst, cfg.publishRps, call.publishNow), call.publishNow);
      (if p.0 then Allowed else PublishLimited, s1.(publish := s.publish[call.cn := p.1]))
  }

  function Verdicts(cfg: Config, s: Limiter, calls: seq<Call>): (vs: seq<Verdict>)
    ensures |vs| == |calls|
    decreases |calls|
  {
    if calls == [] then []
    else
      var r := Check(cfg, s, calls[0]);
      [r.0] + Verdicts(cfg, r.1, calls[1..])
  }

  function After(cfg: Config, s: Limiter, calls: seq<Call>): Limiter
    decreases |calls|
  {
    if calls == [] then s else After(cfg, Check(cfg, s, calls[0]).1, calls[1..])
  }

  // ----- Projection: a client is judged by its own calls alone

  function OwnCalls(calls: seq<Call>, cn: Name): seq<Call> {
    if calls == [] then []
    else (if calls[0].cn == cn then [calls[0]] else []) + OwnCalls(calls[1..], cn)
  }

  function OwnVerdicts(calls: seq<Call>, vs: seq<Verdict>, cn: Name): seq<Verdict>
    requires |calls| == |vs|
  {
    if calls == [] then []
    else (if calls[0].cn == cn then [vs[0]] else []) + OwnVerdicts(calls[1..], vs[1..], cn)
  }

  predicate SameFor(m: map<Name, Bucket>, m': map<Name, Bucket>, cn: Name) {
    (cn in m <==> cn in m') && (cn in m ==> m[cn] == m'[cn])
  }

  /** Another client's call does not concern `cn`; its own is judged alike on maps that agree for it. */
  lemma CheckConcerns(cfg: Config, s: Limiter, s': Limiter, call: Call, cn: Name)
    requires SameFor(s.global, s'.global, cn) && SameFor(s.publish, s'.publish, cn)
    ensures var r, r' := Check(cfg, s, call), Check(cfg, s', call);
      if call.cn == cn then r.0 == r'.0 && SameFor(r.1.global, r'.1.global, cn) && SameFor(r.1.publish, r'.1.publish,
        cn)
      else SameFor(r.1.global, s'.global, cn) && SameFor(r.1.publish, s'.publish, cn)
  {
  }

  /** The verdicts a client gets in a trace are the verdicts it would get if nobody else called. */
  lemma {:induction false} OwnCallsDecide(cfg: Config, s: Limiter, s': Limiter, calls: seq<Call>, cn: Name)
    requires SameFor(s.global, s'.global, cn) && SameFor(s.publish, s'.publish, cn)
    ensures OwnVerdicts(calls, Verdicts(cfg, s, calls), cn) == Verdicts(cfg, s', OwnCalls(calls, cn))
    decreases |calls|
  {
    if calls == [] {
    } else {
      var r := Check(cfg, s, calls[0]);
      CheckConcerns(cfg, s, s', calls[0], cn);
      VerdictsHead(cfg, s, calls);
      if calls[0].cn == cn {
        var own := [calls[0]] + OwnCalls(calls[1..], cn);
        assert own[0] == calls[0] && own[1..] == OwnCalls(calls[1..], cn);
        OwnCallsDecide(cfg, r.1, Check(cfg, s', calls[0]).1, calls[1..], cn);
      } else {
        OwnCallsDecide(cfg, r.1, s', calls[1..], cn);
        assert OwnCalls(calls, cn) == OwnCalls(calls[1..], cn);
      }
    }
  }

  // ----- Lazy refill composes

  ghost predicate RatesOk(cfg: Config) {
    cfg.globalRps >= 0.0 && cfg.publishRps >= 0.0 && cfg.globalBurst >= 0.0 && cfg.publishBurst >= 0.0
  }

  lemma Spread(r: real, a: real, b: real)
    ensures (a + b) * r == a * r + b * r
    ensures r >= 0.0 && a >= 0.0 ==> a * r >= 0.0
  {
  }

  /** Refilling twice is refilling once over the whole interval. */
  lemma RefillComposes(b: Bucket, now: real, later: real)
    requires b.rps >= 0.0 && b.last <= now <= later
    ensures Level(b.(tokens := Level(b, now), last := now), later) == Level(b, later)
  {
    Spread(b.rps, now - b.last, later - now);
  }

  // ----- Erasure: a call the global bucket rejects leaves no trace

  /** The level a client has at `t`; a client without a bucket has a full one. */
  function LevelOf(m: map<Name, Bucket>, cn: Name, burst: real, rps: real, t: real): real {
    if cn in m then Level(m[cn], t) else burst
  }

  lemma TakeLowers(m: map<Name, Bucket>, cn: Name, burst: real, rps: real, now: real)
    ensures var r := Take(BucketOf(m, cn, burst, rps, now), now);
      && (r.0 <==> LevelOf(m, cn, burst, rps, now) >= 1.0)
      && LevelOf(m[cn := r.1], cn, burst, rps, now) == LevelOf(m, cn, burst, rps, now) - if r.0 then 1.0 else 0.0
  {
    var b := Take(BucketOf(m, cn, burst, rps, now), now).1;
    assert Since(b.last, now) * b.rps == 0.0;
  }

  /** A call is allowed exactly when the client's levels hold a token for it, takes one token from each bucket that
      admits it, and touches nobody else's buckets. */
  ghost predicate Charged(cfg: Config, s: Limiter, call: Call, allowed: bool, r: Limiter) {
    var g := LevelOf(s.global, call.cn, cfg.globalBurst, cfg.globalRps, call.globalNow);
    var p := LevelOf(s.publish, call.cn, cfg.publishBurst, cfg.publishRps, call.publishNow);
    && (allowed <==> g >= 1.0 && (call.publish ==> p >= 1.0))
    && LevelOf(r.global, call.cn, cfg.globalBurst, cfg.globalRps, call.globalNow) == g - (if g >= 1.0 then 1.0 else 0.0)
    && LevelOf(r.publish, call.cn, cfg.publishBurst, cfg.publishRps, call.publishNow)
         == p - (if call.publish && allowed then 1.0 else 0.0)
    && (forall cn :: cn != call.cn ==> SameFor(s.global, r.global, cn) && SameFor(s.publish, r.publish, cn))
  }

  lemma CheckCharges(cfg: Config, s: Limiter, call: Call)
    ensures Charged(cfg, s, call, Check(cfg, s, call).0.Allowed?, Check(cfg, s, call).1)
  {
    TakeLowers(s.global, call.cn, cfg.globalBurst, cfg.globalRps, call.globalNow);
    TakeLowers(s.publish, call.cn, cfg.publishBurst, cfg.publishRps, call.publishNow);
  }

  /** Buckets of one kind: same parameters, last used by `now`, holding between 0 and burst tokens. */
  ghost predicate BucketsOk(m: map<Name, Bucket>, burst: real, rps: real, now: real) {
    forall cn :: cn in m ==>
      m[cn].burst == burst && m[cn].rps == rps && m[cn].last <= now && 0.0 <= m[cn].tokens <= burst
  }

  lemma TakeOk(m: map<Name, Bucket>, cn: Name, burst: real, rps: real, was: real, now: real)
    requires BucketsOk(m, burst, rps, was) && was <= now && rps >= 0.0 && burst >= 0.0
    ensures var r := Take(BucketOf(m, cn, burst, rps, now), now);
      && 0.0 <= LevelOf(m, cn, burst, rps, now) <= burst
      && (r.0 <==> LevelOf(m, cn, burst, rps, now) >= 1.0)
      && r.1 == Bucket(LevelOf(m, cn, burst, rps, now) - (if r.0 then 1.0 else 0.0), now, burst, rps)
      && BucketsOk(m[cn := r.1], burst, rps, now)
  {
    var b := BucketOf(m, cn, burst, rps, now);
    Spread(rps, now - b.last, 0.0);
  }

  /** The two maps give every client the same level from time `from` on. */
  ghost predicate SameLevels(m: map<Name, Bucket>, m': map<Name, Bucket>, burst: real, rps: real, from: real) {
    forall cn, t :: t >= from ==> LevelOf(m, cn, burst, rps, t) == LevelOf(m', cn, burst, rps, t)
  }

  ghost predicate Timed(calls: seq<Call>) {
    forall i, j :: 0 <= i < j < |calls| ==>
      calls[i].globalNow <= calls[j].globalNow && calls[i].publishNow <= calls[j].publishNow
  }

  ghost predicate NotBefore(calls: seq<Call>, g: real) {
    forall i :: 0 <= i < |calls| ==> g <= calls[i].globalNow
  }

  lemma SameLevelsUpdate(m: map<Name, Bucket>, m': map<Name, Bucket>, burst: real, rps: real, from: real,
                         cn: Name, b: Bucket, now: real)
    requires SameLevels(m, m', burst, rps, from) && from <= now
    ensures SameLevels(m[cn := b], m'[cn := b], burst, rps, now)
  {
    var u, u' := m[cn := b], m'[cn := b];
    forall x, t | t >= now ensures LevelOf(u, x, burst, rps, t) == LevelOf(u', x, burst, rps, t) {
      assert x != cn ==> LevelOf(m, x, burst, rps, t) == LevelOf(m', x, burst, rps, t);
    }
  }

  /** Limiters with the same global levels and publish buckets. */
  ghost predicate AlikeFrom(cfg: Config, s: Limiter, s': Limiter, from: real) {
    && BucketsOk(s.global, cfg.globalBurst, cfg.globalRps, from)
    && BucketsOk(s'.global, cfg.globalBurst, cfg.globalRps, from)
    && SameLevels(s.global, s'.global, cfg.globalBurst, cfg.globalRps, from) && s.publish == s'.publish
  }

  lemma AlikeCheck(cfg: Config, s: Limiter, s': Limiter, c: Call, from: real)
    requires RatesOk(cfg) && from <= c.globalNow && AlikeFrom(cfg, s, s', from)
    ensures Check(cfg, s, c).0 == Check(cfg, s', c).0
    ensures AlikeFrom(cfg, Check(cfg, s, c).1, Check(cfg, s', c).1, c.globalNow)
  {
    var now := c.globalNow;
    TakeOk(s.global, c.cn, cfg.globalBurst, cfg.globalRps, from, now);
    TakeOk(s'.global, c.cn, cfg.globalBurst, cfg.globalRps, from, now);
    assert LevelOf(s.global, c.cn, cfg.globalBurst, cfg.globalRps, now)
        == LevelOf(s'.global, c.cn, cfg.globalBurst, cfg.globalRps, now);
    var b := Take(BucketOf(s.global, c.cn, cfg.globalBurst, cfg.globalRps, now), now).1;
    SameLevelsUpdate(s.global, s'.global, cfg.globalBurst, cfg.globalRps, from, c.cn, b, now);
  }

  lemma {:induction false} SameLevelsSameVerdicts(cfg: Config, s: Limiter, s': Limiter, calls: seq<Call>, from: real)
    requires RatesOk(cfg) && Timed(calls) && NotBefore(calls, from) && AlikeFrom(cfg, s, s', from)
    ensures Verdicts(cfg, s, calls) == Verdicts(cfg, s', calls)
    decreases |calls|
  {
    if calls == [] {
    } else {
      var c := calls[0];
      AlikeCheck(cfg, s, s', c, from);
      VerdictsHead(cfg, s, calls);
      VerdictsHead(cfg, s', calls);
      SameLevelsSameVerdicts(cfg, Check(cfg, s, c).1, Check(cfg, s', c).1, calls[1..], c.globalNow);
    }
  }

  lemma RejectedKeepsLevels(cfg: Config, s: Limiter, c: Call, from: real)
    requires RatesOk(cfg) && from <= c.globalNow && BucketsOk(s.global, cfg.globalBurst, cfg.globalRps, from)
    requires Check(cfg, s, c).0 == GlobalLimited
    ensures SameLevels(Check(cfg, s, c).1.global, s.global, cfg.globalBurst, cfg.globalRps, c.globalNow)
    ensures Check(cfg, s, c).1.publish == s.publish
  {
    var m, m', burst, rps := s.global, Check(cfg, s, c).1.global, cfg.globalBurst, cfg.globalRps;
    var b := BucketOf(m, c.cn, burst, rps, c.globalNow);
    forall cn, t | t >= c.globalNow ensures LevelOf(m', cn, burst, rps, t) == LevelOf(m, cn, burst, rps, t) {
      if cn == c.cn {
        RefillComposes(b, c.globalNow, t);
        Spread(rps, t - c.globalNow, 0.0);
      }
    }
  }

  lemma VerdictsHead(cfg: Config, s: Limiter, calls: seq<Call>)
    requires calls != []
    ensures Verdicts(cfg, s, calls) ==
      [Check(cfg, s, calls[0]).0] + Verdicts(cfg, Check(cfg, s, calls[0]).1, calls[1..])
  {
  }

  lemma FirstCallErasable(cfg: Config, s: Limiter, calls: seq<Call>, from: real)
    requires RatesOk(cfg) && Timed(calls) && NotBefore(calls, from) && calls != []
    requires BucketsOk(s.global, cfg.globalBurst, cfg.globalRps, from)
    requires Check(cfg, s, calls[0]).0 == GlobalLimited
    ensures Verdicts(cfg, Check(cfg, s, calls[0]).1, calls[1..]) == Verdicts(cfg, s, calls[1..])
  {
    var r, now := Check(cfg, s, calls[0]), calls[0].globalNow;
    TakeOk(s.global, calls[0].cn, cfg.globalBurst, cfg.globalRps, from, now);
    RejectedKeepsLevels(cfg, s, calls[0], from);
    SameLevelsSameVerdicts(cfg, r.1, s, calls[1..], now);
  }

  lemma RemoveAtTail<T>(xs: seq<T>, k: nat)
    requires 0 < k < |xs|
    ensures RemoveAt(xs, k) == [xs[0]] + RemoveAt(xs[1..], k - 1)
  {
  }

  /** Deleting a call that the global bucket rejected changes no other verdict. */
  lemma {:induction false} RejectedCallErasable(cfg: Config, s: Limiter, calls: seq<Call>, k: nat, from: real)
    requires RatesOk(cfg) && Timed(calls) && NotBefore(calls, from) && k < |calls|
    requires BucketsOk(s.global, cfg.globalBurst, cfg.globalRps, from)
    requires Verdicts(cfg, s, calls)[k] == GlobalLimited
    ensures Verdicts(cfg, s, RemoveAt(calls, k)) == RemoveAt(Verdicts(cfg, s, calls), k)
    decreases k
  {
    VerdictsHead(cfg, s, calls);
    if k == 0 {
      assert RemoveAt(calls, 0) == calls[1..] && RemoveAt(Verdicts(cfg, s, calls), 0) == Verdicts(cfg, s, calls)[1..];
      FirstCallErasable(cfg, s, calls, from);
    } else {
      var r, now := Check(cfg, s, calls[0]).1, calls[0].globalNow;
      TakeOk(s.global, calls[0].cn, cfg.globalBurst, cfg.globalRps, from, now);
      RejectedCallErasable(cfg, r, calls[1..], k - 1, now);
      RemoveAtTail(calls, k);
      RemoveAtTail(Verdicts(cfg, s, calls), k);
      VerdictsHead(cfg, s, RemoveAt(calls, k));
      assert RemoveAt(calls, k)[1..] == RemoveAt(calls[1..], k - 1);
    }
  }

  // ----- The same limiter on a clock scaled by the refill rates

  /** A bucket whose clock advances by one per refilled token. */
  datatype Meter = Meter(tokens: real, mark: real, burst: real)

  function MeterLevel(b: Meter, mark: real): real {
    MinR(b.tokens + Since(b.mark, mark), b.burst)
  }

  function MeterTake(b: Meter, mark: real): (bool, Meter) {
    var level := MeterLevel(b, mark);
    if level >= 1.0 then (true, Meter(level - 1.0, mark, b.burst)) else (false, Meter(level, mark, b.burst))
  }

  datatype Meters = Meters(global: map<Name, Meter>, publish: map<Name, Meter>)

  datatype Bursts = Bursts(global: real, publish: real)

  function MeterOf(m: map<Name, Meter>, cn: Name, burst: real, mark: real): Meter {
    if cn in m then m[cn] else Meter(burst, mark, burst)
  }

  /** `Check` with both clock readings already scaled. */
  function MeterCheck(b: Bursts, s: Meters, c: Call): (Verdict, Meters) {
    var g := MeterTake(MeterOf(s.global, c.cn, b.global, c.globalNow), c.globalNow);
    var s1 := s.(global := s.global[c.cn := g.1]);
    if !g.0 then (GlobalLimited, s1)
    else if !c.publish then (Allowed, s1)
    else
      var p := MeterTake(MeterOf(s.publish, c.cn, b.publish, c.publishNow), c.publishNow);
      (if p.0 then Allowed else PublishLimited, s1.(publish := s.publish[c.cn := p.1]))
  }

  function MeterVerdicts(b: Bursts, s: Meters, calls: seq<Call>): (vs: seq<Verdict>)
    ensures |vs| == |calls|
    decreases |calls|
  {
    if calls == [] then []
    else
      var r := MeterCheck(b, s, calls[0]);
      [r.0] + MeterVerdicts(b, r.1, calls[1..])
  }

  function ScaleBuckets(m: map<Name, Bucket>): map<Name, Meter> {
    map cn | cn in m :: ScaleBucket(m[cn])
  }

  function ScaleLimiter(s: Limiter): Meters {
    Meters(ScaleBuckets(s.global), ScaleBuckets(s.publish))
  }

  function ScaleCall(cfg: Config, c: Call): Call {
    c.(globalNow := c.globalNow * cfg.globalRps, publishNow := c.publishNow * cfg.publishRps)
  }

  function ScaleCalls(cfg: Config, calls: seq<Call>): (r: seq<Call>)
    ensures |r| == |calls|
    ensures forall i :: 0 <= i < |calls| ==> r[i] == ScaleCall(cfg, calls[i])
  {
    if calls == [] then [] else [ScaleCall(cfg, calls[0])] + ScaleCalls(cfg, calls[1..])
  }

  lemma ScaleOrder(r: real, a: real, b: real)
    requires r >= 0.0 && a <= b
    ensures a * r <= b * r && (b - a) * r == b * r - a * r
  {
  }

  function ScaleBucket(b: Bucket): Meter {
    Meter(b.tokens, b.last * b.rps, b.burst)
  }

  lemma ScaleUpdate(m: map<Name, Bucket>, cn: Name, b: Bucket)
    ensures ScaleBuckets(m[cn := b]) == ScaleBuckets(m)[cn := ScaleBucket(b)]
  {
    var l, r := ScaleBuckets(m[cn := b]), ScaleBuckets(m)[cn := ScaleBucket(b)];
    assert l.Keys == r.Keys;
    forall x | x in l ensures l[x] == r[x] {
    }
  }

  /** Taking at `now` from the bucket of `cn` is taking at `mark` from its meter. */
  predicate TakesAlike(m: map<Name, Bucket>, cn: Name, burst: real, rps: real, now: real, mark: real) {
    var r := Take(BucketOf(m, cn, burst, rps, now), now);
    var r' := MeterTake(MeterOf(ScaleBuckets(m), cn, burst, mark), mark);
    r'.0 == r.0 && ScaleBuckets(m[cn := r.1]) == ScaleBuckets(m)[cn := r'.1]
  }

  /** Taking from a bucket is taking from its meter at the scaled time. */
  lemma TakeScales(m: map<Name, Bucket>, cn: Name, burst: real, rps: real, was: real, now: real, mark: real)
    requires BucketsOk(m, burst, rps, was) && was <= now && rps >= 0.0 && mark == now * rps
    ensures TakesAlike(m, cn, burst, rps, now, mark)
  {
    var b, meter := BucketOf(m, cn, burst, rps, now), MeterOf(ScaleBuckets(m), cn, burst, mark);
    assert meter == ScaleBucket(b);
    OneTakeScales(b, now, mark);
    ScaleUpdate(m, cn, Take(b, now).1);
  }

  lemma OneTakeScales(b: Bucket, now: real, mark: real)
    requires b.rps >= 0.0 && b.last <= now && mark == now * b.rps
    ensures var r, r' := Take(b, now), MeterTake(ScaleBucket(b), mark);
      r'.0 == r.0 && r'.1 == ScaleBucket(r.1)
  {
    ScaleOrder(b.rps, b.last, now);
    assert Level(b, now) == MeterLevel(ScaleBucket(b), mark);
  }

  ghost predicate LimiterOk(cfg: Config, s: Limiter, g: real, p: real) {
    && BucketsOk(s.global, cfg.globalBurst, cfg.globalRps, g)
    && BucketsOk(s.publish, cfg.publishBurst, cfg.publishRps, p)
  }

  ghost predicate From(calls: seq<Call>, g: real, p: real) {
    Timed(calls) && (calls != [] ==> g <= calls[0].globalNow && p <= calls[0].publishNow)
  }

  function BurstsOf(cfg: Config): Bursts {
    Bursts(cfg.globalBurst, cfg.publishBurst)
  }

  lemma CheckOk(cfg: Config, s: Limiter, c: Call, g: real, p: real)
    requires RatesOk(cfg) && LimiterOk(cfg, s, g, p) && g <= c.globalNow && p <= c.publishNow
    ensures LimiterOk(cfg, Check(cfg, s, c).1, c.globalNow, c.publishNow)
  {
    TakeOk(s.global, c.cn, cfg.globalBurst, cfg.globalRps, g, c.globalNow);
    TakeOk(s.publish, c.cn, cfg.publishBurst, cfg.publishRps, p, c.publishNow);
  }

  lemma ChecksAlike(cfg: Config, s: Limiter, c: Call, gm: real, pm: real)
    requires TakesAlike(s.global, c.cn, cfg.globalBurst, cfg.globalRps, c.globalNow, gm)
    requires TakesAlike(s.publish, c.cn, cfg.publishBurst, cfg.publishRps, c.publishNow, pm)
    ensures MeterCheck(BurstsOf(cfg), ScaleLimiter(s), c.(globalNow := gm, publishNow := pm))
         == (Check(cfg, s, c).0, ScaleLimiter(Check(cfg, s, c).1))
  {
  }

  lemma CheckScales(cfg: Config, s: Limiter, c: Call, g: real, p: real)
    requires RatesOk(cfg) && LimiterOk(cfg, s, g, p) && g <= c.globalNow && p <= c.publishNow
    ensures LimiterOk(cfg, Check(cfg, s, c).1, c.globalNow, c.publishNow)
    ensures MeterCheck(BurstsOf(cfg), ScaleLimiter(s), ScaleCall(cfg, c))
         == (Check(cfg, s, c).0, ScaleLimiter(Check(cfg, s, c).1))
  {
    CheckOk(cfg, s, c, g, p);
    var c' := ScaleCall(cfg, c);
    TakeScales(s.global, c.cn, cfg.globalBurst, cfg.globalRps, g, c.globalNow, c'.globalNow);
    TakeScales(s.publish, c.cn, cfg.publishBurst, cfg.publishRps, p, c.publishNow, c'.publishNow);
    ChecksAlike(cfg, s, c, c'.globalNow, c'.publishNow);
  }

  lemma {:induction false} VerdictsScale(cfg: Config, s: Limiter, calls: seq<Call>, g: real, p: real)
    requires RatesOk(cfg) && LimiterOk(cfg, s, g, p) && From(calls, g, p)
    ensures Verdicts(cfg, s, calls) == MeterVerdicts(BurstsOf(cfg), ScaleLimiter(s), ScaleCalls(cfg, calls))
    decreases |calls|
  {
    if calls == [] {
    } else {
      CheckScales(cfg, s, calls[0], g, p);
      VerdictsScale(cfg, Check(cfg, s, calls[0]).1, calls[1..], calls[0].globalNow, calls[0].publishNow);
      VerdictsHead(cfg, s, calls);
    }
  }

  // ----- Window bounds

  function CountGlobal(calls: seq<Call>, vs: seq<Verdict>, cn: Name): nat
    requires |calls| == |vs|
  {
    if calls == [] then 0
    else (if calls[0].cn == cn && vs[0] != GlobalLimited then 1 else 0) + CountGlobal(calls[1..], vs[1..], cn)
  }

  /** The publishes of `cn` that were let through. */
  function CountPublish(calls: seq<Call>, vs: seq<Verdict>, cn: Name): nat
    requires |calls| == |vs|
  {
    if calls == [] then 0
    else (if calls[0].cn == cn && calls[0].publish && vs[0] == Allowed then 1 else 0)
         + CountPublish(calls[1..], vs[1..], cn)
  }

  ghost predicate MetersOk(m: map<Name, Meter>, burst: real, mark: real) {
    burst >= 0.0
    && forall cn :: cn in m ==> m[cn].burst == burst && m[cn].mark <= mark && 0.0 <= m[cn].tokens <= burst
  }

  function MeterLevelOf(m: map<Name, Meter>, cn: Name, burst: real, mark: real): real {
    MeterLevel(MeterOf(m, cn, burst, mark), mark)
  }

  ghost predicate AllMetersOk(b: Bursts, s: Meters, g: real, p: real) {
    MetersOk(s.global, b.global, g) && MetersOk(s.publish, b.publish, p)
  }

  /** Taking one token lowers the level of its owner by one if admitted, and no other level. */
  lemma TakePays(m: map<Name, Meter>, owner: Name, cn: Name, burst: real, was: real, now: real)
    requires MetersOk(m, burst, was) && was <= now
    ensures var r := MeterTake(MeterOf(m, owner, burst, now), now);
      && MetersOk(m[owner := r.1], burst, now)
      && 0.0 <= MeterLevelOf(m[owner := r.1], cn, burst, now)
           == MeterLevelOf(m, cn, burst, now) - (if owner == cn && r.0 then 1.0 else 0.0)
  {
  }

  lemma LevelInRange(m: map<Name, Meter>, cn: Name, burst: real, was: real, now: real)
    requires MetersOk(m, burst, was) && was <= now
    ensures MetersOk(m, burst, now) && 0.0 <= MeterLevelOf(m, cn, burst, now) <= burst
  {
  }

  /** One call pays for its admission out of the client's levels. */
  lemma MeterPays(b: Bursts, s: Meters, c: Call, cn: Name, g: real, p: real)
    requires AllMetersOk(b, s, g, p) && g <= c.globalNow && p <= c.publishNow
    ensures var r := MeterCheck(b, s, c);
      && AllMetersOk(b, r.1, c.globalNow, c.publishNow)
      && 0.0 <= MeterLevelOf(s.global, cn, b.global, c.globalNow) <= b.global
      && 0.0 <= MeterLevelOf(s.publish, cn, b.publish, c.publishNow) <= b.publish
      && 0.0 <= MeterLevelOf(r.1.global, cn, b.global, c.globalNow)
           == MeterLevelOf(s.global, cn, b.global, c.globalNow)
              - (if c.cn == cn && r.0 != GlobalLimited then 1.0 else 0.0)
      && 0.0 <= MeterLevelOf(r.1.publish, cn, b.publish, c.publishNow)
           == MeterLevelOf(s.publish, cn, b.publish, c.publishNow)
              - (if c.cn == cn && c.publish && r.0 == Allowed then 1.0 else 0.0)
  {
    LevelInRange(s.global, cn, b.global, g, c.globalNow);
    LevelInRange(s.publish, cn, b.publish, p, c.publishNow);
    TakePays(s.global, c.cn, cn, b.global, g, c.globalNow);
    TakePays(s.publish, c.cn, cn, b.publish, p, c.publishNow);
  }

  lemma MeterLevelRises(m: map<Name, Meter>, cn: Name, burst: real, mark: real, mark': real)
    requires MetersOk(m, burst, mark) && mark <= mark'
    ensures MeterLevelOf(m, cn, burst, mark') <= MeterLevelOf(m, cn, burst, mark) + mark' - mark
  {
  }

  lemma MeterVerdictsHead(b: Bursts, s: Meters, calls: seq<Call>)
    requires calls != []
    ensures MeterVerdicts(b, s, calls)[0] == MeterCheck(b, s, calls[0]).0
    ensures MeterVerdicts(b, s, calls)[1..] == MeterVerdicts(b, MeterCheck(b, s, calls[0]).1, calls[1..])
  {
  }

  /** Admitted calls use up the level found at the first call of the window plus what is refilled after. */
  lemma {:induction false} WindowSpends(b: Bursts, s: Meters, calls: seq<Call>, cn: Name, g: real, p: real)
    requires AllMetersOk(b, s, g, p) && From(calls, g, p) && calls != []
    ensures CountGlobal(calls, MeterVerdicts(b, s, calls), cn) as real
         <= MeterLevelOf(s.global, cn, b.global, calls[0].globalNow) + calls[|calls| - 1].globalNow - calls[0].globalNow
    ensures CountPublish(calls, MeterVerdicts(b, s, calls), cn) as real
         <= MeterLevelOf(s.publish, cn, b.publish,
           calls[0].publishNow) + calls[|calls| - 1].publishNow - calls[0].publishNow
    decreases |calls|
  {
    var c, rest, r := calls[0], calls[1..], MeterCheck(b, s, calls[0]);
    MeterVerdictsHead(b, s, calls);
    MeterPays(b, s, c, cn, g, p);
    if rest == [] {
    } else {
      WindowSpends(b, r.1, rest, cn, c.globalNow, c.publishNow);
      MeterLevelRises(r.1.global, cn, b.global, c.globalNow, rest[0].globalNow);
      MeterLevelRises(r.1.publish, cn, b.publish, c.publishNow, rest[0].publishNow);
    }
  }

  lemma FewerPublishes(calls: seq<Call>, vs: seq<Verdict>, cn: Name)
    requires |calls| == |vs|
    ensures CountPublish(calls, vs, cn) <= CountGlobal(calls, vs, cn)
  {
  }

  lemma {:induction false} CountsScale(cfg: Config, calls: seq<Call>, vs: seq<Verdict>, cn: Name)
    requires |calls| == |vs|
    ensures CountGlobal(ScaleCalls(cfg, calls), vs, cn) == CountGlobal(calls, vs, cn)
    ensures CountPublish(ScaleCalls(cfg, calls), vs, cn) == CountPublish(calls, vs, cn)
  {
    if calls == [] {
    } else {
      CountsScale(cfg, calls[1..], vs[1..], cn);
      assert ScaleCalls(cfg, calls)[1..] == ScaleCalls(cfg, calls[1..]);
    }
  }

  /** The first verdicts of a trace are those of its first calls. */
  lemma {:induction false} VerdictsPrefix(cfg: Config, s: Limiter, calls: seq<Call>, j: nat)
    requires j <= |calls|
    ensures Verdicts(cfg, s, calls)[..j] == Verdicts(cfg, s, calls[..j])
    decreases j
  {
    if j == 0 {
    } else {
      var r, vs := Check(cfg, s, calls[0]).1, Verdicts(cfg, s, calls);
      VerdictsHead(cfg, s, calls);
      VerdictsHead(cfg, s, calls[..j]);
      VerdictsPrefix(cfg, r, calls[1..], j - 1);
      assert calls[..j][1..] == calls[1..][..j - 1];
      assert vs[..j] == [vs[0]] + vs[1..][..j - 1];
    }
  }

  /** The verdicts from some call on are those of the remaining calls from the state reached there. */
  lemma {:induction false} VerdictsSuffix(cfg: Config, s: Limiter, calls: seq<Call>, i: nat)
    requires i <= |calls|
    ensures Verdicts(cfg, s, calls)[i..] == Verdicts(cfg, After(cfg, s, calls[..i]), calls[i..])
    decreases i
  {
    if i == 0 {
      assert calls[..0] == [] && calls[0..] == calls;
    } else {
      VerdictsHead(cfg, s, calls);
      VerdictsSuffix(cfg, Check(cfg, s, calls[0]).1, calls[1..], i - 1);
      assert calls[..i][1..] == calls[1..][..i - 1] && calls[i..] == calls[1..][i - 1..];
      assert Verdicts(cfg, s, calls)[i..] == Verdicts(cfg, s, calls)[1..][i - 1..];
    }
  }

  /** The verdicts inside a window are those of the window's calls from the state before it. */
  lemma VerdictsWindow(cfg: Config, s: Limiter, calls: seq<Call>, i: nat, j: nat)
    requires i <= j <= |calls|
    ensures Verdicts(cfg, s, calls)[i..j] == Verdicts(cfg, After(cfg, s, calls[..i]), calls[i..j])
  {
    VerdictsPrefix(cfg, s, calls, j);
    VerdictsSuffix(cfg, s, calls[..j], i);
    assert calls[..j][..i] == calls[..i] && calls[..j][i..] == calls[i..j];
    assert Verdicts(cfg, s, calls)[..j][i..] == Verdicts(cfg, s, calls)[i..j];
  }

  lemma {:induction false} AfterOk(cfg: Config, s: Limiter, calls: seq<Call>, g: real, p: real)
    requires RatesOk(cfg) && LimiterOk(cfg, s, g, p) && From(calls, g, p)
    ensures calls != [] ==>
      LimiterOk(cfg, After(cfg, s, calls), calls[|calls| - 1].globalNow, calls[|calls| - 1].publishNow)
    decreases |calls|
  {
    if calls == [] {
    } else {
      CheckScales(cfg, s, calls[0], g, p);
      AfterOk(cfg, Check(cfg, s, calls[0]).1, calls[1..], calls[0].globalNow, calls[0].publishNow);
    }
  }

  function Fresh(): Limiter {
    Limiter(map[], map[])
  }

  lemma ScaledMetersOk(cfg: Config, s: Limiter, g: real, p: real, gm: real, pm: real)
    requires RatesOk(cfg) && LimiterOk(cfg, s, g, p) && gm == g * cfg.globalRps && pm == p * cfg.publishRps
    ensures AllMetersOk(BurstsOf(cfg), ScaleLimiter(s), gm, pm)
  {
    forall cn | cn in s.global ensures s.global[cn].last * cfg.globalRps <= gm {
      ScaleOrder(cfg.globalRps, s.global[cn].last, g);
    }
    forall cn | cn in s.publish ensures s.publish[cn].last * cfg.publishRps <= pm {
      ScaleOrder(cfg.publishRps, s.publish[cn].last, p);
    }
  }

  lemma ScaledPair(cfg: Config, a: Call, b: Call)
    requires RatesOk(cfg) && a.globalNow <= b.globalNow && a.publishNow <= b.publishNow
    ensures ScaleCall(cfg, a).globalNow <= ScaleCall(cfg, b).globalNow
    ensures ScaleCall(cfg, a).publishNow <= ScaleCall(cfg, b).publishNow
  {
    ScaleOrder(cfg.globalRps, a.globalNow, b.globalNow);
    ScaleOrder(cfg.publishRps, a.publishNow, b.publishNow);
  }

  lemma ScaledTimed(cfg: Config, calls: seq<Call>)
    requires RatesOk(cfg) && Timed(calls)
    ensures Timed(ScaleCalls(cfg, calls))
  {
    var sc := ScaleCalls(cfg, calls);
    forall i, j | 0 <= i < j < |calls|
      ensures sc[i].globalNow <= sc[j].globalNow && sc[i].publishNow <= sc[j].publishNow
    {
      ScaledPair(cfg, calls[i], calls[j]);
    }
  }

  /** The scaled limiter is in order at some pair of marks before the scaled calls. */
  lemma ScaledOk(cfg: Config, s: Limiter, calls: seq<Call>, g: real, p: real) returns (gm: real, pm: real)
    requires RatesOk(cfg) && LimiterOk(cfg, s, g, p) && From(calls, g, p)
    ensures AllMetersOk(BurstsOf(cfg), ScaleLimiter(s), gm, pm) && From(ScaleCalls(cfg, calls), gm, pm)
  {
    gm, pm := g * cfg.globalRps, p * cfg.publishRps;
    ScaledMetersOk(cfg, s, g, p, gm, pm);
    ScaledTimed(cfg, calls);
    if calls != [] {
      ScaledPair(cfg, Call("", true, g, p), calls[0]);
    }
  }

  /** `global` admissions and `publish` let-throughs between two calls fit burst + rate * duration. */
  predicate WithinBounds(cfg: Config, first: Call, last: Call, global: nat, publish: nat) {
    && global as real <= cfg.globalBurst + (last.globalNow - first.globalNow) * cfg.globalRps
    && publish as real <= cfg.publishBurst + (last.publishNow - first.publishNow) * cfg.publishRps
    && publish <= global
  }

  lemma WindowMeters(b: Bursts, s: Meters, calls: seq<Call>, cn: Name, g: real, p: real)
    requires AllMetersOk(b, s, g, p) && From(calls, g, p) && calls != []
    ensures var vs, first, last := MeterVerdicts(b, s, calls), calls[0], calls[|calls| - 1];
      && CountGlobal(calls, vs, cn) as real <= b.global + last.globalNow - first.globalNow
      && CountPublish(calls, vs, cn) as real <= b.publish + last.publishNow - first.publishNow
  {
    WindowSpends(b, s, calls, cn, g, p);
    MeterPays(b, s, calls[0], cn, g, p);
  }

  lemma UnscaleBounds(cfg: Config, first: Call, last: Call, global: nat, publish: nat)
    requires RatesOk(cfg) && first.globalNow <= last.globalNow && first.publishNow <= last.publishNow
    requires publish <= global
    requires global as real <= cfg.globalBurst + ScaleCall(cfg, last).globalNow - ScaleCall(cfg, first).globalNow
    requires publish as real <= cfg.publishBurst + ScaleCall(cfg, last).publishNow - ScaleCall(cfg, first).publishNow
    ensures WithinBounds(cfg, first, last, global, publish)
  {
    ScaleOrder(cfg.globalRps, first.globalNow, last.globalNow);
    ScaleOrder(cfg.publishRps, first.publishNow, last.publishNow);
  }

  lemma WindowFrom(cfg: Config, s: Limiter, calls: seq<Call>, cn: Name, g: real, p: real)
    requires RatesOk(cfg) && LimiterOk(cfg, s, g, p) && From(calls, g, p) && calls != []
    ensures var vs := Verdicts(cfg, s, calls);
      WithinBounds(cfg, calls[0], calls[|calls| - 1], CountGlobal(calls, vs, cn), CountPublish(calls, vs, cn))
  {
    var vs, sc := Verdicts(cfg, s, calls), ScaleCalls(cfg, calls);
    var gm, pm := ScaledOk(cfg, s, calls, g, p);
    VerdictsScale(cfg, s, calls, g, p);
    WindowMeters(BurstsOf(cfg), ScaleLimiter(s), sc, cn, gm, pm);
    CountsScale(cfg, calls, vs, cn);
    FewerPublishes(calls, vs, cn);
    UnscaleBounds(cfg, calls[0], calls[|calls| - 1], CountGlobal(calls, vs, cn), CountPublish(calls, vs, cn));
  }

  /** In any window of any trace, a client is admitted at most burst + rate * duration times, and its publishes are
      let through at most as often as both the global and the publish bound allow. */
  lemma WindowBound(cfg: Config, calls: seq<Call>, i: nat, j: nat, cn: Name)
    requires RatesOk(cfg) && Timed(calls) && i < j <= |calls|
    ensures var vs := Verdicts(cfg, Fresh(), calls)[i..j];
      WithinBounds(cfg, calls[i], calls[j - 1], CountGlobal(calls[i..j], vs, cn), CountPublish(calls[i..j], vs, cn))
  {
    VerdictsWindow(cfg, Fresh(), calls, i, j);
    var g, p := BeforeWindow(cfg, calls, i);
    assert Timed(calls[i..j]);
    WindowFrom(cfg, After(cfg, Fresh(), calls[..i]), calls[i..j], cn, g, p);
  }

  /** The state reached at the start of a window is one of the limiter's. */
  lemma BeforeWindow(cfg: Config, calls: seq<Call>, i: nat) returns (g: real, p: real)
    requires RatesOk(cfg) && Timed(calls) && i < |calls|
    ensures LimiterOk(cfg, After(cfg, Fresh(), calls[..i]), g, p) && g <= calls[i].globalNow && p <= calls[i].publishNow
  {
    if i == 0 {
      g, p := calls[0].globalNow, calls[0].publishNow;
    } else {
      g, p := calls[i - 1].globalNow, calls[i - 1].publishNow;
      AfterOk(cfg, Fresh(), calls[..i], calls[0].globalNow, calls[0].publishNow);
    }
  }

  // ----- A client that keeps its distance is never rejected

  ghost predicate Spaced(calls: seq<Call>, cn: Name, g: real, p: real) {
    forall i, j :: 0 <= i < j < |calls| && calls[i].cn == cn && calls[j].cn == cn ==>
      && calls[i].globalNow + g <= calls[j].globalNow
      && (calls[i].publish && calls[j].publish ==> calls[i].publishNow + p <= calls[j].publishNow)
  }

  ghost predicate Ready(b: Bursts, s: Meters, calls: seq<Call>, cn: Name) {
    forall i :: 0 <= i < |calls| && calls[i].cn == cn ==>
      && MeterLevelOf(s.global, cn, b.global, calls[i].globalNow) >= 1.0
      && (calls[i].publish ==> MeterLevelOf(s.publish, cn, b.publish, calls[i].publishNow) >= 1.0)
  }

  lemma {:induction false} MetersNeverReject(b: Bursts, s: Meters, calls: seq<Call>, cn: Name, g: real, p: real)
    requires b.global >= 1.0 && b.publish >= 1.0 && AllMetersOk(b, s, g, p) && From(calls, g, p)
    requires Spaced(calls, cn, 1.0, 1.0) && Ready(b, s, calls, cn)
    ensures forall i :: 0 <= i < |calls| && calls[i].cn == cn ==> MeterVerdicts(b, s, calls)[i] == Allowed
    decreases |calls|
  {
    if calls == [] {
    } else {
      var c, rest, r := calls[0], calls[1..], MeterCheck(b, s, calls[0]);
      MeterVerdictsHead(b, s, calls);
      MeterPays(b, s, c, cn, g, p);
      StaysReady(b, s, calls, cn, g, p);
      MetersNeverReject(b, r.1, rest, cn, c.globalNow, c.publishNow);
      forall i | 0 < i < |calls| && calls[i].cn == cn ensures MeterVerdicts(b, s, calls)[i] == Allowed {
        assert rest[i - 1] == calls[i];
        assert MeterVerdicts(b, s, calls)[1..][i - 1] == MeterVerdicts(b, s, calls)[i];
      }
    }
  }

  lemma StaysReady(b: Bursts, s: Meters, calls: seq<Call>, cn: Name, g: real, p: real)
    requires b.global >= 1.0 && b.publish >= 1.0 && AllMetersOk(b, s, g, p) && From(calls, g, p) && calls != []
    requires Spaced(calls, cn, 1.0, 1.0) && Ready(b, s, calls, cn)
    ensures Ready(b, MeterCheck(b, s, calls[0]).1, calls[1..], cn)
  {
    var c, r := calls[0], MeterCheck(b, s, calls[0]);
    forall i | 0 <= i < |calls[1..]| && calls[1..][i].cn == cn
      ensures MeterLevelOf(r.1.global, cn, b.global, calls[1..][i].globalNow) >= 1.0
      ensures calls[1..][i].publish ==> MeterLevelOf(r.1.publish, cn, b.publish, calls[1..][i].publishNow) >= 1.0
    {
      assert calls[1..][i] == calls[i + 1];
    }
  }

  lemma PerToken(r: real, a: real, b: real)
    requires r > 0.0 && a + 1.0 / r <= b
    ensures a * r + 1.0 <= b * r
  {
    ScaleOrder(r, a + 1.0 / r, b);
    assert (a + 1.0 / r) * r == a * r + 1.0;
  }

  /** With both bursts at least 1 and positive rates, a client whose calls are each at least one global refill apart,
      and whose publishes at least one publish refill, gets every one of them allowed, whatever the others do. */
  lemma SpacedNeverRejected(cfg: Config, calls: seq<Call>, cn: Name)
    requires cfg.globalBurst >= 1.0 && cfg.publishBurst >= 1.0 && cfg.globalRps > 0.0 && cfg.publishRps > 0.0
    requires Timed(calls) && Spaced(calls, cn, 1.0 / cfg.globalRps, 1.0 / cfg.publishRps)
    ensures forall i :: 0 <= i < |calls| && calls[i].cn == cn ==> Verdicts(cfg, Fresh(), calls)[i] == Allowed
  {
    if calls != [] {
      var sc, g, p := ScaleCalls(cfg, calls), calls[0].globalNow, calls[0].publishNow;
      VerdictsScale(cfg, Fresh(), calls, g, p);
      var gm, pm := ScaledOk(cfg, Fresh(), calls, g, p);
      ScaledSpaced(cfg, calls, cn);
      MetersNeverReject(BurstsOf(cfg), ScaleLimiter(Fresh()), sc, cn, gm, pm);
    }
  }

  lemma ScaledApart(cfg: Config, a: Call, b: Call)
    requires cfg.globalRps > 0.0 && cfg.publishRps > 0.0
    ensures a.globalNow + 1.0 / cfg.globalRps <= b.globalNow ==>
      ScaleCall(cfg, a).globalNow + 1.0 <= ScaleCall(cfg, b).globalNow
    ensures a.publishNow + 1.0 / cfg.publishRps <= b.publishNow ==>
      ScaleCall(cfg, a).publishNow + 1.0 <= ScaleCall(cfg, b).publishNow
  {
    if a.globalNow + 1.0 / cfg.globalRps <= b.globalNow {
      PerToken(cfg.globalRps, a.globalNow, b.globalNow);
    }
    if a.publishNow + 1.0 / cfg.publishRps <= b.publishNow {
      PerToken(cfg.publishRps, a.publishNow, b.publishNow);
    }
  }

  lemma ScaledSpaced(cfg: Config, calls: seq<Call>, cn: Name)
    requires cfg.globalRps > 0.0 && cfg.publishRps > 0.0
    requires Spaced(calls, cn, 1.0 / cfg.globalRps, 1.0 / cfg.publishRps)
    ensures Spaced(ScaleCalls(cfg, calls), cn, 1.0, 1.0)
  {
    var sc := ScaleCalls(cfg, calls);
    forall i, j | 0 <= i < j < |sc| && sc[i].cn == cn && sc[j].cn == cn
      ensures sc[i].globalNow + 1.0 <= sc[j].globalNow
      ensures sc[i].publish && sc[j].publish ==> sc[i].publishNow + 1.0 <= sc[j].publishNow
    {
      ScaledApart(cfg, calls[i], calls[j]);
    }
  }

  // ----- The burst is there from the start

  /** How many of the calls are made by `cn`, counting all of them or its publishes only. */
  function Asked(calls: seq<Call>, cn: Name, publishes: bool): nat {
    if calls == [] then 0
    else (if calls[0].cn == cn && (publishes ==> calls[0].publish) then 1 else 0) + Asked(calls[1..], cn, publishes)
  }

  lemma AskedHead(calls: seq<Call>, k: nat, cn: Name, publishes: bool)
    requires k < |calls|
    ensures Asked(calls[..k + 1], cn, publishes)
         == Asked([calls[0]], cn, publishes) + Asked(calls[1..][..k], cn, publishes)
  {
    assert calls[..k + 1][1..] == calls[1..][..k];
  }

  /** `cn` has used at most `used` tokens of its burst. */
  predicate Spare(m: map<Name, Bucket>, cn: Name, burst: real, rps: real, used: nat) {
    cn in m ==> m[cn].burst == burst && m[cn].rps == rps && burst - used as real <= m[cn].tokens <= burst
  }

  lemma SpareTake(m: map<Name, Bucket>, cn: Name, burst: real, rps: real, used: nat, now: real)
    requires Spare(m, cn, burst, rps, used) && rps >= 0.0 && (used + 1) as real <= burst
    ensures var r := Take(BucketOf(m, cn, burst, rps, now), now); r.0 && Spare(m[cn := r.1], cn, burst, rps, used + 1)
  {
    var b := BucketOf(m, cn, burst, rps, now);
    Spread(rps, Since(b.last, now), 0.0);
  }

  /** One call of the client, with tokens to spare for it. */
  lemma SpareCheck(cfg: Config, s: Limiter, c: Call, cn: Name, g: nat, p: nat)
    requires RatesOk(cfg) && Spare(s.global, cn, cfg.globalBurst, cfg.globalRps, g)
    requires c.cn == cn ==> (g + 1) as real <= cfg.globalBurst
    ensures var r := Check(cfg, s, c);
      && (c.cn == cn && !c.publish ==> r.0 == Allowed)
      && Spare(r.1.global, cn, cfg.globalBurst, cfg.globalRps, g + Asked([c], cn, false))
    ensures
      && Spare(s.publish, cn, cfg.publishBurst, cfg.publishRps, p)
      && (p + Asked([c], cn, true)) as real <= cfg.publishBurst ==>
        var r := Check(cfg, s, c);
        && (c.cn == cn ==> r.0 == Allowed)
        && Spare(r.1.publish, cn, cfg.publishBurst, cfg.publishRps, p + Asked([c], cn, true))
  {
    if c.cn == cn {
      SpareTake(s.global, cn, cfg.globalBurst, cfg.globalRps, g, c.globalNow);
      if c.publish && Spare(s.publish, cn, cfg.publishBurst, cfg.publishRps, p) && (p + 1) as real <= cfg.publishBurst {
        SpareTake(s.publish, cn, cfg.publishBurst, cfg.publishRps, p, c.publishNow);
      }
    }
  }

  lemma {:induction false} SpareAllowed(cfg: Config, s: Limiter, calls: seq<Call>, cn: Name, k: nat, g: nat, p: nat)
    requires RatesOk(cfg) && k < |calls| && calls[k].cn == cn
    requires Spare(s.global, cn, cfg.globalBurst, cfg.globalRps, g)
    requires (g + Asked(calls[..k + 1], cn, false)) as real <= cfg.globalBurst
    requires calls[k].publish ==>
      && Spare(s.publish, cn, cfg.publishBurst, cfg.publishRps, p)
      && (p + Asked(calls[..k + 1], cn, true)) as real <= cfg.publishBurst
    ensures Verdicts(cfg, s, calls)[k] == Allowed
    decreases k
  {
    var c := calls[0];
    VerdictsHead(cfg, s, calls);
    AskedHead(calls, k, cn, false);
    AskedHead(calls, k, cn, true);
    SpareCheck(cfg, s, c, cn, g, p);
    if k == 0 {
    } else {
      SpareAllowed(cfg, Check(cfg, s, c).1, calls[1..], cn, k - 1, g + Asked([c], cn, false), p + Asked([c], cn, true));
    }
  }

  /** A new client has its whole bursts: whatever the clock readings and whatever the others do, a call of it is allowed
      as long as the calls it has made do not exceed the global burst, nor, if it is a publish, its publishes the
      publish burst. */
  lemma FirstCallsAllowed(cfg: Config, calls: seq<Call>, cn: Name, k: nat)
    requires RatesOk(cfg) && k < |calls| && calls[k].cn == cn
    requires Asked(calls[..k + 1], cn, false) as real <= cfg.globalBurst
    requires calls[k].publish ==> Asked(calls[..k + 1], cn, true) as real <= cfg.publishBurst
    ensures Verdicts(cfg, Fresh(), calls)[k] == Allowed
  {
    SpareAllowed(cfg, Fresh(), calls, cn, k, 0, 0);
  }
}
