/** Rate-limit checks that overlap. A check takes from the global bucket under one lock and, if it is an admitted
    publish, from the publish bucket under another, reading the clock under each. So the two kinds of takes come in
    any order; only takes of one kind are ordered by their clock readings. */
module ConcurrentChecks {
  import opened Prelude
  import opened TokenBuckets

  /** One take: from which kind of bucket, for whom, at what clock reading. */
  datatype Ask = Ask(publish: bool, cn: Name, now: real)

  function KindMap(s: Limiter, publish: bool): map<Name, Bucket> {
    if publish then s.publish else s.global
  }

  function KindBurst(cfg: Config, publish: bool): real {
    if publish then cfg.publishBurst else cfg.globalBurst
  }

  function KindRps(cfg: Config, publish: bool): real {
    if publish then cfg.publishRps else cfg.globalRps
  }

  function TakeFor(cfg: Config, s: Limiter, a: Ask): (bool, Bucket) {
    Take(BucketOf(KindMap(s, a.publish), a.cn, KindBurst(cfg, a.publish), KindRps(cfg, a.publish), a.now), a.now)
  }

  function After1(cfg: Config, s: Limiter, a: Ask): Limiter {
    var b := TakeFor(cfg, s, a).1;
    if a.publish then s.(publish := s.publish[a.cn := b]) else s.(global := s.global[a.cn := b])
  }

  function Answers(cfg: Config, s: Limiter, asks: seq<Ask>): (vs: seq<bool>)
    ensures |vs| == |asks|
    decreases |asks|
  {
    if asks == [] then [] else [TakeFor(cfg, s, asks[0]).0] + Answers(cfg, After1(cfg, s, asks[0]), asks[1..])
  }

  function AfterAsks(cfg: Config, s: Limiter, asks: seq<Ask>): Limiter
    decreases |asks|
  {
    if asks == [] then s else AfterAsks(cfg, After1(cfg, s, asks[0]), asks[1..])
  }

  /** A check that is not overlapped is its one or two takes in a row. */
  lemma CheckIsTakes(cfg: Config, s: Limiter, call: Call)
    ensures var g := Ask(false, call.cn, call.globalNow);
      var p, s1 := Ask(true, call.cn, call.publishNow), After1(cfg, s, g);
      Check(cfg, s, call) ==
        if !TakeFor(cfg, s, g).0 then (GlobalLimited, s1)
        else if !call.publish then (Allowed, s1)
        else (if TakeFor(cfg, s1, p).0 then Allowed else PublishLimited, After1(cfg, s1, p))
  {
  }

  ghost predicate Ordered(asks: seq<Ask>) {
    forall i, j :: 0 <= i < j < |asks| && asks[i].publish == asks[j].publish ==> asks[i].now <= asks[j].now
  }

  ghost predicate NoneBefore(asks: seq<Ask>, kind: bool, t: real) {
    forall i :: 0 <= i < |asks| && asks[i].publish == kind ==> t <= asks[i].now
  }

  ghost predicate NoneAfter(asks: seq<Ask>, kind: bool, t: real) {
    forall i :: 0 <= i < |asks| && asks[i].publish == kind ==> asks[i].now <= t
  }

  ghost predicate KindOk(cfg: Config, s: Limiter, kind: bool, t: real) {
    BucketsOk(KindMap(s, kind), KindBurst(cfg, kind), KindRps(cfg, kind), t)
  }

  lemma AskOk(cfg: Config, s: Limiter, a: Ask, was: real)
    requires RatesOk(cfg) && KindOk(cfg, s, a.publish, was) && was <= a.now
    ensures KindOk(cfg, After1(cfg, s, a), a.publish, a.now)
  {
    TakeOk(KindMap(s, a.publish), a.cn, KindBurst(cfg, a.publish), KindRps(cfg, a.publish), was, a.now);
  }

  // ----- The window bound

  /** The takes of one kind that `cn` was granted. */
  function Granted(asks: seq<Ask>, vs: seq<bool>, kind: bool, cn: Name): nat
    requires |asks| == |vs|
  {
    if asks == [] then 0
    else (if asks[0].publish == kind && asks[0].cn == cn && vs[0] then 1 else 0) + Granted(asks[1..], vs[1..], kind, cn)
  }

  lemma OtherKindIdle(cfg: Config, s: Limiter, a: Ask, kind: bool)
    requires a.publish != kind
    ensures KindMap(After1(cfg, s, a), kind) == KindMap(s, kind)
  {
  }

  lemma Tails(asks: seq<Ask>, kind: bool, t: real)
    requires asks != [] && Ordered(asks)
    ensures Ordered(asks[1..])
    ensures NoneBefore(asks, kind, t) ==> NoneBefore(asks[1..], kind, t)
    ensures NoneAfter(asks, kind, t) ==> NoneAfter(asks[1..], kind, t)
    ensures asks[0].publish == kind ==> NoneBefore(asks[1..], kind, asks[0].now)
  {
    assert forall i :: 0 <= i < |asks| - 1 ==> asks[1..][i] == asks[i + 1];
  }

  /** The takes of the kind are in order and none comes before `t`. */
  ghost predicate Rises(asks: seq<Ask>, kind: bool, t: real) {
    asks != [] ==>
      if asks[0].publish == kind then t <= asks[0].now && Rises(asks[1..], kind, asks[0].now)
      else Rises(asks[1..], kind, t)
  }

  ghost predicate UpTo(asks: seq<Ask>, kind: bool, t: real) {
    asks != [] ==> (asks[0].publish == kind ==> asks[0].now <= t) && UpTo(asks[1..], kind, t)
  }

  lemma {:induction false} OrderedRises(asks: seq<Ask>, kind: bool, t: real)
    requires Ordered(asks)
    ensures NoneBefore(asks, kind, t) ==> Rises(asks, kind, t)
    ensures NoneAfter(asks, kind, t) ==> UpTo(asks, kind, t)
  {
    if asks == [] {
    } else {
      Tails(asks, kind, t);
      OrderedRises(asks[1..], kind, t);
      if asks[0].publish == kind {
        OrderedRises(asks[1..], kind, asks[0].now);
      }
    }
  }

  // One kind of bucket on a clock that counts refilled tokens; takes of the other kind are passed over.

  function Met(m: map<Name, Meter>, burst: real, asks: seq<Ask>, kind: bool): (vs: seq<bool>)
    ensures |vs| == |asks|
    decreases |asks|
  {
    if asks == [] then []
    else if asks[0].publish != kind then [true] + Met(m, burst, asks[1..], kind)
    else
      var r := MeterTake(MeterOf(m, asks[0].cn, burst, asks[0].now), asks[0].now);
      [r.0] + Met(m[asks[0].cn := r.1], burst, asks[1..], kind)
  }

  function ScaledAsks(asks: seq<Ask>, rps: real): (r: seq<Ask>)
    ensures |r| == |asks|
    ensures forall i :: 0 <= i < |asks| ==> r[i].publish == asks[i].publish && r[i].cn == asks[i].cn
  {
    if asks == [] then [] else [asks[0].(now := asks[0].now * rps)] + ScaledAsks(asks[1..], rps)
  }

  lemma ScaledTail(asks: seq<Ask>, rps: real)
    requires asks != []
    ensures ScaledAsks(asks, rps)[1..] == ScaledAsks(asks[1..], rps)
    ensures ScaledAsks(asks, rps)[0] == asks[0].(now := asks[0].now * rps)
  {
  }

  lemma {:induction false} ScaledRises(asks: seq<Ask>, kind: bool, rps: real, t: real, mark: real)
    requires rps >= 0.0 && Rises(asks, kind, t) && mark == t * rps
    ensures Rises(ScaledAsks(asks, rps), kind, mark)
  {
    if asks == [] {
    } else {
      ScaledTail(asks, rps);
      if asks[0].publish == kind {
        ScaleOrder(rps, t, asks[0].now);
        ScaledRises(asks[1..], kind, rps, asks[0].now, ScaledAsks(asks, rps)[0].now);
      } else {
        ScaledRises(asks[1..], kind, rps, t, mark);
      }
    }
  }

  lemma {:induction false} ScaledUpTo(asks: seq<Ask>, kind: bool, rps: real, t: real, mark: real)
    requires rps >= 0.0 && UpTo(asks, kind, t) && mark == t * rps
    ensures UpTo(ScaledAsks(asks, rps), kind, mark)
  {
    if asks == [] {
    } else {
      ScaledTail(asks, rps);
      if asks[0].publish == kind {
        ScaleOrder(rps, asks[0].now, t);
      }
      ScaledUpTo(asks[1..], kind, rps, t, mark);
    }
  }

  /** The two lists of answers agree on the takes of the kind. */
  ghost predicate AgreeOn(asks: seq<Ask>, vs: seq<bool>, vs': seq<bool>, kind: bool)
    requires |vs| == |vs'| == |asks|
  {
    forall i :: 0 <= i < |asks| && asks[i].publish == kind ==> vs[i] == vs'[i]
  }

  lemma AgreeCons(asks: seq<Ask>, vs: seq<bool>, vs': seq<bool>, kind: bool)
    requires asks != [] && |vs| == |vs'| == |asks| && AgreeOn(asks[1..], vs[1..], vs'[1..], kind)
    requires asks[0].publish == kind ==> vs[0] == vs'[0]
    ensures AgreeOn(asks, vs, vs', kind)
  {
    forall i | 0 < i < |asks| && asks[i].publish == kind ensures vs[i] == vs'[i] {
      assert asks[i] == asks[1..][i - 1] && vs[i] == vs[1..][i - 1] && vs'[i] == vs'[1..][i - 1];
    }
  }

  lemma MetHead(m: map<Name, Meter>, burst: real, asks: seq<Ask>, kind: bool)
    requires asks != []
    ensures var r := MeterTake(MeterOf(m, asks[0].cn, burst, asks[0].now), asks[0].now);
      if asks[0].publish == kind
      then Met(m, burst, asks, kind)[0] == r.0
           && Met(m, burst, asks, kind)[1..] == Met(m[asks[0].cn := r.1], burst, asks[1..], kind)
      else Met(m, burst, asks, kind)[1..] == Met(m, burst, asks[1..], kind)
  {
  }

  lemma AnswersHead(cfg: Config, s: Limiter, asks: seq<Ask>)
    requires asks != []
    ensures Answers(cfg, s, asks)[0] == TakeFor(cfg, s, asks[0]).0
    ensures Answers(cfg, s, asks)[1..] == Answers(cfg, After1(cfg, s, asks[0]), asks[1..])
  {
  }

  /** One take of the kind, on both clocks. */
  lemma AskScales(cfg: Config, s: Limiter, a: Ask, was: real, rps: real, mark: real)
    requires RatesOk(cfg) && KindOk(cfg, s, a.publish, was) && was <= a.now
    requires rps == KindRps(cfg, a.publish) && mark == a.now * rps
    ensures var m := ScaleBuckets(KindMap(s, a.publish));
      var r := MeterTake(MeterOf(m, a.cn, KindBurst(cfg, a.publish), mark), mark);
      r.0 == TakeFor(cfg, s, a).0 && ScaleBuckets(KindMap(After1(cfg, s, a), a.publish)) == m[a.cn := r.1]
  {
    TakeScales(KindMap(s, a.publish), a.cn, KindBurst(cfg, a.publish), rps, was, a.now, mark);
  }

  ghost predicate ScalesTo(cfg: Config, s: Limiter, asks: seq<Ask>, kind: bool, sc: seq<Ask>)
    requires |sc| == |asks|
  {
    AgreeOn(asks, Answers(cfg, s, asks), Met(ScaleBuckets(KindMap(s, kind)), KindBurst(cfg, kind), sc, kind), kind)
  }

  lemma KindStep(cfg: Config, s: Limiter, asks: seq<Ask>, kind: bool, was: real, rps: real, sc: seq<Ask>)
    requires RatesOk(cfg) && KindOk(cfg, s, kind, was) && asks != [] && asks[0].publish == kind && was <= asks[0].now
    requires |sc| == |asks| && rps == KindRps(cfg, kind) && sc[0] == asks[0].(now := asks[0].now * rps)
    requires ScalesTo(cfg, After1(cfg, s, asks[0]), asks[1..], kind, sc[1..])
    ensures ScalesTo(cfg, s, asks, kind, sc)
  {
    AskScales(cfg, s, asks[0], was, rps, sc[0].now);
    ScalesCons(cfg, s, asks, kind, sc);
  }

  lemma IdleStep(cfg: Config, s: Limiter, asks: seq<Ask>, kind: bool, sc: seq<Ask>)
    requires asks != [] && asks[0].publish != kind && |sc| == |asks| && sc[0].publish != kind
    requires ScalesTo(cfg, After1(cfg, s, asks[0]), asks[1..], kind, sc[1..])
    ensures ScalesTo(cfg, s, asks, kind, sc)
  {
    OtherKindIdle(cfg, s, asks[0], kind);
    ScalesCons(cfg, s, asks, kind, sc);
  }

  lemma {:induction false} MetScales(cfg: Config, s: Limiter, asks: seq<Ask>, kind: bool, was: real, rps: real,
                                     sc: seq<Ask>)
    requires RatesOk(cfg) && KindOk(cfg, s, kind, was) && Rises(asks, kind, was)
    requires rps == KindRps(cfg, kind) && sc == ScaledAsks(asks, rps)
    ensures ScalesTo(cfg, s, asks, kind, sc)
    decreases |asks|
  {
    if asks == [] {
    } else {
      ScaledTail(asks, rps);
      if asks[0].publish == kind {
        AskOk(cfg, s, asks[0], was);
        MetScales(cfg, After1(cfg, s, asks[0]), asks[1..], kind, asks[0].now, rps, sc[1..]);
        KindStep(cfg, s, asks, kind, was, rps, sc);
      } else {
        OtherKindIdle(cfg, s, asks[0], kind);
        MetScales(cfg, After1(cfg, s, asks[0]), asks[1..], kind, was, rps, sc[1..]);
        IdleStep(cfg, s, asks, kind, sc);
      }
    }
  }

  lemma ScalesCons(cfg: Config, s: Limiter, asks: seq<Ask>, kind: bool, sc: seq<Ask>)
    requires asks != [] && |sc| == |asks| && sc[0].publish == asks[0].publish
    requires ScalesTo(cfg, After1(cfg, s, asks[0]), asks[1..], kind, sc[1..])
    requires var m, a := ScaleBuckets(KindMap(s, kind)), sc[0];
      var r := MeterTake(MeterOf(m, a.cn, KindBurst(cfg, kind), a.now), a.now);
      var next := ScaleBuckets(KindMap(After1(cfg, s, asks[0]), kind));
      if a.publish == kind then r.0 == TakeFor(cfg, s, asks[0]).0 && next == m[a.cn := r.1] else next == m
    ensures ScalesTo(cfg, s, asks, kind, sc)
  {
    var m := ScaleBuckets(KindMap(s, kind));
    AnswersHead(cfg, s, asks);
    MetHead(m, KindBurst(cfg, kind), sc, kind);
    AgreeCons(asks, Answers(cfg, s, asks), Met(m, KindBurst(cfg, kind), sc, kind), kind);
  }

  lemma {:induction false} AgreeGranted(asks: seq<Ask>, sc: seq<Ask>, vs: seq<bool>, vs': seq<bool>, kind: bool,
                                        cn: Name)
    requires |vs| == |vs'| == |asks| == |sc| && AgreeOn(asks, vs, vs', kind)
    requires forall i :: 0 <= i < |asks| ==> sc[i].publish == asks[i].publish && sc[i].cn == asks[i].cn
    ensures Granted(asks, vs, kind, cn) == Granted(sc, vs', kind, cn)
  {
    if asks == [] {
    } else {
      assert AgreeOn(asks[1..], vs[1..], vs'[1..], kind);
      AgreeGranted(asks[1..], sc[1..], vs[1..], vs'[1..], kind, cn);
    }
  }

  lemma ScaledMapOk(m: map<Name, Bucket>, burst: real, rps: real, was: real, mark: real)
    requires BucketsOk(m, burst, rps, was) && rps >= 0.0 && burst >= 0.0 && mark == was * rps
    ensures MetersOk(ScaleBuckets(m), burst, mark)
  {
    forall cn | cn in m ensures ScaleBucket(m[cn]).mark <= mark {
      ScaleOrder(rps, m[cn].last, was);
    }
  }

  /** What is granted comes out of the level at the start and what is refilled until the end. */
  lemma {:induction false} Spends(m: map<Name, Meter>, burst: real, asks: seq<Ask>, kind: bool, cn: Name, at: real,
                                  end: real)
    requires MetersOk(m, burst, at) && Rises(asks, kind, at) && UpTo(asks, kind, end) && at <= end
    ensures Granted(asks, Met(m, burst, asks, kind), kind, cn) as real <= MeterLevelOf(m, cn, burst, at) + end - at
    decreases |asks|
  {
    if asks == [] {
      LevelInRange(m, cn, burst, at, at);
    } else {
      var a := asks[0];
      MetHead(m, burst, asks, kind);
      if a.publish == kind {
        var r := MeterTake(MeterOf(m, a.cn, burst, a.now), a.now);
        TakePays(m, a.cn, cn, burst, at, a.now);
        MeterLevelRises(m, cn, burst, at, a.now);
        Spends(m[a.cn := r.1], burst, asks[1..], kind, cn, a.now, end);
      } else {
        Spends(m, burst, asks[1..], kind, cn, at, end);
      }
    }
  }

  /** From meters last used by `was`, in takes of the kind that all fall between `lo` and `hi`. */
  lemma {:induction false} SpendsAtMost(m: map<Name, Meter>, burst: real, asks: seq<Ask>, kind: bool, cn: Name,
                                        was: real, lo: real, hi: real)
    requires MetersOk(m, burst, was) && Rises(asks, kind, was) && Rises(asks, kind, lo) && UpTo(asks, kind, hi)
    requires lo <= hi
    ensures Granted(asks, Met(m, burst, asks, kind), kind, cn) as real <= burst + hi - lo
    decreases |asks|
  {
    if asks == [] {
    } else if asks[0].publish == kind {
      LevelInRange(m, cn, burst, was, asks[0].now);
      Spends(m, burst, asks, kind, cn, asks[0].now, hi);
    } else {
      MetHead(m, burst, asks, kind);
      SpendsAtMost(m, burst, asks[1..], kind, cn, was, lo, hi);
    }
  }

  /** Burst plus rate times duration. */
  function Allowance(cfg: Config, publish: bool, lo: real, hi: real): real {
    if publish then cfg.publishBurst + (hi - lo) * cfg.publishRps else cfg.globalBurst + (hi - lo) * cfg.globalRps
  }

  /** The same on the limiter's clock; `x`, `y` and `z` are the three times counted in refilled tokens. */
  lemma WindowSpends(cfg: Config, s: Limiter, asks: seq<Ask>, kind: bool, cn: Name, was: real, lo: real, hi: real,
                     rps: real, x: real, y: real, z: real)
    requires RatesOk(cfg) && KindOk(cfg, s, kind, was) && y <= z && rps == KindRps(cfg, kind)
    requires Rises(asks, kind, was) && Rises(asks, kind, lo) && UpTo(asks, kind, hi)
    requires x == was * rps && y == lo * rps && z == hi * rps
    ensures Granted(asks, Answers(cfg, s, asks), kind, cn) as real <= KindBurst(cfg, kind) + z - y
  {
    var m, burst, sc := ScaleBuckets(KindMap(s, kind)), KindBurst(cfg, kind), ScaledAsks(asks, rps);
    ScaledRises(asks, kind, rps, was, x);
    ScaledRises(asks, kind, rps, lo, y);
    ScaledUpTo(asks, kind, rps, hi, z);
    ScaledMapOk(KindMap(s, kind), burst, rps, was, x);
    SpendsAtMost(m, burst, sc, kind, cn, x, y, z);
    MetScales(cfg, s, asks, kind, was, rps, sc);
    AgreeGranted(asks, sc, Answers(cfg, s, asks), Met(m, burst, sc, kind), kind, cn);
  }

  lemma WindowGranted(cfg: Config, s: Limiter, asks: seq<Ask>, kind: bool, cn: Name, was: real, lo: real, hi: real)
    requires RatesOk(cfg) && KindOk(cfg, s, kind, was) && lo <= hi
    requires Rises(asks, kind, was) && Rises(asks, kind, lo) && UpTo(asks, kind, hi)
    ensures Granted(asks, Answers(cfg, s, asks), kind, cn) as real <= Allowance(cfg, kind, lo, hi)
  {
    var rps := KindRps(cfg, kind);
    var x, y, z := Marks(rps, was, lo, hi);
    WindowSpends(cfg, s, asks, kind, cn, was, lo, hi, rps, x, y, z);
    InTime(cfg, kind, lo, hi, rps, y, z);
  }

  lemma Marks(rps: real, was: real, lo: real, hi: real) returns (x: real, y: real, z: real)
    requires rps >= 0.0 && lo <= hi
    ensures x == was * rps && y == lo * rps && z == hi * rps && y <= z
  {
    x, y, z := was * rps, lo * rps, hi * rps;
    ScaleOrder(rps, lo, hi);
  }

  lemma InTime(cfg: Config, kind: bool, lo: real, hi: real, rps: real, y: real, z: real)
    requires rps == KindRps(cfg, kind) && y == lo * rps && z == hi * rps && rps >= 0.0 && lo <= hi
    ensures KindBurst(cfg, kind) + z - y == Allowance(cfg, kind, lo, hi)
  {
    ScaleOrder(rps, lo, hi);
  }

  lemma {:induction false} AnswersPrefix(cfg: Config, s: Limiter, asks: seq<Ask>, j: nat)
    requires j <= |asks|
    ensures Answers(cfg, s, asks)[..j] == Answers(cfg, s, asks[..j])
    decreases j
  {
    if j == 0 {
    } else {
      var vs := Answers(cfg, s, asks);
      AnswersPrefix(cfg, After1(cfg, s, asks[0]), asks[1..], j - 1);
      assert asks[..j][1..] == asks[1..][..j - 1];
      assert vs[..j] == [vs[0]] + vs[1..][..j - 1];
    }
  }

  lemma {:induction false} AnswersSuffix(cfg: Config, s: Limiter, asks: seq<Ask>, i: nat)
    requires i <= |asks|
    ensures Answers(cfg, s, asks)[i..] == Answers(cfg, AfterAsks(cfg, s, asks[..i]), asks[i..])
    decreases i
  {
    if i == 0 {
      assert asks[..0] == [] && asks[0..] == asks;
    } else {
      AnswersSuffix(cfg, After1(cfg, s, asks[0]), asks[1..], i - 1);
      assert asks[..i][1..] == asks[1..][..i - 1] && asks[i..] == asks[1..][i - 1..];
      assert Answers(cfg, s, asks)[i..] == Answers(cfg, s, asks)[1..][i - 1..];
    }
  }

  lemma AnswersWindow(cfg: Config, s: Limiter, asks: seq<Ask>, i: nat, j: nat)
    requires i <= j <= |asks|
    ensures Answers(cfg, s, asks)[i..j] == Answers(cfg, AfterAsks(cfg, s, asks[..i]), asks[i..j])
  {
    AnswersPrefix(cfg, s, asks, j);
    AnswersSuffix(cfg, s, asks[..j], i);
    assert asks[..j][..i] == asks[..i] && asks[..j][i..] == asks[i..j];
    assert Answers(cfg, s, asks)[..j][i..] == Answers(cfg, s, asks)[i..j];
  }

  /** The state before a window is one whose buckets were last used by some time that the window's takes do not
      precede. */
  lemma {:induction false} ReachedOk(cfg: Config, s: Limiter, asks: seq<Ask>, rest: seq<Ask>, kind: bool, was: real)
    returns (t: real)
    requires RatesOk(cfg) && Ordered(asks + rest) && KindOk(cfg, s, kind, was) && NoneBefore(asks + rest, kind, was)
    ensures KindOk(cfg, AfterAsks(cfg, s, asks), kind, t) && NoneBefore(rest, kind, t)
    decreases |asks|
  {
    if asks == [] {
      assert asks + rest == rest;
      t := was;
    } else {
      var a := asks[0];
      assert (asks + rest)[1..] == asks[1..] + rest;
      Tails(asks + rest, kind, was);
      if a.publish == kind {
        AskOk(cfg, s, a, was);
        t := ReachedOk(cfg, After1(cfg, s, a), asks[1..], rest, kind, a.now);
      } else {
        OtherKindIdle(cfg, s, a, kind);
        t := ReachedOk(cfg, After1(cfg, s, a), asks[1..], rest, kind, was);
      }
    }
  }

  /** However checks overlap: in any window of takes, those of one kind granted to a client whose clock readings fall
      between `lo` and `hi` number at most burst + rate * (hi - lo). */
  lemma ConcurrentWindowBound(cfg: Config, asks: seq<Ask>, i: nat, j: nat, kind: bool, cn: Name, lo: real, hi: real)
    requires RatesOk(cfg) && Ordered(asks) && i <= j <= |asks| && lo <= hi
    requires NoneBefore(asks[i..j], kind, lo) && NoneAfter(asks[i..j], kind, hi)
    ensures Granted(asks[i..j], Answers(cfg, Fresh(), asks)[i..j], kind, cn) as real
         <= Allowance(cfg, kind, lo, hi)
  {
    var window := asks[i..j];
    AnswersWindow(cfg, Fresh(), asks, i, j);
    var t := BeforeWindow(cfg, asks, i, j, kind);
    assert Ordered(window);
    OrderedRises(window, kind, lo);
    OrderedRises(window, kind, hi);
    WindowGranted(cfg, AfterAsks(cfg, Fresh(), asks[..i]), window, kind, cn, t, lo, hi);
  }

  lemma BeforeWindow(cfg: Config, asks: seq<Ask>, i: nat, j: nat, kind: bool) returns (t: real)
    requires RatesOk(cfg) && Ordered(asks) && i <= j <= |asks|
    ensures KindOk(cfg, AfterAsks(cfg, Fresh(), asks[..i]), kind, t) && Rises(asks[i..j], kind, t)
  {
    var before, window := asks[..i], asks[i..j];
    assert before + window == asks[..j];
    assert Ordered(before + window) && Ordered(window);
    var was := Earliest(before + window, kind);
    t := ReachedOk(cfg, Fresh(), before, window, kind, was);
    OrderedRises(window, kind, t);
  }

  lemma {:induction false} Earliest(asks: seq<Ask>, kind: bool) returns (t: real)
    requires Ordered(asks)
    ensures NoneBefore(asks, kind, t)
  {
    if asks == [] {
      t := 0.0;
    } else if asks[0].publish == kind {
      t := asks[0].now;
    } else {
      Tails(asks, kind, 0.0);
      t := Earliest(asks[1..], kind);
      assert forall i :: 0 < i < |asks| ==> asks[i] == asks[1..][i - 1];
    }
  }

  // ----- Exactly when a take is refused

  predicate Own(a: Ask, kind: bool, cn: Name) {
    a.publish == kind && a.cn == cn
  }

  lemma {:induction false} GrantedSnoc(asks: seq<Ask>, vs: seq<bool>, a: Ask, v: bool, kind: bool, cn: Name)
    requires |asks| == |vs|
    ensures Granted(asks + [a], vs + [v], kind, cn)
         == Granted(asks, vs, kind, cn) + if Own(a, kind, cn) && v then 1 else 0
  {
    if asks == [] {
      assert asks + [a] == [a];
    } else {
      assert (asks + [a])[1..] == asks[1..] + [a] && (vs + [v])[1..] == vs[1..] + [v];
      GrantedSnoc(asks[1..], vs[1..], a, v, kind, cn);
    }
  }

  /** The takes of the kind granted to `cn` from the `i`th take on, before the `k`th. */
  function GrantedFrom(asks: seq<Ask>, vs: seq<bool>, kind: bool, cn: Name, i: nat, k: nat): nat
    requires i <= k <= |asks| == |vs|
  {
    Granted(asks[i..k], vs[i..k], kind, cn)
  }

  lemma GrantedNext(asks: seq<Ask>, vs: seq<bool>, kind: bool, cn: Name, i: nat, k: nat)
    requires i <= k < |asks| == |vs|
    ensures GrantedFrom(asks, vs, kind, cn, i, k + 1)
         == GrantedFrom(asks, vs, kind, cn, i, k) + if Own(asks[k], kind, cn) && vs[k] then 1 else 0
  {
    GrantedSnoc(asks[i..k], vs[i..k], asks[k], vs[k], kind, cn);
    assert asks[i..k + 1] == asks[i..k] + [asks[k]] && vs[i..k + 1] == vs[i..k] + [vs[k]];
  }

  lemma {:induction false} AfterOneMore(cfg: Config, s: Limiter, asks: seq<Ask>, k: nat)
    requires k < |asks|
    ensures AfterAsks(cfg, s, asks[..k + 1]) == After1(cfg, AfterAsks(cfg, s, asks[..k]), asks[k])
    ensures Answers(cfg, s, asks)[k] == TakeFor(cfg, AfterAsks(cfg, s, asks[..k]), asks[k]).0
    decreases k
  {
    if k == 0 {
      assert asks[..1][1..] == [] && asks[..0] == [];
    } else {
      AfterOneMore(cfg, After1(cfg, s, asks[0]), asks[1..], k - 1);
      assert asks[..k][1..] == asks[1..][..k - 1] && asks[..k + 1][1..] == asks[1..][..k];
      AnswersHead(cfg, s, asks);
      assert Answers(cfg, s, asks)[k] == Answers(cfg, s, asks)[1..][k - 1];
    }
  }

  /** The bucket's tokens are what was there and refilled since the `i`th take, which found it full, less what was
      granted since. */
  ghost predicate FullAt(cfg: Config, b: Bucket, asks: seq<Ask>, vs: seq<bool>, kind: bool, cn: Name, i: nat, k: nat)
    requires k <= |asks| == |vs|
  {
    && i < k && Own(asks[i], kind, cn)
    && b.tokens == Allowance(cfg, kind, asks[i].now, b.last) - GrantedFrom(asks, vs, kind, cn, i, k) as real
  }

  lemma AllowanceGrows(cfg: Config, kind: bool, lo: real, mid: real, hi: real)
    ensures Allowance(cfg, kind, lo, hi) == Allowance(cfg, kind, lo, mid) + (hi - mid) * KindRps(cfg, kind)
    ensures Allowance(cfg, kind, hi, hi) == KindBurst(cfg, kind)
  {
    Spread(KindRps(cfg, kind), mid - lo, hi - mid);
  }

  /** The level a take finds: the burst, or what is left since the bucket was last full. */
  lemma LevelFound(cfg: Config, b: Bucket, asks: seq<Ask>, vs: seq<bool>, kind: bool, cn: Name, i: nat, k: nat,
                   now: real)
    requires k <= |asks| == |vs| && FullAt(cfg, b, asks, vs, kind, cn, i, k)
    requires b.burst == KindBurst(cfg, kind) && b.rps == KindRps(cfg, kind) && b.last <= now
    ensures Level(b, now) == KindBurst(cfg, kind)
      || Level(b, now) == Allowance(cfg, kind, asks[i].now, now) - GrantedFrom(asks, vs, kind, cn, i, k) as real
  {
    AllowanceGrows(cfg, kind, asks[i].now, b.last, now);
  }

  /** The bucket of `cn` before the `k`th take, if there is one, was full at some earlier take of `cn`. */
  ghost predicate OnceFull(cfg: Config, m: map<Name, Bucket>, asks: seq<Ask>, vs: seq<bool>, kind: bool, cn: Name,
                           k: nat)
    requires k <= |asks| == |vs|
  {
    cn in m ==> exists i: nat :: FullAt(cfg, m[cn], asks, vs, kind, cn, i, k)
  }

  /** The bucket an own take leaves. */
  lemma TakenFull(cfg: Config, m: map<Name, Bucket>, asks: seq<Ask>, vs: seq<bool>, kind: bool, cn: Name, k: nat)
    returns (i: nat)
    requires k < |asks| == |vs| && Own(asks[k], kind, cn) && RatesOk(cfg)
    requires BucketsOk(m, KindBurst(cfg, kind), KindRps(cfg, kind), asks[k].now)
    requires OnceFull(cfg, m, asks, vs, kind, cn, k)
    requires vs[k] == Take(BucketOf(m, cn, KindBurst(cfg, kind), KindRps(cfg, kind), asks[k].now), asks[k].now).0
    ensures i <= k && Own(asks[i], kind, cn)
    ensures Level(BucketOf(m, cn, KindBurst(cfg, kind), KindRps(cfg, kind), asks[k].now), asks[k].now)
         == Allowance(cfg, kind, asks[i].now, asks[k].now) - GrantedFrom(asks, vs, kind, cn, i, k) as real
    ensures FullAt(cfg, Take(BucketOf(m, cn, KindBurst(cfg, kind), KindRps(cfg, kind), asks[k].now), asks[k].now).1,
                   asks, vs, kind, cn, i, k + 1)
  {
    var now := asks[k].now;
    var b := BucketOf(m, cn, KindBurst(cfg, kind), KindRps(cfg, kind), now);
    i := k;
    AllowanceGrows(cfg, kind, now, now, now);
    assert asks[k..k] == [] && vs[k..k] == [];
    if cn in m && Level(b, now) != KindBurst(cfg, kind) {
      i :| FullAt(cfg, m[cn], asks, vs, kind, cn, i, k);
      LevelFound(cfg, b, asks, vs, kind, cn, i, k, now);
    } else if cn !in m {
      assert (now - now) * b.rps == 0.0;
    }
    GrantedNext(asks, vs, kind, cn, i, k);
  }

  lemma OwnAsk(cfg: Config, s: Limiter, asks: seq<Ask>, vs: seq<bool>, kind: bool, cn: Name, k: nat)
    requires k < |asks| == |vs| && Own(asks[k], kind, cn) && RatesOk(cfg) && KindOk(cfg, s, kind, asks[k].now)
    requires OnceFull(cfg, KindMap(s, kind), asks, vs, kind, cn, k) && vs[k] == TakeFor(cfg, s, asks[k]).0
    ensures OnceFull(cfg, KindMap(After1(cfg, s, asks[k]), kind), asks, vs, kind, cn, k + 1)
  {
    var i := TakenFull(cfg, KindMap(s, kind), asks, vs, kind, cn, k);
    assert KindMap(After1(cfg, s, asks[k]), kind)[cn] == TakeFor(cfg, s, asks[k]).1;
  }

  lemma OtherAsk(cfg: Config, s: Limiter, asks: seq<Ask>, vs: seq<bool>, kind: bool, cn: Name, k: nat)
    requires k < |asks| == |vs| && !Own(asks[k], kind, cn) && OnceFull(cfg, KindMap(s, kind), asks, vs, kind, cn, k)
    ensures OnceFull(cfg, KindMap(After1(cfg, s, asks[k]), kind), asks, vs, kind, cn, k + 1)
  {
    var m := KindMap(s, kind);
    if cn in m {
      var i: nat :| FullAt(cfg, m[cn], asks, vs, kind, cn, i, k);
      GrantedNext(asks, vs, kind, cn, i, k);
      assert FullAt(cfg, m[cn], asks, vs, kind, cn, i, k + 1);
    }
  }

  lemma {:induction false} AlwaysOnceFull(cfg: Config, asks: seq<Ask>, vs: seq<bool>, kind: bool, cn: Name, k: nat)
    requires RatesOk(cfg) && Ordered(asks) && k <= |asks| && vs == Answers(cfg, Fresh(), asks)
    ensures OnceFull(cfg, KindMap(AfterAsks(cfg, Fresh(), asks[..k]), kind), asks, vs, kind, cn, k)
  {
    if k == 0 {
    } else {
      var s := AfterAsks(cfg, Fresh(), asks[..k - 1]);
      AlwaysOnceFull(cfg, asks, vs, kind, cn, k - 1);
      AfterOneMore(cfg, Fresh(), asks, k - 1);
      if Own(asks[k - 1], kind, cn) {
        KindOkAt(cfg, asks, k - 1);
        OwnAsk(cfg, s, asks, vs, kind, cn, k - 1);
      } else {
        OtherAsk(cfg, s, asks, vs, kind, cn, k - 1);
      }
    }
  }

  lemma KindOkAt(cfg: Config, asks: seq<Ask>, k: nat)
    requires RatesOk(cfg) && Ordered(asks) && k < |asks|
    ensures KindOk(cfg, AfterAsks(cfg, Fresh(), asks[..k]), asks[k].publish, asks[k].now)
  {
    var t := BeforeWindow(cfg, asks, k, k + 1, asks[k].publish);
    assert asks[k..k + 1][0] == asks[k];
  }

  /** Since the client's own take `i`, it was granted more than the burst and the refill leave room for. */
  ghost predicate UsedUp(cfg: Config, asks: seq<Ask>, vs: seq<bool>, k: nat, i: nat)
    requires k < |asks| == |vs|
  {
    var a := asks[k];
    && i <= k && Own(asks[i], a.publish, a.cn)
    && GrantedFrom(asks, vs, a.publish, a.cn, i, k) as real > Allowance(cfg, a.publish, asks[i].now, a.now) - 1.0
  }

  lemma RefusedIfUsedUp(cfg: Config, asks: seq<Ask>, k: nat, i: nat)
    requires RatesOk(cfg) && Ordered(asks) && k < |asks| && UsedUp(cfg, asks, Answers(cfg, Fresh(), asks), k, i)
    ensures !Answers(cfg, Fresh(), asks)[k]
  {
    var vs, a := Answers(cfg, Fresh(), asks), asks[k];
    ConcurrentWindowBound(cfg, asks, i, k + 1, a.publish, a.cn, asks[i].now, a.now);
    GrantedNext(asks, vs, a.publish, a.cn, i, k);
  }

  /** However checks overlap: a take is refused if and only if, for some take of the same client and kind up to it, the
      takes granted to the client from that one on number more than burst - 1 + rate * (time since it). */
  lemma RefusedIff(cfg: Config, asks: seq<Ask>, k: nat)
    requires RatesOk(cfg) && Ordered(asks) && k < |asks|
    ensures var vs := Answers(cfg, Fresh(), asks); !vs[k] <==> exists i: nat :: UsedUp(cfg, asks, vs, k, i)
  {
    var vs, a := Answers(cfg, Fresh(), asks), asks[k];
    if !vs[k] {
      var m := KindMap(AfterAsks(cfg, Fresh(), asks[..k]), a.publish);
      AlwaysOnceFull(cfg, asks, vs, a.publish, a.cn, k);
      AfterOneMore(cfg, Fresh(), asks, k);
      KindOkAt(cfg, asks, k);
      var i := TakenFull(cfg, m, asks, vs, a.publish, a.cn, k);
      assert UsedUp(cfg, asks, vs, k, i);
    }
    if i: nat :| UsedUp(cfg, asks, vs, k, i) {
      RefusedIfUsedUp(cfg, asks, k, i);
    }
  }

  // ----- Keeping a distance

  ghost predicate Apart(asks: seq<Ask>, kind: bool, cn: Name, d: real) {
    forall i, j ::
      0 <= i < j < |asks| && asks[i].publish == asks[j].publish == kind && asks[i].cn == asks[j].cn == cn ==>
        asks[i].now + d <= asks[j].now
  }

  /** No take of `cn` before `next`, and each at least `d` after the one before. */
  ghost predicate SpacedFrom(asks: seq<Ask>, kind: bool, cn: Name, d: real, next: real) {
    asks != [] ==>
      if asks[0].publish == kind && asks[0].cn == cn
      then next <= asks[0].now && SpacedFrom(asks[1..], kind, cn, d, asks[0].now + d)
      else SpacedFrom(asks[1..], kind, cn, d, next)
  }

  lemma {:induction false} ApartSpaced(asks: seq<Ask>, kind: bool, cn: Name, d: real, next: real)
    requires Apart(asks, kind, cn, d)
    requires forall i :: 0 <= i < |asks| && asks[i].publish == kind && asks[i].cn == cn ==> next <= asks[i].now
    ensures SpacedFrom(asks, kind, cn, d, next)
  {
    if asks == [] {
    } else {
      assert forall i :: 0 <= i < |asks| - 1 ==> asks[1..][i] == asks[i + 1];
      if asks[0].publish == kind && asks[0].cn == cn {
        ApartSpaced(asks[1..], kind, cn, d, asks[0].now + d);
      } else {
        ApartSpaced(asks[1..], kind, cn, d, next);
      }
    }
  }

  lemma OneToken(rps: real, next: real, now: real, mark: real, y: real)
    requires rps > 0.0 && mark == next * rps && y == now * rps && next <= now
    ensures mark <= y && y + 1.0 == (now + 1.0 / rps) * rps
  {
    ScaleOrder(rps, next, now);
    assert (1.0 / rps) * rps == 1.0;
    Spread(rps, now, 1.0 / rps);
  }

  lemma {:induction false} ScaledSpaced(asks: seq<Ask>, kind: bool, cn: Name, rps: real, next: real, mark: real)
    requires rps > 0.0 && SpacedFrom(asks, kind, cn, 1.0 / rps, next) && mark == next * rps
    ensures SpacedFrom(ScaledAsks(asks, rps), kind, cn, 1.0, mark)
  {
    if asks == [] {
    } else {
      ScaledTail(asks, rps);
      var y := ScaledAsks(asks, rps)[0].now;
      if asks[0].publish == kind && asks[0].cn == cn {
        OneToken(rps, next, asks[0].now, mark, y);
        ScaledSpaced(asks[1..], kind, cn, rps, asks[0].now + 1.0 / rps, y + 1.0);
      } else {
        ScaledSpaced(asks[1..], kind, cn, rps, next, mark);
      }
    }
  }

  /** A token is there from `next` on. */
  lemma {:induction false} SpacedGranted(m: map<Name, Meter>, burst: real, asks: seq<Ask>, kind: bool, cn: Name,
                                         was: real, next: real)
    requires burst >= 1.0 && MetersOk(m, burst, was) && Rises(asks, kind, was) && SpacedFrom(asks, kind, cn, 1.0, next)
    requires MeterLevelOf(m, cn, burst, next) >= 1.0
    ensures forall i :: 0 <= i < |asks| && asks[i].publish == kind && asks[i].cn == cn ==> Met(m, burst, asks, kind)[i]
    decreases |asks|
  {
    if asks == [] {
    } else {
      var a, vs := asks[0], Met(m, burst, asks, kind);
      MetHead(m, burst, asks, kind);
      if a.publish == kind {
        var r := MeterTake(MeterOf(m, a.cn, burst, a.now), a.now);
        TakePays(m, a.cn, cn, burst, was, a.now);
        SpacedGranted(m[a.cn := r.1], burst, asks[1..], kind, cn, a.now, if a.cn == cn then a.now + 1.0 else next);
      } else {
        SpacedGranted(m, burst, asks[1..], kind, cn, was, next);
      }
      assert forall i :: 0 < i < |asks| ==> asks[i] == asks[1..][i - 1] && vs[i] == vs[1..][i - 1];
    }
  }

  /** However checks overlap: with a burst of at least 1 and a positive rate, a client whose takes of one kind are
      each at least one refill apart is granted all of them. */
  lemma ApartNeverRefused(cfg: Config, asks: seq<Ask>, kind: bool, cn: Name)
    requires RatesOk(cfg) && Ordered(asks) && KindBurst(cfg, kind) >= 1.0 && KindRps(cfg, kind) > 0.0
    requires Apart(asks, kind, cn, 1.0 / KindRps(cfg, kind))
    ensures forall i :: 0 <= i < |asks| && asks[i].publish == kind && asks[i].cn == cn ==>
      Answers(cfg, Fresh(), asks)[i]
  {
    var burst, rps := KindBurst(cfg, kind), KindRps(cfg, kind);
    var was := Earliest(asks, kind);
    var sc := ScaledAsks(asks, rps);
    OrderedRises(asks, kind, was);
    MetScales(cfg, Fresh(), asks, kind, was, rps, sc);
    ScaledRises(asks, kind, rps, was, was * rps);
    ApartSpaced(asks, kind, cn, 1.0 / rps, was);
    ScaledSpaced(asks, kind, cn, rps, was, was * rps);
    assert ScaleBuckets(KindMap(Fresh(), kind)) == map[];
    SpacedGranted(map[], burst, sc, kind, cn, was * rps, was * rps);
  }

  // ----- Erasing a refused take

  lemma RefusedKeepsLevels(m: map<Name, Bucket>, cn: Name, burst: real, rps: real, was: real, now: real)
    requires BucketsOk(m, burst, rps, was) && was <= now && rps >= 0.0 && burst >= 0.0
    requires !Take(BucketOf(m, cn, burst, rps, now), now).0
    ensures SameLevels(m[cn := Take(BucketOf(m, cn, burst, rps, now), now).1], m, burst, rps, now)
  {
    var b := BucketOf(m, cn, burst, rps, now);
    var m' := m[cn := Take(b, now).1];
    forall x, t | t >= now ensures LevelOf(m', x, burst, rps, t) == LevelOf(m, x, burst, rps, t) {
      if x == cn {
        RefillComposes(b, now, t);
        Spread(rps, t - now, 0.0);
      }
    }
  }

  /** The limiters agree on the other kind, and on the levels of this one from `from` on. */
  ghost predicate Alike(cfg: Config, s: Limiter, s': Limiter, kind: bool, from: real) {
    && KindMap(s, !kind) == KindMap(s', !kind)
    && SameLevels(KindMap(s, kind), KindMap(s', kind), KindBurst(cfg, kind), KindRps(cfg, kind), from)
  }

  lemma AlikeStep(cfg: Config, s: Limiter, s': Limiter, a: Ask, kind: bool, from: real)
    requires RatesOk(cfg) && Alike(cfg, s, s', kind, from) && KindOk(cfg, s, kind, from) && KindOk(cfg, s', kind, from)
    requires a.publish == kind ==> from <= a.now
    ensures TakeFor(cfg, s, a).0 == TakeFor(cfg, s', a).0
    ensures Alike(cfg, After1(cfg, s, a), After1(cfg, s', a), kind, if a.publish == kind then a.now else from)
  {
    if a.publish == kind {
      var m, m', burst, rps := KindMap(s, kind), KindMap(s', kind), KindBurst(cfg, kind), KindRps(cfg, kind);
      TakeOk(m, a.cn, burst, rps, from, a.now);
      TakeOk(m', a.cn, burst, rps, from, a.now);
      assert LevelOf(m, a.cn, burst, rps, a.now) == LevelOf(m', a.cn, burst, rps, a.now);
      SameLevelsUpdate(m, m', burst, rps, from, a.cn, TakeFor(cfg, s, a).1, a.now);
    }
  }

  lemma {:induction false} AlikeAnswers(cfg: Config, s: Limiter, s': Limiter, asks: seq<Ask>, kind: bool, from: real)
    requires RatesOk(cfg) && Ordered(asks) && Alike(cfg, s, s', kind, from) && NoneBefore(asks, kind, from)
    requires KindOk(cfg, s, kind, from) && KindOk(cfg, s', kind, from)
    ensures Answers(cfg, s, asks) == Answers(cfg, s', asks)
    decreases |asks|
  {
    if asks == [] {
    } else {
      var a := asks[0];
      AlikeStep(cfg, s, s', a, kind, from);
      Tails(asks, kind, from);
      if a.publish == kind {
        AskOk(cfg, s, a, from);
        AskOk(cfg, s', a, from);
        AlikeAnswers(cfg, After1(cfg, s, a), After1(cfg, s', a), asks[1..], kind, a.now);
      } else {
        OtherKindIdle(cfg, s, a, kind);
        OtherKindIdle(cfg, s', a, kind);
        AlikeAnswers(cfg, After1(cfg, s, a), After1(cfg, s', a), asks[1..], kind, from);
      }
    }
  }

  lemma FirstErasable(cfg: Config, s: Limiter, asks: seq<Ask>, was: real)
    requires RatesOk(cfg) && asks != [] && Ordered(asks) && KindOk(cfg, s, asks[0].publish, was)
    requires was <= asks[0].now && !TakeFor(cfg, s, asks[0]).0
    ensures Answers(cfg, After1(cfg, s, asks[0]), asks[1..]) == Answers(cfg, s, asks[1..])
  {
    var a := asks[0];
    RefusedKeepsLevels(KindMap(s, a.publish), a.cn, KindBurst(cfg, a.publish), KindRps(cfg, a.publish), was, a.now);
    AskOk(cfg, s, a, was);
    Tails(asks, a.publish, was);
    AlikeAnswers(cfg, After1(cfg, s, a), s, asks[1..], a.publish, a.now);
  }

  /** However checks overlap: deleting a refused take, of either kind, changes no other answer. */
  lemma {:induction false} RefusedTakeErasable(cfg: Config, s: Limiter, asks: seq<Ask>, k: nat, was: real)
    requires RatesOk(cfg) && Ordered(asks) && k < |asks| && !Answers(cfg, s, asks)[k]
    requires KindOk(cfg, s, asks[k].publish, was) && NoneBefore(asks, asks[k].publish, was)
    ensures Answers(cfg, s, RemoveAt(asks, k)) == RemoveAt(Answers(cfg, s, asks), k)
    decreases k
  {
    var vs, kind := Answers(cfg, s, asks), asks[k].publish;
    if k == 0 {
      FirstErasable(cfg, s, asks, was);
      assert RemoveAt(asks, 0) == asks[1..] && RemoveAt(vs, 0) == vs[1..];
    } else {
      var a, s1 := asks[0], After1(cfg, s, asks[0]);
      Tails(asks, kind, was);
      assert vs[1..] == Answers(cfg, s1, asks[1..]);
      if a.publish == kind {
        AskOk(cfg, s, a, was);
        RefusedTakeErasable(cfg, s1, asks[1..], k - 1, a.now);
      } else {
        OtherKindIdle(cfg, s, a, kind);
        RefusedTakeErasable(cfg, s1, asks[1..], k - 1, was);
      }
      RemoveAtTail(asks, k);
      RemoveAtTail(vs, k);
      assert RemoveAt(asks, k)[1..] == RemoveAt(asks[1..], k - 1);
    }
  }
}
