/** The connection counters of server/src/rate_limiter.rs against the connections that are actually open, and the
    mutable limiter that holds them next to the token buckets. */
module Connections {
  import opened Prelude
  import opened TokenBuckets

  datatype Counters = Counters(byIp: map<Name, nat>, byCn: map<Name, nat>)

  function CountOf(m: map<Name, nat>, k: Name): nat {
    if k in m then m[k] else 0
  }

  function Inc(m: map<Name, nat>, k: Name): map<Name, nat> {
    m[k := CountOf(m, k) + 1]
  }

  function Dec(m: map<Name, nat>, k: Name): map<Name, nat> {
    if k !in m then m else if m[k] > 1 then m[k := m[k] - 1] else m - {k}
  }

  /** A cap of 0 means no cap. */
  predicate AtCap(cap: nat, m: map<Name, nat>, k: Name) {
    cap > 0 && CountOf(m, k) >= cap
  }

  predicate Admits(maxIp: nat, maxCn: nat, s: Counters, cn: Name, ip: Name) {
    !AtCap(maxIp, s.byIp, ip) && !AtCap(maxCn, s.byCn, cn)
  }

  function Connect(maxIp: nat, maxCn: nat, s: Counters, cn: Name, ip: Name): Counters {
    if Admits(maxIp, maxCn, s, cn, ip) then Counters(Inc(s.byIp, ip), Inc(s.byCn, cn)) else s
  }

  function Release(s: Counters, cn: Name, ip: Name): Counters {
    Counters(Dec(s.byIp, ip), Dec(s.byCn, cn))
  }

  // ----- Counting one kind of key

  /** `m` counts the keys: present exactly when the count is positive. */
  ghost predicate Counts(m: map<Name, nat>, keys: multiset<Name>) {
    (forall k :: k in m <==> k in keys) && (forall k :: k in m ==> m[k] == keys[k])
  }

  /** ... and no key exceeds a positive cap. */
  ghost predicate Within(cap: nat, m: map<Name, nat>, keys: multiset<Name>) {
    Counts(m, keys) && (cap > 0 ==> forall k :: CountOf(m, k) <= cap)
  }

  lemma IncWithin(cap: nat, m: map<Name, nat>, keys: multiset<Name>, k: Name)
    requires Within(cap, m, keys)
    ensures !AtCap(cap, m, k) ==> Within(cap, Inc(m, k), keys + multiset{k})
    ensures Dec(Inc(m, k), k) == m
  {
    assert forall x :: CountOf(Inc(m, k), x) == CountOf(m, x) + if x == k then 1 else 0;
  }

  /** Decrementing takes one occurrence away, and changes nothing for a key that is not counted. */
  lemma DecWithin(cap: nat, m: map<Name, nat>, keys: multiset<Name>, k: Name)
    requires Within(cap, m, keys)
    ensures Within(cap, Dec(m, k), keys - multiset{k})
    ensures Within(cap, Dec(m, k), keys) <==> k !in keys
  {
    assert forall x :: CountOf(Dec(m, k), x) <= CountOf(m, x);
  }

  ghost function Total(m: map<Name, nat>): nat {
    if m == map[] then 0 else var k :| k in m; m[k] + Total(m - {k})
  }

  lemma {:induction false} CountsTotal(m: map<Name, nat>, keys: multiset<Name>)
    requires Counts(m, keys)
    ensures Total(m) == |keys|
    decreases m
  {
    if m == map[] {
      assert keys == multiset{};
    } else {
      var k :| k in m && Total(m) == m[k] + Total(m - {k});
      CountsTotal(m - {k}, keys[k := 0]);
    }
  }

  // ----- The open connections

  type Conn = (Name, Name)   // client name and address

  function Cns(live: seq<Conn>): seq<Name> {
    seq(|live|, i requires 0 <= i < |live| => live[i].0)
  }

  function Ips(live: seq<Conn>): seq<Name> {
    seq(|live|, i requires 0 <= i < |live| => live[i].1)
  }

  /** Fewer than `cap` of the keys are `k`, or there is no cap. */
  predicate Below(cap: nat, keys: seq<Name>, k: Name) {
    cap > 0 ==> multiset(keys)[k] < cap
  }

  /** The counters are the per-key counts of the open connections, and no positive cap is exceeded. */
  ghost predicate Exact(maxIp: nat, maxCn: nat, s: Counters, live: seq<Conn>) {
    Within(maxIp, s.byIp, multiset(Ips(live))) && Within(maxCn, s.byCn, multiset(Cns(live)))
  }

  lemma AppendLive(live: seq<Conn>, cn: Name, ip: Name)
    ensures multiset(Ips(live + [(cn, ip)])) == multiset(Ips(live)) + multiset{ip}
    ensures multiset(Cns(live + [(cn, ip)])) == multiset(Cns(live)) + multiset{cn}
  {
    assert Ips(live + [(cn, ip)]) == Ips(live) + [ip];
    assert Cns(live + [(cn, ip)]) == Cns(live) + [cn];
  }

  /** A granted connection is counted, and releasing it restores both counters. */
  lemma ConnectExact(maxIp: nat, maxCn: nat, s: Counters, live: seq<Conn>, cn: Name, ip: Name)
    requires Exact(maxIp, maxCn, s, live)
    ensures var t := Connect(maxIp, maxCn, s, cn, ip);
      && Exact(maxIp, maxCn, t, if Admits(maxIp, maxCn, s, cn, ip) then live + [(cn, ip)] else live)
      && (Admits(maxIp, maxCn, s, cn, ip) ==> Release(t, cn, ip) == s)
  {
    IncWithin(maxIp, s.byIp, multiset(Ips(live)), ip);
    IncWithin(maxCn, s.byCn, multiset(Cns(live)), cn);
    AppendLive(live, cn, ip);
  }

  lemma RemoveAtCounts<T>(s: seq<T>, i: nat)
    requires i < |s|
    ensures multiset(RemoveAt(s, i)) == multiset(s) - multiset{s[i]}
  {
    assert s == s[..i] + [s[i]] + s[i + 1..];
  }

  lemma RemoveLive(live: seq<Conn>, i: nat)
    requires i < |live|
    ensures multiset(Ips(RemoveAt(live, i))) == multiset(Ips(live)) - multiset{live[i].1}
    ensures multiset(Cns(RemoveAt(live, i))) == multiset(Cns(live)) - multiset{live[i].0}
  {
    RemoveAtCounts(Ips(live), i);
    RemoveAtCounts(Cns(live), i);
    assert Ips(RemoveAt(live, i)) == RemoveAt(Ips(live), i);
    assert Cns(RemoveAt(live, i)) == RemoveAt(Cns(live), i);
  }

  lemma ReleaseExact(maxIp: nat, maxCn: nat, s: Counters, live: seq<Conn>, i: nat)
    requires Exact(maxIp, maxCn, s, live) && i < |live|
    ensures Exact(maxIp, maxCn, Release(s, live[i].0, live[i].1), RemoveAt(live, i))
  {
    DecWithin(maxIp, s.byIp, multiset(Ips(live)), live[i].1);
    DecWithin(maxCn, s.byCn, multiset(Cns(live)), live[i].0);
    RemoveLive(live, i);
  }

  /** A release for a pair that is not open leaves the counters right if and only if neither its address nor its name
      belongs to any open connection. */
  lemma StrayReleaseIff(maxIp: nat, maxCn: nat, s: Counters, live: seq<Conn>, cn: Name, ip: Name)
    requires Exact(maxIp, maxCn, s, live)
    ensures Exact(maxIp, maxCn, Release(s, cn, ip), live) <==> ip !in Ips(live) && cn !in Cns(live)
  {
    DecWithin(maxIp, s.byIp, multiset(Ips(live)), ip);
    DecWithin(maxCn, s.byCn, multiset(Cns(live)), cn);
  }

  /** One connection is open, and a release for another client at the same address uncounts it. */
  lemma StrayReleaseUncounts()
    ensures var s := Connect(2, 2, Counters(map[], map[]), "a", "host");
      Exact(2, 2, s, [("a", "host")]) && Release(s, "b", "host").byIp == map[]
      && !Exact(2, 2, Release(s, "b", "host"), [("a", "host")])
  {
    var s := Connect(2, 2, Counters(map[], map[]), "a", "host");
    assert Exact(2, 2, Counters(map[], map[]), []);
    ConnectExact(2, 2, Counters(map[], map[]), [], "a", "host");
    assert [] + [("a", "host")] == [("a", "host")];
    StrayReleaseIff(2, 2, s, [("a", "host")], "b", "host");
    assert Ips([("a", "host")])[0] == "host";
  }

  // ----- Runs

  datatype Event = Open(cn: Name, ip: Name) | CloseLive(i: nat)

  /** The counters and the open connections after the events; a close names an open connection by its place. */
  function Serve(maxIp: nat, maxCn: nat, evs: seq<Event>): (Counters, seq<Conn>) {
    if evs == [] then (Counters(map[], map[]), [])
    else
      var before, ev := Serve(maxIp, maxCn, evs[..|evs| - 1]), evs[|evs| - 1];
      match ev
      case Open(cn, ip) =>
        (Connect(maxIp, maxCn, before.0, cn, ip),
         if Admits(maxIp, maxCn, before.0, cn, ip) then before.1 + [(cn, ip)] else before.1)
      case CloseLive(i) =>
        if i < |before.1|
        then (Release(before.0, before.1[i].0, before.1[i].1), RemoveAt(before.1, i))
        else before
  }

  /** If only open connections are released, the counters are always exact, within the caps and of equal total. */
  lemma {:induction false} CountersAlwaysExact(maxIp: nat, maxCn: nat, evs: seq<Event>)
    ensures var r := Serve(maxIp, maxCn, evs);
      Exact(maxIp, maxCn, r.0, r.1) && Total(r.0.byIp) == |r.1| && Total(r.0.byCn) == |r.1|
  {
    var r := Serve(maxIp, maxCn, evs);
    if evs == [] {
    } else {
      var before, ev := Serve(maxIp, maxCn, evs[..|evs| - 1]), evs[|evs| - 1];
      CountersAlwaysExact(maxIp, maxCn, evs[..|evs| - 1]);
      match ev
      case Open(cn, ip) => ConnectExact(maxIp, maxCn, before.0, before.1, cn, ip);
      case CloseLive(i) =>
        if i < |before.1| {
          ReleaseExact(maxIp, maxCn, before.0, before.1, i);
        }
    }
    CountsTotal(r.0.byIp, multiset(Ips(r.1)));
    CountsTotal(r.0.byCn, multiset(Cns(r.1)));
  }

  // ----- The mutable limiter

  datatype Result = Allowed | RateLimited | ConnectionLimit

  class RateLimiter {
    const config: Config
    const maxConnectionsPerIp: nat
    const maxConnectionsPerCn: nat
    var global: map<Name, Bucket>
    var publish: map<Name, Bucket>
    var byIp: map<Name, nat>
    var byCn: map<Name, nat>

    constructor (config: Config, maxIp: nat, maxCn: nat)
      ensures Limiter(global, publish) == Fresh() && Counters(byIp, byCn) == Counters(map[], map[])
      ensures this.config == config && maxConnectionsPerIp == maxIp && maxConnectionsPerCn == maxCn
    {
      this.config, maxConnectionsPerIp, maxConnectionsPerCn := config, maxIp, maxCn;
      global, publish, byIp, byCn := map[], map[], map[], map[];
    }

    /** The two clock readings of one check are passed in. */
    method Check(cn: Name, isPublish: bool, globalNow: real, publishNow: real) returns (result: Result)
      modifies this`global, this`publish
      ensures var r := TokenBuckets.Check(config, old(Limiter(global, publish)), Call(cn, isPublish, globalNow,
        publishNow));
        Limiter(global, publish) == r.1 && result == if r.0.Allowed? then Result.Allowed else RateLimited
      ensures Charged(config, old(Limiter(global, publish)), Call(cn, isPublish, globalNow, publishNow),
        result.Allowed?,
                      Limiter(global, publish))
    {
      CheckCharges(config, Limiter(global, publish), Call(cn, isPublish, globalNow, publishNow));
      if cn !in global {
        global := global[cn := NewBucket(config.globalBurst, config.globalRps, globalNow)];
      }
      var taken := Take(global[cn], globalNow);
      global := global[cn := taken.1];
      if !taken.0 {
        return RateLimited;
      }
      if isPublish {
        if cn !in publish {
          publish := publish[cn := NewBucket(config.publishBurst, config.publishRps, publishNow)];
        }
        taken := Take(publish[cn], publishNow);
        publish := publish[cn := taken.1];
        if !taken.0 {
          return RateLimited;
        }
      }
      return Result.Allowed;
    }

    method CheckConnection(cn: Name, ip: Name) returns (result: Result)
      modifies this`byIp, this`byCn
      ensures Counters(byIp, byCn) == Connect(maxConnectionsPerIp, maxConnectionsPerCn, old(Counters(byIp, byCn)),
        cn, ip)
      ensures result == if Admits(maxConnectionsPerIp, maxConnectionsPerCn, old(Counters(byIp, byCn)), cn, ip)
                        then Result.Allowed else ConnectionLimit
      ensures forall live :: Exact(maxConnectionsPerIp, maxConnectionsPerCn, old(Counters(byIp, byCn)), live) ==>
        && (result.Allowed? <==>
              Below(maxConnectionsPerIp, Ips(live), ip) && Below(maxConnectionsPerCn, Cns(live), cn))
        && Exact(maxConnectionsPerIp, maxConnectionsPerCn, Counters(byIp, byCn),
                 if result.Allowed? then live + [(cn, ip)] else live)
    {
      ghost var before := Counters(byIp, byCn);
      forall live | Exact(maxConnectionsPerIp, maxConnectionsPerCn, before, live)
        ensures AtCap(maxConnectionsPerIp, before.byIp, ip) <==> !Below(maxConnectionsPerIp, Ips(live), ip)
        ensures AtCap(maxConnectionsPerCn, before.byCn, cn) <==> !Below(maxConnectionsPerCn, Cns(live), cn)
        ensures Exact(maxConnectionsPerIp, maxConnectionsPerCn,
                      Connect(maxConnectionsPerIp, maxConnectionsPerCn, before, cn, ip),
                      if Admits(maxConnectionsPerIp, maxConnectionsPerCn, before, cn, ip) then live + [(cn,
                        ip)] else live)
      {
        ConnectExact(maxConnectionsPerIp, maxConnectionsPerCn, before, live, cn, ip);
      }
      if AtCap(maxConnectionsPerIp, byIp, ip) {
        return ConnectionLimit;
      }
      if AtCap(maxConnectionsPerCn, byCn, cn) {
        return ConnectionLimit;
      }
      byIp := Inc(byIp, ip);
      byCn := Inc(byCn, cn);
      return Result.Allowed;
    }

    method ReleaseConnection(cn: Name, ip: Name)
      modifies this`byIp, this`byCn
      ensures Counters(byIp, byCn) == Release(old(Counters(byIp, byCn)), cn, ip)
      ensures forall live, i: nat ::
        && Exact(maxConnectionsPerIp, maxConnectionsPerCn, old(Counters(byIp, byCn)), live)
        && i < |live| && live[i] == (cn, ip) ==>
          Exact(maxConnectionsPerIp, maxConnectionsPerCn, Counters(byIp, byCn), RemoveAt(live, i))
    {
      ghost var before := Counters(byIp, byCn);
      forall live, i: nat |
        Exact(maxConnectionsPerIp, maxConnectionsPerCn, before, live) && i < |live| && live[i] == (cn, ip)
        ensures Exact(maxConnectionsPerIp, maxConnectionsPerCn, Release(before, cn, ip), RemoveAt(live, i))
      {
        ReleaseExact(maxConnectionsPerIp, maxConnectionsPerCn, before, live, i);
      }
      byIp := Dec(byIp, ip);
      byCn := Dec(byCn, cn);
    }
  }
}
