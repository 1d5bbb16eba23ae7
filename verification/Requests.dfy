/**
  Network request batching: `collect_requests.py` buffers, `rank_requests.py` sorts by urgency,
  `group_requests.py` splits by zone, and `graph.py` chains the three on sanitised requests.
 */
module Requests {
  import opened Wrappers

  /** A request with the keys the three stages read; an absent key is `None`. */
  datatype Request = Request(
    id: nat,
    severityTier: Option<int>,
    criticalityScore: Option<real>,
    confidenceScore: Option<real>,
    clusterId: Option<string>,
    sensorClusterId: Option<string>,
    zoneId: Option<string>,
    deviceId: Option<string>)

  // ---------------------------------------------------------------- collecting

  function Min(a: int, b: int): int { if a <= b then a else b }

  function Max(a: int, b: int): int { if a >= b then a else b }

  /** Python's slice bound: a negative one counts from the end, and both are clipped to the list. */
  function Bound(n: nat, k: int): (b: nat)
    ensures b <= n
    ensures if k >= 0 then b == k || (b == n && n <= k) else b == n + k || (b == 0 && n + k <= 0)
  {
    if k >= 0 then Min(k, n) else Max(0, n + k)
  }

  /** The scan of `any(r["severity_tier"] == 3 ...)`: `None` when it meets a request without a tier first. */
  function UrgentIn(rs: seq<Request>): Option<bool> {
    if rs == [] then Some(false)
    else if rs[0].severityTier == None then None
    else if rs[0].severityTier == Some(3) then Some(true)
    else UrgentIn(rs[1..])
  }

  class RequestCollector {
    const maxBatchSize: int
    const maxWaitTime: real
    var pending: seq<Request>
    var batchStartTime: Option<real>
    ghost var added: seq<Request>
    ghost var returned: seq<Request>

    constructor (maxBatchSize: int, maxWaitTime: real)
      ensures Valid() && pending == [] && added == [] && returned == []
      ensures this.maxBatchSize == maxBatchSize && this.maxWaitTime == maxWaitTime
    {
      this.maxBatchSize, this.maxWaitTime := maxBatchSize, maxWaitTime;
      pending, batchStartTime := [], None;
      added, returned := [], [];
    }

    /** Nothing is lost, repeated or reordered, and the batch clock runs exactly while something is pending. */
    ghost predicate Valid()
      reads this
    {
      returned + pending == added && (batchStartTime.None? <==> pending == [])
    }

    method AddRequest(r: Request, now: real)
      requires Valid()
      modifies this`pending, this`batchStartTime, this`added
      ensures Valid() && pending == old(pending) + [r] && added == old(added) + [r]
      ensures batchStartTime == if old(pending) == [] then Some(now) else old(batchStartTime)
    {
      if pending == [] {
        batchStartTime := Some(now);
      }
      pending := pending + [r];
      added := added + [r];
    }

    method ShouldFlush(now: real) returns (flush: Option<bool>)
      requires Valid()
      ensures pending == [] ==> flush == Some(false)
      ensures pending != [] && |pending| >= maxBatchSize ==> flush == Some(true)
      ensures 0 < |pending| < maxBatchSize ==>
                flush == if UrgentIn(pending) == Some(false)
                         then Some(now - batchStartTime.value >= maxWaitTime) else UrgentIn(pending)
    {
      if pending == [] {
        return Some(false);
      }
      if |pending| >= maxBatchSize {
        return Some(true);
      }
      var rest := pending;
      while rest != []
        invariant UrgentIn(rest) == UrgentIn(pending)
        decreases |rest|
      {
        if rest[0].severityTier == None {
          return None;
        }
        if rest[0].severityTier == Some(3) {
          return Some(true);
        }
        rest := rest[1..];
      }
      return Some(now - batchStartTime.value >= maxWaitTime);
    }

    method GetBatch(now: real) returns (batch: seq<Request>)
      requires Valid()
      modifies this`pending, this`batchStartTime, this`returned
      ensures Valid() && returned == old(returned) + batch
      ensures batch + pending == old(pending) && |batch| == Bound(|old(pending)|, maxBatchSize)
      ensures batchStartTime == if pending != [] then Some(now) else None
    {
      batch := pending[..Bound(|pending|, maxBatchSize)];
      pending := pending[Bound(|pending|, maxBatchSize)..];
      batchStartTime := if pending != [] then Some(now) else None;
      returned := returned + batch;
    }
  }

  /** The request at `i` has this tier (or none), and none before it has `other`. */
  ghost predicate ComesFirst(rs: seq<Request>, i: nat, tier: Option<int>, other: Option<int>) {
    i < |rs| && rs[i].severityTier == tier && forall j :: 0 <= j < i ==> rs[j].severityTier != other
  }

  lemma {:induction false} ScanStops(rs: seq<Request>) returns (i: nat)
    requires UrgentIn(rs) != Some(false)
    ensures UrgentIn(rs) == None ==> ComesFirst(rs, i, None, Some(3))
    ensures UrgentIn(rs) == Some(true) ==> ComesFirst(rs, i, Some(3), None)
  {
    if rs[0].severityTier == None || rs[0].severityTier == Some(3) {
      i := 0;
    } else {
      i := ScanStops(rs[1..]);
      i := i + 1;
      assert forall j :: 0 < j < |rs| ==> rs[j] == rs[1..][j - 1];
    }
  }

  lemma {:induction false} FirstDecides(rs: seq<Request>, i: nat)
    ensures ComesFirst(rs, i, None, Some(3)) ==> UrgentIn(rs) == None
    ensures ComesFirst(rs, i, Some(3), None) ==> UrgentIn(rs) == Some(true)
  {
    if 0 < i < |rs| {
      FirstDecides(rs[1..], i - 1);
      assert forall j :: 0 < j < |rs| ==> rs[j] == rs[1..][j - 1];
    }
  }

  /** The flush scan fails on a missing tier, or flushes, by whichever of the two comes first. */
  lemma {:induction false} UrgentExactly(rs: seq<Request>)
    ensures UrgentIn(rs) == None <==> exists i: nat :: ComesFirst(rs, i, None, Some(3))
    ensures UrgentIn(rs) == Some(true) <==> exists i: nat :: ComesFirst(rs, i, Some(3), None)
  {
    hide UrgentIn, ComesFirst;
    if UrgentIn(rs) != Some(false) {
      var i := ScanStops(rs);
    }
    forall i: nat
      ensures ComesFirst(rs, i, None, Some(3)) ==> UrgentIn(rs) == None
      ensures ComesFirst(rs, i, Some(3), None) ==> UrgentIn(rs) == Some(true)
    {
      FirstDecides(rs, i);
    }
  }

  // ---------------------------------------------------------------- ranking

  datatype Key = Key(tier: int, criticality: real, confidence: real)

  function KeyOf(r: Request): Key {
    Key(r.severityTier.GetOr(0), r.criticalityScore.GetOr(0.0), r.confidenceScore.GetOr(0.0))
  }

  /** `a` may stand before `b`: the more severe, then the more critical, then the more confident first. */
  predicate NotAfter(a: Key, b: Key) {
    || a.tier > b.tier
    || (a.tier == b.tier && a.criticality > b.criticality)
    || (a.tier == b.tier && a.criticality == b.criticality && a.confidence >= b.confidence)
  }

  predicate Ranked(rs: seq<Request>) {
    forall i, j :: 0 <= i < j < |rs| ==> NotAfter(KeyOf(rs[i]), KeyOf(rs[j]))
  }

  function OfKey(rs: seq<Request>, k: Key): seq<Request> {
    if rs == [] then [] else (if KeyOf(rs[0]) == k then [rs[0]] else []) + OfKey(rs[1..], k)
  }

  /** Requests of equal key keep their order of arrival. */
  ghost predicate StableFor(ranked: seq<Request>, rs: seq<Request>) {
    forall k :: OfKey(ranked, k) == OfKey(rs, k)
  }

  function Insert(r: Request, ranked: seq<Request>): seq<Request> {
    if ranked == [] || NotAfter(KeyOf(r), KeyOf(ranked[0])) then [r] + ranked
    else [ranked[0]] + Insert(r, ranked[1..])
  }

  /** The stable sort `sorted(requests, key=...)`. */
  function RankRequests(rs: seq<Request>): seq<Request> {
    if rs == [] then [] else Insert(rs[0], RankRequests(rs[1..]))
  }

  lemma OfKeyCons(r: Request, rs: seq<Request>, k: Key)
    ensures OfKey([r] + rs, k) == if KeyOf(r) == k then [r] + OfKey(rs, k) else OfKey(rs, k)
  {
    assert ([r] + rs)[1..] == rs;
  }

  lemma {:induction false} InsertAdds(r: Request, ranked: seq<Request>)
    ensures multiset(Insert(r, ranked)) == multiset{r} + multiset(ranked)
  {
    if !(ranked == [] || NotAfter(KeyOf(r), KeyOf(ranked[0]))) {
      InsertAdds(r, ranked[1..]);
      assert ranked == [ranked[0]] + ranked[1..];
    }
  }

  lemma NotAfterIsTransitive()
    ensures forall a, b, c :: NotAfter(a, b) && NotAfter(b, c) ==> NotAfter(a, c)
    ensures forall a, b :: NotAfter(a, b) || NotAfter(b, a)
  {
  }

  lemma {:induction false} InsertRanks(r: Request, ranked: seq<Request>)
    requires Ranked(ranked)
    ensures Ranked(Insert(r, ranked))
  {
    hide KeyOf;
    if ranked == [] {
    } else if NotAfter(KeyOf(r), KeyOf(ranked[0])) {
      NotAfterIsTransitive();
    } else {
      var done := Insert(r, ranked[1..]);
      InsertRanks(r, ranked[1..]);
      InsertAdds(r, ranked[1..]);
      hide NotAfter;
      NotAfterIsTransitive();
      forall j | 0 <= j < |done| ensures NotAfter(KeyOf(ranked[0]), KeyOf(done[j])) {
        assert done[j] in multiset(done);
        assert done[j] == r || done[j] in ranked[1..];
      }
    }
  }

  lemma {:induction false} InsertIsStable(r: Request, ranked: seq<Request>, k: Key)
    ensures OfKey(Insert(r, ranked), k) == OfKey([r] + ranked, k)
  {
    if !(ranked == [] || NotAfter(KeyOf(r), KeyOf(ranked[0]))) {
      var rest := ranked[1..];
      InsertIsStable(r, rest, k);
      OfKeyCons(ranked[0], Insert(r, rest), k);
      OfKeyCons(r, rest, k);
      OfKeyCons(r, ranked, k);
    }
  }

  /** The ranking is a permutation of its input, in rank order, and stable. */
  lemma {:induction false} RankingIsAStableSort(rs: seq<Request>)
    ensures Ranked(RankRequests(rs)) && multiset(RankRequests(rs)) == multiset(rs)
    ensures StableFor(RankRequests(rs), rs)
  {
    if rs != [] {
      var rest := RankRequests(rs[1..]);
      RankingIsAStableSort(rs[1..]);
      InsertRanks(rs[0], rest);
      InsertAdds(rs[0], rest);
      assert rs == [rs[0]] + rs[1..];
      forall k ensures OfKey(RankRequests(rs), k) == OfKey(rs, k) {
        InsertIsStable(rs[0], rest, k);
        OfKeyCons(rs[0], rest, k);
        OfKeyCons(rs[0], rs[1..], k);
      }
    }
  }

  /** Strictly more urgent: by severity, then by criticality, then by confidence; what is missing counts as zero. */
  predicate MoreUrgent(a: Request, b: Request) {
    var tierA, tierB := a.severityTier.GetOr(0), b.severityTier.GetOr(0);
    var criticalA, criticalB := a.criticalityScore.GetOr(0.0), b.criticalityScore.GetOr(0.0);
    || tierA > tierB
    || (tierA == tierB && criticalA > criticalB)
    || (tierA == tierB && criticalA == criticalB && a.confidenceScore.GetOr(0.0) > b.confidenceScore.GetOr(0.0))
  }

  /** No request stands behind a less urgent one, and requests equally urgent are exactly those of one key. */
  lemma RankingByUrgency(rs: seq<Request>)
    ensures var ranked := RankRequests(rs);
            forall i, j :: 0 <= i < j < |ranked| ==> !MoreUrgent(ranked[j], ranked[i])
    ensures forall a, b :: KeyOf(a) == KeyOf(b) <==> !MoreUrgent(a, b) && !MoreUrgent(b, a)
  {
    RankingIsAStableSort(rs);
  }

  lemma {:induction false} KeyPresent(rs: seq<Request>, k: Key)
    ensures OfKey(rs, k) != [] <==> exists i :: 0 <= i < |rs| && KeyOf(rs[i]) == k
  {
    if rs != [] {
      KeyPresent(rs[1..], k);
      assert forall i :: 0 < i < |rs| ==> rs[i] == rs[1..][i - 1];
    }
  }

  lemma SameHead(a: seq<Request>, b: seq<Request>)
    requires Ranked(a) && Ranked(b) && StableFor(a, b) && a != []
    ensures b != [] && a[0] == b[0]
  {
    var k := KeyOf(a[0]);
    assert OfKey(a, k) == OfKey(b, k);
    KeyPresent(a, k);
    KeyPresent(b, k);
    var l := KeyOf(b[0]);
    assert OfKey(a, l) == OfKey(b, l);
    KeyPresent(b, l);
    KeyPresent(a, l);
    assert NotAfter(k, l) && NotAfter(l, k);
    assert OfKey(a, k)[0] == a[0] && OfKey(b, l)[0] == b[0];
  }

  lemma {:induction false} SameTails(a: seq<Request>, b: seq<Request>, k: Key)
    requires a != [] && b != [] && a[0] == b[0] && OfKey(a, k) == OfKey(b, k)
    ensures OfKey(a[1..], k) == OfKey(b[1..], k)
  {
    assert a == [a[0]] + a[1..] && b == [b[0]] + b[1..];
    OfKeyCons(a[0], a[1..], k);
    OfKeyCons(b[0], b[1..], k);
    assert KeyOf(a[0]) == k ==> OfKey(a, k)[1..] == OfKey(a[1..], k) && OfKey(b, k)[1..] == OfKey(b[1..], k);
  }

  /** There is only one stable ranking, so the three properties above determine the result completely. */
  lemma {:induction false} StableRankingIsUnique(a: seq<Request>, b: seq<Request>)
    requires Ranked(a) && Ranked(b) && StableFor(a, b)
    ensures a == b
  {
    if a == [] {
      if b != [] {
        SameHead(b, a);
      }
    } else {
      SameHead(a, b);
      forall k ensures OfKey(a[1..], k) == OfKey(b[1..], k) {
        SameTails(a, b, k);
      }
      StableRankingIsUnique(a[1..], b[1..]);
      assert a == [a[0]] + a[1..] && b == [b[0]] + b[1..];
    }
  }

  // ---------------------------------------------------------------- grouping

  /** `req.get("sensor_cluster_id", req.get("zone_id", "zone-unknown"))`. */
  function ZoneOf(r: Request): string {
    r.sensorClusterId.GetOr(r.zoneId.GetOr("zone-unknown"))
  }

  datatype RegionalBatch = RegionalBatch(zone: string, representative: string, requests: seq<Request>)

  function OfZone(rs: seq<Request>, z: string): seq<Request> {
    if rs == [] then [] else OfZone(rs[..|rs| - 1], z) + if ZoneOf(rs[|rs| - 1]) == z then [rs[|rs| - 1]] else []
  }

  /** The zones in order of first appearance. */
  function Zones(rs: seq<Request>): seq<string> {
    if rs == [] then []
    else
      var zs := Zones(rs[..|rs| - 1]);
      if ZoneOf(rs[|rs| - 1]) in zs then zs else zs + [ZoneOf(rs[|rs| - 1])]
  }

  function BatchOf(rs: seq<Request>, z: string): RegionalBatch
    requires OfZone(rs, z) != []
  {
    RegionalBatch(z, OfZone(rs, z)[0].deviceId.GetOr("+99999991000"), OfZone(rs, z))
  }

  /** A batch holds requests of its own zone, and its device is that of its first request, or the fallback number. */
  lemma {:induction false} BatchMeaning(rs: seq<Request>, z: string)
    requires OfZone(rs, z) != []
    ensures var b := BatchOf(rs, z);
            && b.zone == z && b.requests != []
            && b.representative == (match b.requests[0].deviceId case None => "+99999991000" case Some(d) => d)
            && forall r :: r in b.requests ==>
                 z == match r.sensorClusterId
                      case Some(c) => c
                      case None => match r.zoneId case Some(y) => y case None => "zone-unknown"
  {
    ZoneOnly(rs, z);
  }

  lemma {:induction false} ZoneOnly(rs: seq<Request>, z: string)
    ensures forall r :: r in OfZone(rs, z) ==> ZoneOf(r) == z
  {
    if rs != [] {
      ZoneOnly(rs[..|rs| - 1], z);
    }
  }

  predicate NoDuplicates<T(==)>(s: seq<T>) {
    forall i, j :: 0 <= i < j < |s| ==> s[i] != s[j]
  }

  lemma {:induction false} ZonesAreThoseOfTheRequests(rs: seq<Request>)
    ensures NoDuplicates(Zones(rs))
    ensures forall z :: z in Zones(rs) <==> OfZone(rs, z) != []
    ensures forall r :: r in rs ==> ZoneOf(r) in Zones(rs)
  {
    if rs != [] {
      ZonesAreThoseOfTheRequests(rs[..|rs| - 1]);
      assert rs == rs[..|rs| - 1] + [rs[|rs| - 1]];
    }
  }

  lemma GroupStep(rs: seq<Request>, k: nat)
    requires k < |rs|
    ensures Zones(rs[..k + 1]) == if ZoneOf(rs[k]) in Zones(rs[..k]) then Zones(rs[..k]) else Zones(rs[..k]) + [ZoneOf(rs[k])]
    ensures forall z :: OfZone(rs[..k + 1], z) == OfZone(rs[..k], z) + if ZoneOf(rs[k]) == z then [rs[k]] else []
    ensures ZoneOf(rs[k]) !in Zones(rs[..k]) ==> OfZone(rs[..k], ZoneOf(rs[k])) == []
  {
    assert rs[..k + 1][..k] == rs[..k];
    ZonesAreThoseOfTheRequests(rs[..k]);
  }

  method GroupRequestsByZone(rs: seq<Request>) returns (batches: seq<RegionalBatch>)
    ensures |batches| == |Zones(rs)|
    ensures forall i :: 0 <= i < |batches| ==>
              OfZone(rs, Zones(rs)[i]) != [] && batches[i] == BatchOf(rs, Zones(rs)[i])
  {
    var order: seq<string>, groups: map<string, seq<Request>> := [], map[];
    assert order == Zones(rs[..0]);
    hide ZoneOf, OfZone, Zones;
    for k := 0 to |rs|
      invariant order == Zones(rs[..k]) && forall z :: z in groups <==> z in order
      invariant forall z :: z in order ==> groups[z] == OfZone(rs[..k], z)
    {
      GroupStep(rs, k);
      var z := ZoneOf(rs[k]);
      if z !in groups {
        groups := groups[z := []];
        order := order + [z];
      }
      groups := groups[z := groups[z] + [rs[k]]];
    }
    assert rs[..|rs|] == rs;
    batches := BatchesOf(rs, order, groups);
  }

  /** The second loop: one batch a zone, represented by the device of its first request. */
  method BatchesOf(rs: seq<Request>, order: seq<string>, groups: map<string, seq<Request>>) returns (batches: seq<RegionalBatch>)
    requires order == Zones(rs)
    requires forall z :: z in order ==> z in groups && groups[z] == OfZone(rs, z)
    ensures |batches| == |order|
    ensures forall i :: 0 <= i < |order| ==> OfZone(rs, order[i]) != [] && batches[i] == BatchOf(rs, order[i])
  {
    ZonesAreThoseOfTheRequests(rs);
    hide OfZone, Zones;
    batches := [];
    for i := 0 to |order|
      invariant |batches| == i
      invariant forall k :: 0 <= k < i ==> OfZone(rs, order[k]) != [] && batches[k] == BatchOf(rs, order[k])
    {
      var members := groups[order[i]];
      assert order[i] in Zones(rs);
      batches := batches + [RegionalBatch(order[i], members[0].deviceId.GetOr("+99999991000"), members)];
    }
  }

  function Flattened(rs: seq<Request>, zs: seq<string>): seq<Request> {
    if zs == [] then [] else OfZone(rs, zs[0]) + Flattened(rs, zs[1..])
  }

  lemma {:induction false} ZoneCount(rs: seq<Request>, z: string, r: Request)
    ensures multiset(OfZone(rs, z))[r] == if ZoneOf(r) == z then multiset(rs)[r] else 0
  {
    if rs != [] {
      ZoneCount(rs[..|rs| - 1], z, r);
      assert rs == rs[..|rs| - 1] + [rs[|rs| - 1]];
    }
  }

  lemma {:induction false} FlattenedCount(rs: seq<Request>, zs: seq<string>, r: Request)
    requires NoDuplicates(zs)
    ensures multiset(Flattened(rs, zs))[r] == if ZoneOf(r) in zs then multiset(rs)[r] else 0
  {
    if zs != [] {
      ZoneCount(rs, zs[0], r);
      FlattenedCount(rs, zs[1..], r);
      assert zs == [zs[0]] + zs[1..];
    }
  }

  /** Every request lands in exactly one group. */
  lemma GroupsPartition(rs: seq<Request>)
    ensures multiset(Flattened(rs, Zones(rs))) == multiset(rs)
  {
    ZonesAreThoseOfTheRequests(rs);
    forall r ensures multiset(Flattened(rs, Zones(rs)))[r] == multiset(rs)[r] {
      FlattenedCount(rs, Zones(rs), r);
      assert r in multiset(rs) ==> r in rs;
    }
  }

  /** The position of a zone's first request. */
  function FirstOf(rs: seq<Request>, z: string): (k: nat)
    requires OfZone(rs, z) != []
    ensures k < |rs| && rs[k] == OfZone(rs, z)[0]
  {
    if OfZone(rs[..|rs| - 1], z) != [] then FirstOf(rs[..|rs| - 1], z) else |rs| - 1
  }

  lemma {:induction false} ZonesInOrderOfFirst(rs: seq<Request>)
    ensures forall z :: z in Zones(rs) ==> OfZone(rs, z) != []
    ensures forall i, j :: 0 <= i < j < |Zones(rs)| ==> FirstOf(rs, Zones(rs)[i]) < FirstOf(rs, Zones(rs)[j])
  {
    ZonesAreThoseOfTheRequests(rs);
    if rs != [] {
      var init := rs[..|rs| - 1];
      ZonesAreThoseOfTheRequests(init);
      ZonesInOrderOfFirst(init);
      forall i | 0 <= i < |Zones(init)| ensures FirstOf(rs, Zones(rs)[i]) == FirstOf(init, Zones(init)[i]) {
        assert Zones(rs)[i] == Zones(init)[i] && Zones(init)[i] in Zones(init);
      }
    }
  }

  /** The groups of a ranked list come in rank order of their heads, and the first head is the top request. */
  lemma GroupHeadsAreRanked(rs: seq<Request>)
    requires Ranked(rs)
    ensures forall z :: z in Zones(rs) ==> OfZone(rs, z) != []
    ensures forall i, j :: 0 <= i < j < |Zones(rs)| ==>
              NotAfter(KeyOf(OfZone(rs, Zones(rs)[i])[0]), KeyOf(OfZone(rs, Zones(rs)[j])[0]))
    ensures rs != [] ==> Zones(rs) != [] && OfZone(rs, Zones(rs)[0])[0] == rs[0]
  {
    ZonesInOrderOfFirst(rs);
    if rs != [] {
      ZonesAreThoseOfTheRequests(rs);
      assert rs[0] in rs;
      FirstZone(rs);
    }
  }

  lemma {:induction false} FirstZone(rs: seq<Request>)
    requires rs != []
    ensures Zones(rs) != [] && Zones(rs)[0] == ZoneOf(rs[0])
    ensures OfZone(rs, ZoneOf(rs[0])) != [] && OfZone(rs, ZoneOf(rs[0]))[0] == rs[0]
  {
    if |rs| > 1 {
      FirstZone(rs[..|rs| - 1]);
    } else {
      assert rs == [rs[0]];
    }
  }

  /** A group of a ranked list is itself ranked: grouping keeps the order inside every zone. */
  lemma {:induction false} GroupsAreRanked(rs: seq<Request>, z: string)
    requires Ranked(rs)
    ensures Ranked(OfZone(rs, z)) && forall r :: r in OfZone(rs, z) ==> r in rs && ZoneOf(r) == z
  {
    if rs != [] {
      var init := rs[..|rs| - 1];
      GroupsAreRanked(init, z);
      assert forall r :: r in init ==> NotAfter(KeyOf(r), KeyOf(rs[|rs| - 1]));
    }
  }

  // ---------------------------------------------------------------- the workflow

  const DESERT_CLUSTERS: set<string> := {
    "cluster-desert-042", "cluster-desert-043", "cluster-desert-044", "cluster-desert-045", "cluster-desert-046"
  }

  /** Python's `or` on optional strings: the first one present and not empty, else the last. */
  function Or(a: Option<string>, b: Option<string>): Option<string> {
    if a.GetOr("") != "" then a else b
  }

  function Target(r: Request): string {
    var t := Or(r.clusterId, Or(r.sensorClusterId, r.deviceId)).GetOr("");
    if t in DESERT_CLUSTERS then t else "cluster-desert-046"
  }

  function Sanitized(r: Request): Request {
    r.(deviceId := Some(Target(r)), clusterId := Some(Target(r)), sensorClusterId := Some(Target(r)))
  }

  function SanitizedAll(rs: seq<Request>): seq<Request> {
    seq(|rs|, i requires 0 <= i < |rs| => Sanitized(rs[i]))
  }

  /** Sanitising twice, as collecting and ranking do, is sanitising once; it moves no request in the ranking. */
  lemma SanitizingSettles(r: Request)
    ensures Sanitized(Sanitized(r)) == Sanitized(r) && KeyOf(Sanitized(r)) == KeyOf(r)
    ensures ZoneOf(Sanitized(r)) in DESERT_CLUSTERS
    ensures Target(r) != "cluster-desert-046" ==>
              Some(Target(r)) in {r.clusterId, r.sensorClusterId, r.deviceId}
  {
    assert Target(r) != "";
  }

  /** A request is targeted by the first id it carries, if that is a desert cluster, and at the last desert cluster otherwise. */
  lemma TargetPrecedence(r: Request)
    ensures var first := if r.clusterId.GetOr("") != "" then r.clusterId.value
                         else if r.sensorClusterId.GetOr("") != "" then r.sensorClusterId.value else r.deviceId.GetOr("");
            Target(r) == if first in DESERT_CLUSTERS then first else "cluster-desert-046"
    ensures Sanitized(r) == r.(clusterId := Some(Target(r)), sensorClusterId := Some(Target(r)), deviceId := Some(Target(r)))
  {
  }

  method CollectNode(raw: seq<Request>, now: real) returns (batch: seq<Request>)
    ensures batch == SanitizedAll(raw)[..Min(10, |raw|)]
    ensures batch == SanitizedAll(raw) <==> |raw| <= 10
  {
    var collector := new RequestCollector(10, 2.0);
    for k := 0 to |raw|
      invariant collector.Valid() && collector.returned == [] && fresh(collector) && collector.maxBatchSize == 10
      invariant collector.pending == SanitizedAll(raw)[..k]
    {
      collector.AddRequest(Sanitized(raw[k]), now);
    }
    batch := collector.GetBatch(now);
    assert batch + collector.pending == SanitizedAll(raw);
  }

  lemma {:induction false} FewZones(rs: seq<Request>, allowed: set<string>)
    requires forall r :: r in rs ==> ZoneOf(r) in allowed
    ensures |Zones(rs)| <= |allowed|
  {
    ZonesAreThoseOfTheRequests(rs);
    forall z | z in Zones(rs) ensures z in allowed {
      ZoneMembers(rs, z);
    }
    SetOfDistinct(Zones(rs), allowed);
  }

  lemma {:induction false} ZoneMembers(rs: seq<Request>, z: string)
    requires OfZone(rs, z) != []
    ensures exists r :: r in rs && ZoneOf(r) == z
  {
    var last := rs[|rs| - 1];
    if ZoneOf(last) == z {
      assert last in rs;
    } else {
      ZoneMembers(rs[..|rs| - 1], z);
    }
  }

  lemma {:induction false} SetOfDistinct(zs: seq<string>, allowed: set<string>)
    requires NoDuplicates(zs) && forall z :: z in zs ==> z in allowed
    ensures |zs| <= |allowed|
    decreases |zs|
  {
    if zs != [] {
      SetOfDistinct(zs[1..], allowed - {zs[0]});
    }
  }

  /** What `collect_node` passes on, and its ranking by `rank_node`. */
  function Collected(raw: seq<Request>): seq<Request> {
    SanitizedAll(raw)[..Min(10, |raw|)]
  }

  function Ranking(raw: seq<Request>): seq<Request> {
    RankRequests(SanitizedAll(Collected(raw)))
  }

  lemma RankingOfCollected(raw: seq<Request>)
    ensures Ranked(Ranking(raw)) && multiset(Ranking(raw)) == multiset(Collected(raw))
    ensures forall r :: r in Collected(raw) ==> r in Ranking(raw)
    ensures forall r :: r in Ranking(raw) ==> ZoneOf(r) in DESERT_CLUSTERS
  {
    var collected := Collected(raw);
    forall i | 0 <= i < |collected| ensures SanitizedAll(collected)[i] == collected[i] {
      SanitizingSettles(raw[i]);
    }
    assert SanitizedAll(collected) == collected;
    RankingIsAStableSort(collected);
    forall r | r in Ranking(raw) ensures ZoneOf(r) in DESERT_CLUSTERS {
      assert r in multiset(Ranking(raw));
      var i :| 0 <= i < |collected| && collected[i] == r;
      SanitizingSettles(raw[i]);
    }
    forall r | r in collected ensures r in Ranking(raw) {
      assert r in multiset(collected);
    }
  }

  /** From raw requests to regional groups nothing is lost or repeated exactly up to ten requests. */
  lemma LosslessUpToTen(raw: seq<Request>)
    ensures var ranked := Ranking(raw);
            |raw| <= 10 <==> multiset(Flattened(ranked, Zones(ranked))) == multiset(SanitizedAll(raw))
  {
    var all, ranked := SanitizedAll(raw), Ranking(raw);
    RankingOfCollected(raw);
    GroupsPartition(ranked);
    if |raw| <= 10 {
      assert Collected(raw) == all;
    } else {
      assert |multiset(all)| == |all| && |multiset(Collected(raw))| == 10;
    }
  }

  /** However many requests come, there are at most five groups, and the most urgent one collected heads the first. */
  lemma {:induction false} FewGroupsMostUrgentFirst(raw: seq<Request>)
    ensures |Zones(Ranking(raw))| <= 5
    ensures raw != [] ==> Zones(Ranking(raw)) != [] && OfZone(Ranking(raw), Zones(Ranking(raw))[0]) != []
    ensures forall r :: r in Collected(raw) ==>
              NotAfter(KeyOf(OfZone(Ranking(raw), Zones(Ranking(raw))[0])[0]), KeyOf(r))
  {
    var ranked := Ranking(raw);
    RankingOfCollected(raw);
    FewZones(ranked, DESERT_CLUSTERS);
    if raw != [] {
      assert Collected(raw)[0] in ranked;
      FirstZone(ranked);
      forall r | r in Collected(raw) ensures NotAfter(KeyOf(ranked[0]), KeyOf(r)) {
        var j :| 0 <= j < |ranked| && ranked[j] == r;
      }
    }
  }
}
