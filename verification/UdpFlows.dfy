/** Thinning of network events: which packets of a trace count as the start of a UDP flow, and which
    events are sent on. */
module UdpFlows {
  import opened Strings

  const UDP_FLOW_TTL_NS: u64 := 5_000_000_000
  const NETWORK_DEDUP_TTL_NS: u64 := 60_000_000_000

  datatype UdpFlowKey = UdpFlowKey(ipLow: u32, ipHigh: u32, portLow: u16, portHigh: u16)

  datatype Direction = Ingress | Egress

  datatype NetworkIdentity = NetworkIdentity(srcIp: u32, dstIp: u32, dstPort: u32, direction: Direction)

  function NormalizeUdpKey(srcIp: u32, srcPort: u16, dstIp: u32, dstPort: u16): UdpFlowKey {
    if srcIp < dstIp || (srcIp == dstIp && srcPort <= dstPort) then UdpFlowKey(srcIp, dstIp, srcPort, dstPort)
    else UdpFlowKey(dstIp, srcIp, dstPort, srcPort)
  }

  /** A key identifies exactly the two directions of one flow. */
  lemma KeyIsTheFlow(a: u32, p: u16, b: u32, q: u16, c: u32, r: u16, d: u32, s: u16)
    ensures NormalizeUdpKey(a, p, b, q) == NormalizeUdpKey(c, r, d, s) <==>
            (a == c && p == r && b == d && q == s) || (a == d && p == s && b == c && q == r)
  {
  }

  // ---- one table with expiry times ----

  /** Does `key` count as new at `now`? Absent or past its expiry. */
  predicate Fresh<K(==)>(table: map<K, u64>, key: K, now: u64) { key !in table || now > table[key] }

  /** The table after `key` was seen at `now`. */
  function Seen<K(==)>(table: map<K, u64>, key: K, now: u64, ttl: u64): map<K, u64> {
    if Fresh(table, key, now) then table[key := (now + ttl) % TWO_TO_THE_64] else table
  }

  class NetworkTables {
    var udpFlows: map<UdpFlowKey, u64>
    var eventDedup: map<NetworkIdentity, u64>

    constructor ()
      ensures udpFlows == map[] && eventDedup == map[]
    {
      udpFlows, eventDedup := map[], map[];
    }

    method IsNewUdpFlow(srcIp: u32, srcPort: u16, dstIp: u32, dstPort: u16, now: u64) returns (isNew: bool)
      modifies this`udpFlows
      ensures var key := NormalizeUdpKey(srcIp, srcPort, dstIp, dstPort);
        isNew == Fresh(old(udpFlows), key, now) && udpFlows == Seen(old(udpFlows), key, now, 5_000_000_000)
    {
      var key := NormalizeUdpKey(srcIp, srcPort, dstIp, dstPort);
      var expiry := (now + UDP_FLOW_TTL_NS) % TWO_TO_THE_64;
      if key !in udpFlows {
        udpFlows := udpFlows[key := expiry];
        return true;
      }
      if now > udpFlows[key] {
        udpFlows := udpFlows[key := expiry];
        return true;
      }
      return false;
    }

    /** `sent` tells whether the event is piped to user space. */
    method DeduplicateAndSend(identity: NetworkIdentity, now: u64) returns (sent: bool)
      modifies this`eventDedup
      ensures sent == Fresh(old(eventDedup), identity, now)
      ensures eventDedup == Seen(old(eventDedup), identity, now, 60_000_000_000)
    {
      var expiry := (now + NETWORK_DEDUP_TTL_NS) % TWO_TO_THE_64;
      if identity !in eventDedup {
        eventDedup := eventDedup[identity := expiry];
        return true;
      }
      if now > eventDedup[identity] {
        eventDedup := eventDedup[identity := expiry];
        return true;
      }
      return false;
    }
  }

  // ---- traces ----

  datatype Packet<K> = Packet(key: K, time: u64)

  /** The table after a trace, from an empty one; nothing is evicted. */
  function Table<K(==)>(trace: seq<Packet<K>>, ttl: u64): map<K, u64> {
    if trace == [] then map[]
    else
      var p := trace[|trace| - 1];
      Seen(Table(trace[..|trace| - 1], ttl), p.key, p.time, ttl)
  }

  /** Is the `i`th packet of the trace reported? */
  predicate Reported<K(==)>(trace: seq<Packet<K>>, ttl: u64, i: nat)
    requires i < |trace|
  {
    Fresh(Table(trace[..i], ttl), trace[i].key, trace[i].time)
  }

  /** Times never go back and stay clear of the end of the clock. */
  predicate Clocked<K>(trace: seq<Packet<K>>, ttl: u64) {
    && (forall i, j :: 0 <= i < j < |trace| ==> trace[i].time <= trace[j].time)
    && (forall i :: 0 <= i < |trace| ==> trace[i].time + ttl < TWO_TO_THE_64)
  }

  /** Packet `i` is the last reported one of its key before position `n`. */
  predicate LastReport<K(==)>(trace: seq<Packet<K>>, ttl: u64, key: K, n: nat, i: nat)
    requires i < n <= |trace|
  {
    && trace[i].key == key && Reported(trace, ttl, i)
    && forall j :: i < j < n && trace[j].key == key ==> !Reported(trace, ttl, j)
  }

  lemma TableNext<K(!new)>(trace: seq<Packet<K>>, ttl: u64, n: nat)
    requires 0 < n <= |trace|
    ensures var before, p := Table(trace[..n - 1], ttl), trace[n - 1];
      && Table(trace[..n], ttl) == Seen(before, p.key, p.time, ttl)
      && (Reported(trace, ttl, n - 1) <==> Fresh(before, p.key, p.time))
  {
    assert trace[..n][..n - 1] == trace[..n - 1];
  }

  /** The table holds each key's last report, expired one TTL later. */
  lemma {:induction false} TableHoldsLastReport<K(!new)>(trace: seq<Packet<K>>, ttl: u64, n: nat, key: K)
    requires n <= |trace| && Clocked(trace, ttl)
    ensures key in Table(trace[..n], ttl) <==> exists i :: 0 <= i < n && trace[i].key == key
    ensures key in Table(trace[..n], ttl) ==>
              exists i :: 0 <= i < n && LastReport(trace, ttl, key, n, i) && Table(trace[..n], ttl)[key] == trace[i].time + ttl
    decreases n
  {
    hide Reported;
    if n > 0 {
      hide Table;
      TableNext(trace, ttl, n);
      TableHoldsLastReport(trace, ttl, n - 1, key);
      var before := Table(trace[..n - 1], ttl);
      if trace[n - 1].key == key && Fresh(before, key, trace[n - 1].time) {
        assert LastReport(trace, ttl, key, n, n - 1);
      } else if key in before {
        var i :| 0 <= i < n - 1 && LastReport(trace, ttl, key, n - 1, i) && before[key] == trace[i].time + ttl;
        assert LastReport(trace, ttl, key, n, i);
      }
    }
  }

  /** A packet is reported exactly when every earlier report of its key lies more than the TTL back. So
      reports of one key are more than the TTL apart, and a packet later than that after the last
      report is reported. */
  lemma ReportedExactlyWhen<K(!new)>(trace: seq<Packet<K>>, ttl: u64, i: nat)
    requires i < |trace| && Clocked(trace, ttl)
    ensures Reported(trace, ttl, i) <==>
            forall j :: 0 <= j < i && trace[j].key == trace[i].key && Reported(trace, ttl, j) ==>
              trace[i].time > trace[j].time + ttl
  {
    var key := trace[i].key;
    TableHoldsLastReport(trace, ttl, i, key);
    var table := Table(trace[..i], ttl);
    if key in table {
      var l :| 0 <= l < i && LastReport(trace, ttl, key, i, l) && table[key] == trace[l].time + ttl;
      forall j | 0 <= j < i && trace[j].key == key && Reported(trace, ttl, j)
        ensures trace[j].time <= trace[l].time
      {
        assert j <= l;
      }
    }
  }
}
