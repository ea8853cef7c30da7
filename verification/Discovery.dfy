// The table of verified peers: probe outcomes, goodbyes, pruning, and the published snapshot.
module Discovery {
  import opened Wrappers
  import opened Text

  const MAX_DISCOVERED_PEERS: nat := 256
  const MAX_PENDING_PROBES: nat := 16
  const U8_MAX: nat := 255

  // An IP address is its canonical text; `port` goes with it to make a socket address.
  datatype Address = Address(ip: string, port: nat)

  datatype CandidateKey = CandidateKey(instanceId: string, address: Address, fingerprint: string)

  datatype Candidate = Candidate(key: CandidateKey, serviceName: string, replyPort: Option<nat>)

  datatype VerifiedPeer = VerifiedPeer(
    instanceId: string, name: string, address: Address, capabilities: seq<string>, fingerprint: string,
    publicKey: string)

  datatype ProbeResult = Verified(peer: VerifiedPeer) | Cancelled | Failed

  datatype ProbeOutcome = ProbeOutcome(candidate: Candidate, result: ProbeResult)

  datatype Peer = Peer(
    instanceId: string, name: string, host: string, hosts: seq<string>, port: nat, capabilities: seq<string>,
    fingerprint: string, publicKey: string, serviceName: string)

  datatype Record = Record(peer: Peer, lastVerified: nat, failures: map<Address, nat>, farewelled: bool)

  type Table = map<string, Record>

  // ---------- what has happened ----------

  // Probe outcomes that concern an address of an instance.
  datatype Event =
    | AddressFailed(instanceId: string, address: Address) | AddressVerified(instanceId: string, address: Address)

  // How often probes of the address have failed since it was last verified.
  ghost function FailuresSince(events: seq<Event>, id: string, address: Address): nat {
    if events == [] then 0
    else
      var last, before := events[|events| - 1], events[..|events| - 1];
      if last == AddressVerified(id, address) then 0
      else FailuresSince(before, id, address) + (if last == AddressFailed(id, address) then 1 else 0)
  }

  lemma SinceMore(events: seq<Event>, e: Event, id: string, address: Address)
    ensures FailuresSince(events + [e], id, address)
         == if e == AddressVerified(id, address) then 0
            else FailuresSince(events, id, address) + (if e == AddressFailed(id, address) then 1 else 0)
  {
    assert (events + [e])[..|events|] == events;
  }

  function FailuresOf(record: Record, address: Address): nat {
    if address in record.failures then record.failures[address] else 0
  }

  // ---------- invariants ----------

  ghost predicate SortedHosts(hosts: seq<string>) {
    forall i, j :: 0 <= i < j < |hosts| ==> Less(hosts[i], hosts[j])
  }

  ghost predicate RecordOk(id: string, record: Record, events: seq<Event>) {
    && record.peer.instanceId == id
    && SortedHosts(record.peer.hosts) && record.peer.host in record.peer.hosts
    && CountersOk(id, record, events)
  }

  // A counter never claims more failures than there were.
  ghost predicate CountersOk(id: string, record: Record, events: seq<Event>) {
    forall address :: address in record.failures ==> record.failures[address] <= FailuresSince(events, id, address)
  }

  ghost predicate TableOk(records: Table, events: seq<Event>) {
    && |records| <= MAX_DISCOVERED_PEERS
    && forall id :: id in records ==> RecordOk(id, records[id], events)
  }

  // What the interface shows of the table.
  ghost function PeersOf(records: Table): map<string, Peer> {
    map id | id in records :: records[id].peer
  }

  lemma PeersUpdated(records: Table, id: string, record: Record)
    ensures PeersOf(records[id := record]) == PeersOf(records) <==> id in records && records[id].peer == record.peer
  {
    var before, after := PeersOf(records), PeersOf(records[id := record]);
    assert id in after && after[id] == record.peer;
  }

  lemma PeersRemoved(records: Table, id: string)
    requires id in records
    ensures PeersOf(records - {id}) != PeersOf(records)
  {
    assert id in PeersOf(records) && id !in PeersOf(records - {id});
  }

  // ---------- sorted hosts ----------

  // Pushing and sorting, on a list that is sorted already.
  function InsertHost(hosts: seq<string>, host: string): (r: seq<string>)
    ensures forall h :: h in r <==> h in hosts || h == host
  {
    if hosts == [] then [host]
    else if Less(host, hosts[0]) then [host] + hosts
    else
      assert hosts == [hosts[0]] + hosts[1..];
      [hosts[0]] + InsertHost(hosts[1..], host)
  }

  lemma {:induction false} InsertSorted(hosts: seq<string>, host: string)
    requires SortedHosts(hosts) && host !in hosts
    ensures SortedHosts(InsertHost(hosts, host))
  {
    if hosts != [] {
      var rest := hosts[1..];
      assert hosts == [hosts[0]] + rest;
      LessTotal(host, hosts[0]);
      if Less(host, hosts[0]) {
        var r := [host] + hosts;
        forall i, j | 0 <= i < j < |r| ensures Less(r[i], r[j]) {
          if i == 0 && j > 1 {
            LessTrans(host, hosts[0], hosts[j - 1]);
          }
        }
      } else {
        InsertSorted(rest, host);
        var tail := InsertHost(rest, host);
        forall k | 0 <= k < |tail| ensures Less(hosts[0], tail[k]) {
          assert tail[k] in tail;
          if tail[k] != host {
            var m :| 0 <= m < |rest| && rest[m] == tail[k];
            assert hosts[m + 1] == tail[k];
          }
        }
      }
    }
  }

  // ---------- one outcome ----------

  predicate SameIdentity(peer: Peer, verified: VerifiedPeer) {
    peer.fingerprint == verified.fingerprint && peer.publicKey == verified.publicKey
  }

  // A verified address of a known record.
  function Refreshed(record: Record, verified: VerifiedPeer, now: nat): Record {
    var host := verified.address.ip;
    var hosts := if host in record.peer.hosts then record.peer.hosts else InsertHost(record.peer.hosts, host);
    Record(record.peer.(hosts := hosts, host := host, port := verified.address.port, name := verified.name,
                        capabilities := verified.capabilities),
           now, record.failures - {verified.address}, false)
  }

  function NewRecord(verified: VerifiedPeer, serviceName: string, now: nat): Record {
    Record(Peer(verified.instanceId, verified.name, verified.address.ip, [verified.address.ip], verified.address.port,
                verified.capabilities, verified.fingerprint, verified.publicKey, serviceName),
           now, map[], false)
  }

  // A failed probe of an address the record still has, under the identity it has.
  predicate Concerns(record: Record, key: CandidateKey) {
    && record.peer.fingerprint == key.fingerprint && record.peer.port == key.address.port
    && key.address.ip in record.peer.hosts
  }

  predicate Counts(records: Table, key: CandidateKey) {
    key.instanceId in records && Concerns(records[key.instanceId], key)
  }

  // What a failed probe adds to what has happened: nothing, unless it concerns a record.
  function FailureEvents(records: Table, key: CandidateKey): seq<Event> {
    if Counts(records, key) then [AddressFailed(key.instanceId, key.address)] else []
  }

  function Counted(record: Record, address: Address): Record {
    var n := FailuresOf(record, address);
    record.(failures := record.failures[address := if n < U8_MAX then n + 1 else U8_MAX])
  }

  predicate EveryHostFailed(record: Record, times: nat) {
    forall i :: 0 <= i < |record.peer.hosts| ==>
      FailuresOf(record, Address(record.peer.hosts[i], record.peer.port)) >= times
  }

  function Threshold(record: Record, maxFailures: nat): nat {
    if record.farewelled then 1 else maxFailures
  }

  lemma RefreshedOk(id: string, record: Record, events: seq<Event>, verified: VerifiedPeer, now: nat)
    requires RecordOk(id, record, events)
    ensures RecordOk(id, Refreshed(record, verified, now), events + [AddressVerified(id, verified.address)])
  {
    var host, e := verified.address.ip, AddressVerified(id, verified.address);
    if host !in record.peer.hosts {
      InsertSorted(record.peer.hosts, host);
    }
    forall a | a in record.failures && a != verified.address
      ensures FailuresSince(events + [e], id, a) == FailuresSince(events, id, a)
    {
      SinceMore(events, e, id, a);
    }
  }

  lemma CountedOk(id: string, record: Record, events: seq<Event>, address: Address)
    requires RecordOk(id, record, events)
    ensures RecordOk(id, Counted(record, address), events + [AddressFailed(id, address)])
  {
    forall a ensures FailuresSince(events + [AddressFailed(id, address)], id, a)
                  == FailuresSince(events, id, a) + (if a == address then 1 else 0)
    {
      SinceMore(events, AddressFailed(id, address), id, a);
    }
  }

  // What happens to an address of one instance does not concern the others, nor does one more
  // failure lower any count.
  lemma OthersOk(id: string, record: Record, events: seq<Event>, e: Event)
    requires RecordOk(id, record, events) && (e.AddressVerified? ==> e.instanceId != id)
    ensures RecordOk(id, record, events + [e])
  {
    forall a ensures FailuresSince(events + [e], id, a) >= FailuresSince(events, id, a) {
      SinceMore(events, e, id, a);
    }
  }

  // Every host of a removed record had really failed that often since it was last verified.
  ghost predicate ReallyFailed(id: string, record: Record, events: seq<Event>, times: nat) {
    forall i :: 0 <= i < |record.peer.hosts| ==>
      FailuresSince(events, id, Address(record.peer.hosts[i], record.peer.port)) >= times
  }

  lemma EveryHostReallyFailed(id: string, record: Record, events: seq<Event>, times: nat)
    requires RecordOk(id, record, events) && EveryHostFailed(record, times)
    ensures ReallyFailed(id, record, events, times)
  {
    forall i | 0 <= i < |record.peer.hosts|
      ensures FailuresSince(events, id, Address(record.peer.hosts[i], record.peer.port)) >= times
    {
      assert FailuresOf(record, Address(record.peer.hosts[i], record.peer.port)) >= times;
    }
  }

  lemma TableMore(records: Table, events: seq<Event>, e: Event, id: string, record: Record)
    requires TableOk(records, events) && (id in records || |records| < MAX_DISCOVERED_PEERS)
    requires e.instanceId == id && RecordOk(id, record, events + [e])
    ensures TableOk(records[id := record], events + [e])
  {
    forall other | other in records && other != id ensures RecordOk(other, records[other], events + [e]) {
      OthersOk(other, records[other], events, e);
    }
    if id in records {
      assert records[id := record].Keys == records.Keys;
      assert |records[id := record]| == |records[id := record].Keys| == |records.Keys|;
    } else {
      assert records[id := record].Keys == records.Keys + {id};
    }
  }

  lemma TableLess(records: Table, events: seq<Event>, e: Event, id: string)
    requires TableOk(records, events) && e.AddressFailed?
    ensures TableOk(records - {id}, events + [e])
  {
    forall other | other in records ensures RecordOk(other, records[other], events + [e]) {
      OthersOk(other, records[other], events, e);
    }
    FewerRecords(records, records - {id});
  }

  // The table after a failed probe.
  function AfterFailure(records: Table, key: CandidateKey, maxFailures: nat): Table {
    var id := key.instanceId;
    if Counts(records, key) then
      var record := Counted(records[id], key.address);
      if EveryHostFailed(record, Threshold(record, maxFailures)) then records - {id} else records[id := record]
    else records
  }

  // A success counts under the identity the record has, or for a new record while there is room.
  predicate Accepts(records: Table, verified: VerifiedPeer) {
    if verified.instanceId in records then SameIdentity(records[verified.instanceId].peer, verified)
    else |records| < MAX_DISCOVERED_PEERS
  }

  // The table after a successful probe.
  function AfterVerified(records: Table, verified: VerifiedPeer, serviceName: string, now: nat): Table {
    var id := verified.instanceId;
    if !Accepts(records, verified) then records
    else
      records[id := if id in records then Refreshed(records[id], verified, now)
                    else NewRecord(verified, serviceName, now)]
  }

  function AfterOutcome(records: Table, outcome: ProbeOutcome, now: nat, maxFailures: nat): Table {
    match outcome.result
    case Verified(verified) => AfterVerified(records, verified, outcome.candidate.serviceName, now)
    case Cancelled => records
    case Failed => AfterFailure(records, outcome.candidate.key, maxFailures)
  }

  // A goodbye is heard only from one of the record's own addresses, under its own fingerprint and port.
  predicate Heard(records: Table, id: string, fingerprint: string, port: nat, sender: string) {
    && id in records && records[id].peer.fingerprint == fingerprint && records[id].peer.port == port
    && sender in records[id].peer.hosts
  }

  function AfterGoodbye(records: Table, id: string, fingerprint: string, port: nat, sender: string): Table {
    if Heard(records, id, fingerprint, port, sender) then records[id := records[id].(farewelled := true)] else records
  }

  function Unexpired(records: Table, now: nat, staleAfter: nat): Table {
    map id | id in records && now - records[id].lastVerified < staleAfter :: records[id]
  }

  function AfterTurn(records: Table, event: LoopEvent, maxFailures: nat): Table {
    match event
    case ProbeDone(outcome, now) => AfterOutcome(records, outcome, now, maxFailures)
    case Goodbye(id, fingerprint, port, sender) => AfterGoodbye(records, id, fingerprint, port, sender)
    case PruneTick(now, staleAfter) => Unexpired(records, now, staleAfter)
    case SocketDied => map[]
  }

  lemma AfterVerifiedOk(records: Table, events: seq<Event>, verified: VerifiedPeer, serviceName: string, now: nat)
    requires TableOk(records, events) && Accepts(records, verified)
    ensures var id, after := verified.instanceId, AfterVerified(records, verified, serviceName, now);
      && TableOk(after, events + [AddressVerified(id, verified.address)]) && KeepsIdentities(records, after)
      && (PeersOf(after) == PeersOf(records) <==> id in records && records[id].peer == after[id].peer)
  {
    var id, e := verified.instanceId, AddressVerified(verified.instanceId, verified.address);
    var record := if id in records then Refreshed(records[id], verified, now)
                  else NewRecord(verified, serviceName, now);
    if id in records {
      RefreshedOk(id, records[id], events, verified, now);
    }
    TableMore(records, events, e, id, record);
    PeersUpdated(records, id, record);
  }

  // An accepted success forgives the address's failures and any goodbye, makes it the current
  // address, and costs the record none of its other addresses.
  lemma VerifiedHeals(records: Table, verified: VerifiedPeer, serviceName: string, now: nat)
    requires Accepts(records, verified)
    ensures var id, after := verified.instanceId, AfterVerified(records, verified, serviceName, now);
      && id in after && !after[id].farewelled && after[id].lastVerified == now
      && FailuresOf(after[id], verified.address) == 0
      && after[id].peer.host == verified.address.ip && after[id].peer.port == verified.address.port
      && (forall host :: host in after[id].peer.hosts <==>
          host == verified.address.ip || (id in records && host in records[id].peer.hosts))
      && (forall a :: id in records && a != verified.address ==> FailuresOf(after[id], a) == FailuresOf(records[id], a))
      && (forall other :: other != id ==>
           (other in after <==> other in records) && (other in records ==> after[other] == records[other]))
  {
  }

  // Among the failing probes, exactly those that concern the record and bring the last of its
  // addresses to the threshold remove it.
  lemma EvictsExactly(records: Table, outcome: ProbeOutcome, now: nat, maxFailures: nat, id: string)
    requires id in records && maxFailures <= U8_MAX
    ensures id !in AfterOutcome(records, outcome, now, maxFailures) <==>
      && outcome.result.Failed? && outcome.candidate.key.instanceId == id && Counts(records, outcome.candidate.key)
      && LastStraw(records[id], outcome.candidate.key.address, Threshold(records[id], maxFailures))
  {
    var record, address := records[id], outcome.candidate.key.address;
    var times, counted := Threshold(record, maxFailures), Counted(record, address);
    assert forall a :: FailuresOf(counted, a) >= times <==>
      FailuresOf(record, a) + (if a == address then 1 else 0) >= times;
    if LastStraw(record, address, times) {
      forall i | 0 <= i < |counted.peer.hosts|
        ensures FailuresOf(counted, Address(counted.peer.hosts[i], counted.peer.port)) >= times
      {
        assert FailuresOf(record, Address(record.peer.hosts[i], record.peer.port))
          + (if Address(record.peer.hosts[i], record.peer.port) == address then 1 else 0) >= times;
      }
    }
    if EveryHostFailed(counted, times) {
      forall i | 0 <= i < |record.peer.hosts|
        ensures FailuresOf(record, Address(record.peer.hosts[i], record.peer.port))
          + (if Address(record.peer.hosts[i], record.peer.port) == address then 1 else 0) >= times
      {
        assert FailuresOf(counted, Address(counted.peer.hosts[i], counted.peer.port)) >= times;
      }
    }
  }

  // With one more failure of `address`, every address of the record has failed that often.
  predicate LastStraw(record: Record, address: Address, times: nat) {
    forall i :: 0 <= i < |record.peer.hosts| ==>
      FailuresOf(record, Address(record.peer.hosts[i], record.peer.port))
        + (if Address(record.peer.hosts[i], record.peer.port) == address then 1 else 0) >= times
  }

  // At most the one record goes, and only after enough real failures.
  ghost predicate OnlyEvicts(before: Table, after: Table, events: seq<Event>, id: string, maxFailures: nat) {
    || after.Keys == before.Keys
    || (id in before && after.Keys == before.Keys - {id}
        && ReallyFailed(id, before[id], events, Threshold(before[id], maxFailures)))
  }

  lemma AfterFailureOk(records: Table, events: seq<Event>, key: CandidateKey, maxFailures: nat)
    requires TableOk(records, events)
    ensures var after, since := AfterFailure(records, key, maxFailures), events + FailureEvents(records, key);
      && TableOk(after, since) && KeepsIdentities(records, after)
      && OnlyEvicts(records, after, since, key.instanceId, maxFailures) && SamePeers(records, after)
      && (PeersOf(after) == PeersOf(records) <==> after.Keys == records.Keys)
  {
    if Counts(records, key) {
      TableLess(records, events, AddressFailed(key.instanceId, key.address), key.instanceId);
      CountedTableOk(records, events, key, maxFailures);
    } else {
      assert events + FailureEvents(records, key) == events;
    }
  }

  lemma CountedTableOk(records: Table, events: seq<Event>, key: CandidateKey, maxFailures: nat)
    requires TableOk(records, events) && key.instanceId in records
    ensures var id, e := key.instanceId, AddressFailed(key.instanceId, key.address);
            var record := Counted(records[id], key.address);
      && TableOk(records[id := record], events + [e]) && PeersOf(records[id := record]) == PeersOf(records)
      && PeersOf(records - {id}) != PeersOf(records)
      && (EveryHostFailed(record, Threshold(record, maxFailures)) ==>
        ReallyFailed(id, records[id], events + [e], Threshold(records[id], maxFailures)))
  {
    var id, e := key.instanceId, AddressFailed(key.instanceId, key.address);
    var record := Counted(records[id], key.address);
    CountedOk(id, records[id], events, key.address);
    if EveryHostFailed(record, Threshold(record, maxFailures)) {
      EveryHostReallyFailed(id, record, events + [e], Threshold(record, maxFailures));
    }
    TableMore(records, events, e, id, record);
    PeersUpdated(records, id, record);
    PeersRemoved(records, id);
  }

  lemma FewerRecords(records: Table, fewer: Table)
    requires fewer.Keys <= records.Keys
    ensures |fewer| <= |records|
  {
    assert |records.Keys - fewer.Keys| == |records.Keys| - |fewer.Keys|;
  }

  // ---------- the snapshot ----------

  type Lowercase = string -> string

  predicate PeerLess(a: Peer, b: Peer, lower: Lowercase) {
    Less(lower(a.name), lower(b.name)) || (lower(a.name) == lower(b.name) && Less(a.instanceId, b.instanceId))
  }

  ghost predicate SortedPeers(peers: seq<Peer>, lower: Lowercase) {
    forall i, j :: 0 <= i < j < |peers| ==> PeerLess(peers[i], peers[j], lower)
  }

  // Exactly the peers of the table, by lower-cased name and then by instance id.
  ghost predicate SnapshotOf(peers: seq<Peer>, shown: map<string, Peer>, lower: Lowercase) {
    && SortedPeers(peers, lower)
    && forall p :: p in peers <==> p.instanceId in shown && shown[p.instanceId] == p
  }

  lemma PeerLessTrans(a: Peer, b: Peer, c: Peer, lower: Lowercase)
    requires PeerLess(a, b, lower) && PeerLess(b, c, lower)
    ensures PeerLess(a, c, lower)
  {
    if Less(lower(a.name), lower(b.name)) && Less(lower(b.name), lower(c.name)) {
      LessTrans(lower(a.name), lower(b.name), lower(c.name));
    } else if lower(a.name) == lower(b.name) == lower(c.name) {
      LessTrans(a.instanceId, b.instanceId, c.instanceId);
    }
  }

  lemma PeerLessTotal(a: Peer, b: Peer, lower: Lowercase)
    ensures a.instanceId == b.instanceId || PeerLess(a, b, lower) || PeerLess(b, a, lower)
    ensures !(PeerLess(a, b, lower) && PeerLess(b, a, lower))
  {
    LessTotal(lower(a.name), lower(b.name));
    LessTotal(a.instanceId, b.instanceId);
  }

  function InsertPeer(peers: seq<Peer>, p: Peer, lower: Lowercase): (r: seq<Peer>)
    ensures forall q :: q in r <==> q in peers || q == p
  {
    if peers == [] then [p]
    else if PeerLess(p, peers[0], lower) then [p] + peers
    else
      assert peers == [peers[0]] + peers[1..];
      [peers[0]] + InsertPeer(peers[1..], p, lower)
  }

  lemma {:induction false} InsertPeerSorted(peers: seq<Peer>, p: Peer, lower: Lowercase)
    requires SortedPeers(peers, lower) && forall q :: q in peers ==> q.instanceId != p.instanceId
    ensures SortedPeers(InsertPeer(peers, p, lower), lower)
  {
    if peers != [] {
      var rest := peers[1..];
      assert peers == [peers[0]] + rest;
      PeerLessTotal(p, peers[0], lower);
      if PeerLess(p, peers[0], lower) {
        var r := [p] + peers;
        forall i, j | 0 <= i < j < |r| ensures PeerLess(r[i], r[j], lower) {
          if i == 0 && j > 1 {
            PeerLessTrans(p, peers[0], peers[j - 1], lower);
          }
        }
      } else {
        InsertPeerSorted(rest, p, lower);
        var tail := InsertPeer(rest, p, lower);
        forall k | 0 <= k < |tail| ensures PeerLess(peers[0], tail[k], lower) {
          assert tail[k] in tail;
          if tail[k] != p {
            var m :| 0 <= m < |rest| && rest[m] == tail[k];
            assert peers[m + 1] == tail[k];
          }
        }
      }
    }
  }

  // A table has one snapshot, whatever order its records come in.
  lemma {:induction false} SnapshotUnique(a: seq<Peer>, b: seq<Peer>, lower: Lowercase)
    requires SortedPeers(a, lower) && SortedPeers(b, lower) && forall p :: p in a <==> p in b
    ensures a == b
  {
    assert b != [] ==> b[0] in a;
    if a != [] {
      assert a[0] in b;
      PeerLessTotal(a[0], b[0], lower);
      assert a[0] == b[0];
      RestOfSorted(a, lower);
      RestOfSorted(b, lower);
      SnapshotUnique(a[1..], b[1..], lower);
    }
  }

  lemma RestOfSorted(a: seq<Peer>, lower: Lowercase)
    requires SortedPeers(a, lower) && a != []
    ensures forall p :: p in a[1..] <==> p in a && p != a[0]
  {
    forall p | p in a[1..] ensures p in a && p != a[0] {
      var k :| 1 <= k < |a| && a[k] == p;
      PeerLessTotal(a[0], p, lower);
    }
    assert a == [a[0]] + a[1..];
  }

  // ---------- the table ----------

  class PeerTable {
    const lower: Lowercase
    const maxFailures: nat
    var records: Table
    var published: seq<Peer>
    ghost var events: seq<Event>

    ghost predicate Valid()
      reads this
    {
      TableOk(records, events)
    }

    // What is published is what the table holds.
    ghost predicate Shown()
      reads this
    {
      SnapshotOf(published, PeersOf(records), lower)
    }

    constructor (lower: Lowercase, maxFailures: nat)
      ensures Valid() && Shown() && records == map[] && events == []
    {
      this.lower, this.maxFailures := lower, maxFailures;
      records, published, events := map[], [], [];
    }

    method ApplyProbeOutcome(outcome: ProbeOutcome, now: nat) returns (changed: bool)
      requires Valid()
      modifies this`records, this`events
      ensures Valid()
      ensures changed <==> PeersOf(records) != old(PeersOf(records))
      ensures Evicted(old(records), records, events, outcome, maxFailures)
      ensures KeepsIdentities(old(records), records)
      ensures records == AfterOutcome(old(records), outcome, now, maxFailures)
      ensures EventRecorded(old(records), old(events), events, outcome)
      ensures !outcome.result.Verified? ==> SamePeers(old(records), records)
    {
      var key := outcome.candidate.key;
      match outcome.result {
        case Verified(verified) =>
          changed := ApplyVerified(verified, outcome.candidate.serviceName, now);
        case Cancelled =>
          changed := false;
        case Failed =>
          changed := ApplyFailure(key);
      }
    }

    method ApplyVerified(verified: VerifiedPeer, serviceName: string, now: nat) returns (changed: bool)
      requires Valid()
      modifies this`records, this`events
      ensures Valid()
      ensures changed <==> PeersOf(records) != old(PeersOf(records))
      ensures old(records).Keys <= records.Keys && KeepsIdentities(old(records), records)
      ensures records == AfterVerified(old(records), verified, serviceName, now)
      ensures events == if Accepts(old(records), verified)
                        then old(events) + [AddressVerified(verified.instanceId, verified.address)]
                        else old(events)
    {
      var id := verified.instanceId;
      changed := false;
      if Accepts(records, verified) {
        AfterVerifiedOk(records, events, verified, serviceName, now);
        var record := if id in records then Refreshed(records[id], verified, now)
                      else NewRecord(verified, serviceName, now);
        changed := id in records ==> record.peer != records[id].peer;
        records, events := records[id := record], events + [AddressVerified(id, verified.address)];
      }
    }

    method ApplyFailure(key: CandidateKey) returns (changed: bool)
      requires Valid()
      modifies this`records, this`events
      ensures Valid()
      ensures changed <==> PeersOf(records) != old(PeersOf(records))
      ensures records == AfterFailure(old(records), key, maxFailures)
      ensures events == old(events) + FailureEvents(old(records), key)
      ensures KeepsIdentities(old(records), records)
      ensures OnlyEvicts(old(records), records, events, key.instanceId, maxFailures) && SamePeers(old(records), records)
    {
      var next := AfterFailure(records, key, maxFailures);
      AfterFailureOk(records, events, key, maxFailures);
      changed := key.instanceId in records && key.instanceId !in next;
      events := events + FailureEvents(records, key);
      records := next;
    }

    // An unauthenticated goodbye removes nothing: it only lowers the number of failures it takes.
    method DemoteGoodbye(id: string, fingerprint: string, port: nat, sender: string)
      returns (candidates: seq<Candidate>)
      requires Valid()
      modifies this`records
      ensures Valid() && PeersOf(records) == old(PeersOf(records))
      ensures records == AfterGoodbye(old(records), id, fingerprint, port, sender)
      ensures candidates == if Heard(old(records), id, fingerprint, port, sender) then CandidatesOf(records[id]) else []
    {
      candidates := [];
      if Heard(records, id, fingerprint, port, sender) {
        var record := records[id].(farewelled := true);
        PeersUpdated(records, id, record);
        FarewellOk(records, events, id);
        records := records[id := record];
        candidates := CandidatesOf(record);
      }
    }

    // Pruning by age, with the time of day as it may be.
    method Prune(now: nat, staleAfter: nat) returns (changed: bool)
      requires Valid()
      modifies this`records
      ensures Valid()
      ensures records == Unexpired(old(records), now, staleAfter)
      ensures changed <==> PeersOf(records) != old(PeersOf(records))
    {
      var kept := map id | id in records && now - records[id].lastVerified < staleAfter :: records[id];
      changed := |kept| != |records|;
      FewerRecords(records, kept);
      if !changed {
        SubsetOfEqualSize(kept.Keys, records.Keys);
        assert kept == records;
      } else {
        assert records.Keys <= kept.Keys ==> records.Keys == kept.Keys;
        var gone :| gone in records && gone !in kept;
        assert gone in PeersOf(records) && gone !in PeersOf(kept);
      }
      records := kept;
    }

    method Publish()
      requires Valid()
      modifies this`published
      ensures Shown()
    {
      var peers: seq<Peer> := [];
      var left := records.Keys;
      while left != {}
        invariant left <= records.Keys
        invariant SortedPeers(peers, lower)
        invariant forall p :: p in peers <==> p.instanceId in records.Keys - left && records[p.instanceId].peer == p
        decreases left
      {
        var id :| id in left;
        var p := records[id].peer;
        assert RecordOk(id, records[id], events);
        InsertPeerSorted(peers, p, lower);
        peers := InsertPeer(peers, p, lower);
        left := left - {id};
      }
      published := peers;
    }

    // One turn of the discovery loop, as far as the table is concerned. After each of them the
    // published list is the sorted projection of the table.
    method Turn(event: LoopEvent)
      requires Valid() && Shown()
      modifies this
      ensures Valid() && Shown()
      ensures KeepsIdentities(old(records), records)
      ensures records == AfterTurn(old(records), event, maxFailures)
      ensures event.ProbeDone? ==> Evicted(old(records), records, events, event.outcome, maxFailures)
      ensures event.ProbeDone? ==> EventRecorded(old(records), old(events), events, event.outcome)
      ensures !event.ProbeDone? ==> events == old(events)
      ensures event.Goodbye? || (event.ProbeDone? && !event.outcome.result.Verified?) ==>
        SamePeers(old(records), records)
    {
      match event {
        case ProbeDone(outcome, now) =>
          var changed := ApplyProbeOutcome(outcome, now);
          if changed {
            Publish();
          }
        case Goodbye(id, fingerprint, port, sender) =>
          var candidates := DemoteGoodbye(id, fingerprint, port, sender);
          assert records.Keys == PeersOf(records).Keys;
        case PruneTick(now, staleAfter) =>
          var changed := Prune(now, staleAfter);
          if changed {
            Publish();
          }
        case SocketDied =>
          if records != map[] {
            records := map[];
            Publish();
          }
      }
    }
  }

  datatype LoopEvent =
    | ProbeDone(outcome: ProbeOutcome, now: nat)
    | Goodbye(id: string, fingerprint: string, port: nat, sender: string)
    | PruneTick(now: nat, staleAfter: nat)
    | SocketDied

  lemma FarewellOk(records: Table, events: seq<Event>, id: string)
    requires TableOk(records, events) && id in records
    ensures TableOk(records[id := records[id].(farewelled := true)], events)
  {
    var next := records[id := records[id].(farewelled := true)];
    assert next.Keys == records.Keys;
    FewerRecords(records, next);
    assert RecordOk(id, records[id], events);
  }

  // The addresses at which a record is to be probed again.
  function CandidatesOf(record: Record): (r: seq<Candidate>)
    ensures |r| == |record.peer.hosts| || (record.peer.hosts == [] && |r| == 1)
    ensures forall i :: 0 <= i < |record.peer.hosts| ==>
      r[i].key == CandidateKey(record.peer.instanceId, Address(record.peer.hosts[i], record.peer.port),
                               record.peer.fingerprint)
  {
    var hosts := if record.peer.hosts == [] then [record.peer.host] else record.peer.hosts;
    seq(|hosts|, i requires 0 <= i < |hosts| =>
      Candidate(CandidateKey(record.peer.instanceId, Address(hosts[i], record.peer.port), record.peer.fingerprint),
                record.peer.serviceName, None))
  }

  // No record ever changes the identity it was verified under.
  ghost predicate KeepsIdentities(before: Table, after: Table) {
    forall id :: id in before && id in after ==>
      after[id].peer.fingerprint == before[id].peer.fingerprint && after[id].peer.publicKey == before[id].peer.publicKey
  }

  // Nothing shown of the records that stay has changed.
  ghost predicate SamePeers(before: Table, after: Table) {
    forall id :: id in before && id in after ==> after[id].peer == before[id].peer
  }

  // A record goes only with a failing probe of its own, when every host it has, at the port it has,
  // had failed often enough since it was last verified.
  ghost predicate Evicted(before: Table, after: Table, events: seq<Event>, outcome: ProbeOutcome, maxFailures: nat) {
    forall id :: id in before && id !in after ==>
      && outcome.result == Failed && outcome.candidate.key.instanceId == id
      && ReallyFailed(id, before[id], events, Threshold(before[id], maxFailures))
  }

  ghost predicate EventRecorded(records: Table, before: seq<Event>, after: seq<Event>, outcome: ProbeOutcome) {
    var key := outcome.candidate.key;
    match outcome.result
    case Cancelled => after == before
    case Failed => after == before + FailureEvents(records, key)
    case Verified(v) =>
      after == if Accepts(records, v) then before + [AddressVerified(v.instanceId, v.address)] else before
  }

  // ---------- survival ----------

  // Goodbyes, successes of other instances or at `spared`, and failures that are not of `spared`
  // under the record's own fingerprint.
  ghost predicate Spares(event: LoopEvent, id: string, fingerprint: string, spared: Address) {
    match event
    case Goodbye(_, _, _, _) => true
    case ProbeDone(outcome, _) => SparedBy(outcome, id, fingerprint, spared)
    case _ => false
  }

  predicate SparedBy(outcome: ProbeOutcome, id: string, fingerprint: string, spared: Address) {
    match outcome.result
    case Verified(v) => v.instanceId != id || v.address == spared
    case Cancelled => true
    case Failed => outcome.candidate.key != CandidateKey(id, spared, fingerprint)
  }

  // The record is there, and one of its addresses has not failed since it was last verified.
  ghost predicate SparedIn(records: Table, events: seq<Event>, id: string, fingerprint: string, spared: Address) {
    && id in records && records[id].peer.fingerprint == fingerprint
    && spared.port == records[id].peer.port && spared.ip in records[id].peer.hosts
    && FailuresSince(events, id, spared) == 0
  }

  ghost predicate Reachable(table: PeerTable, id: string, fingerprint: string, spared: Address)
    reads table
  {
    SparedIn(table.records, table.events, id, fingerprint, spared)
  }

  lemma SparedStays(before: Table, after: Table, past: seq<Event>, events: seq<Event>, outcome: ProbeOutcome, now: nat,
                    id: string, fingerprint: string, spared: Address, maxFailures: nat)
    requires SparedIn(before, past, id, fingerprint, spared) && SparedBy(outcome, id, fingerprint, spared)
             && maxFailures > 0
    requires Evicted(before, after, events, outcome, maxFailures) && EventRecorded(before, past, events, outcome)
    requires after == AfterOutcome(before, outcome, now, maxFailures) && KeepsIdentities(before, after)
    ensures SparedIn(after, events, id, fingerprint, spared)
  {
    var key := outcome.candidate.key;
    if outcome.result.Verified? && Accepts(before, outcome.result.peer) {
      VerifiedSpares(before, past, outcome.result.peer, outcome.candidate.serviceName, now, id, fingerprint, spared);
    } else if outcome.result.Failed? && Counts(before, key) {
      SinceMore(past, AddressFailed(key.instanceId, key.address), id, spared);
    }
    assert past + [] == past;
    var i :| 0 <= i < |before[id].peer.hosts| && before[id].peer.hosts[i] == spared.ip;
    assert spared == Address(before[id].peer.hosts[i], before[id].peer.port);
  }

  lemma VerifiedSpares(before: Table, past: seq<Event>, v: VerifiedPeer, serviceName: string, now: nat,
                       id: string, fingerprint: string, spared: Address)
    requires SparedIn(before, past, id, fingerprint, spared) && Accepts(before, v)
             && (v.instanceId != id || v.address == spared)
    ensures SparedIn(AfterVerified(before, v, serviceName, now), past + [AddressVerified(v.instanceId, v.address)], id,
                     fingerprint, spared)
  {
    VerifiedHeals(before, v, serviceName, now);
    SinceMore(past, AddressVerified(v.instanceId, v.address), id, spared);
  }

  // A peer with one such address survives any number of goodbyes, of other failures, and of
  // failures of that very address under any other fingerprint.
  method Survive(table: PeerTable, events: seq<LoopEvent>, id: string, ghost fingerprint: string, spared: Address)
    requires table.Valid() && table.Shown() && table.maxFailures > 0 && Reachable(table, id, fingerprint, spared)
    requires forall i :: 0 <= i < |events| ==> Spares(events[i], id, fingerprint, spared)
    modifies table
    ensures table.Valid() && table.Shown() && Reachable(table, id, fingerprint, spared)
  {
    for i := 0 to |events|
      invariant table.Valid() && table.Shown() && Reachable(table, id, fingerprint, spared)
    {
      SurviveTurn(table, events[i], id, fingerprint, spared);
    }
  }

  method SurviveTurn(table: PeerTable, event: LoopEvent, id: string, ghost fingerprint: string, spared: Address)
    requires table.Valid() && table.Shown() && table.maxFailures > 0 && Reachable(table, id, fingerprint, spared)
    requires Spares(event, id, fingerprint, spared)
    modifies table
    ensures table.Valid() && table.Shown() && Reachable(table, id, fingerprint, spared)
  {
    ghost var before, past := table.records, table.events;
    table.Turn(event);
    if event.ProbeDone? {
      SparedStays(before, table.records, past, table.events, event.outcome, event.now, id, fingerprint, spared,
                  table.maxFailures);
    }
  }

  // ---------- probes in flight ----------

  // `probes` are the running tasks with the candidate each one probes; `owners` is the table's own
  // note of it, kept because a task that panics returns no candidate.
  class ProbeTracker {
    var probes: map<nat, CandidateKey>
    var pending: set<CandidateKey>
    var owners: map<nat, CandidateKey>
    var lastAttempt: map<CandidateKey, nat>

    // A key is pending exactly while one task probes it.
    ghost predicate Valid()
      reads this
    {
      && owners == probes && |probes| <= MAX_PENDING_PROBES
      && (forall key :: key in pending <==> key in probes.Values)
      && (forall a, b :: a in probes && b in probes && probes[a] == probes[b] ==> a == b)
    }

    constructor ()
      ensures Valid() && probes == map[]
    {
      probes, pending, owners, lastAttempt := map[], {}, map[], map[];
    }

    // `task` is the id the runtime gives the new task.
    method ScheduleProbe(key: CandidateKey, now: nat, minInterval: nat, task: nat) returns (scheduled: bool)
      requires Valid() && task !in probes
      modifies this
      ensures Valid()
      ensures scheduled <==>
        |old(probes)| < MAX_PENDING_PROBES && key !in old(pending)
        && (key in old(lastAttempt) ==> now - old(lastAttempt)[key] >= minInterval)
      ensures probes == if scheduled then old(probes)[task := key] else old(probes)
      ensures lastAttempt == if scheduled then old(lastAttempt)[key := now] else old(lastAttempt)
    {
      scheduled := false;
      if && |probes| < MAX_PENDING_PROBES && key !in pending
         && (key in lastAttempt ==> now - lastAttempt[key] >= minInterval) {
        scheduled := true;
        lastAttempt, pending := lastAttempt[key := now], pending + {key};
        assert probes[task := key].Keys == probes.Keys + {task};
        assert forall k :: k in probes[task := key].Values <==> k in probes.Values || k == key by {
          assert probes[task := key][task] == key;
          forall k | k in probes.Values ensures k in probes[task := key].Values {
            var t :| t in probes && probes[t] == k;
            assert probes[task := key][t] == k;
          }
        }
        probes, owners := probes[task := key], owners[task := key];
      }
    }

    // Attempts long past no longer hold a new probe back.
    method PruneAttempts(now: nat, keepFor: nat)
      requires Valid()
      modifies this`lastAttempt
      ensures Valid()
      ensures lastAttempt
           == map key | key in old(lastAttempt) && now - old(lastAttempt)[key] < keepFor :: old(lastAttempt)[key]
    {
      lastAttempt := map key | key in lastAttempt && now - lastAttempt[key] < keepFor :: lastAttempt[key];
    }

    // A task has ended, with an outcome or without one; either way its candidate may be probed again.
    method JoinNext(task: nat, completed: bool) returns (key: CandidateKey)
      requires Valid() && task in probes
      modifies this`probes, this`pending, this`owners
      ensures Valid() && probes == old(probes) - {task}
      ensures key == old(probes)[task] && pending == old(pending) - {key}
    {
      key := if completed then probes[task] else owners[task];
      ReleasedKey(probes, task);
      owners, pending, probes := owners - {task}, pending - {key}, probes - {task};
    }
  }

  lemma ReleasedKey(probes: map<nat, CandidateKey>, task: nat)
    requires task in probes
    requires forall a, b :: a in probes && b in probes && probes[a] == probes[b] ==> a == b
    ensures forall key :: key in (probes - {task}).Values <==> key in probes.Values && key != probes[task]
    ensures |probes - {task}| == |probes| - 1
  {
    var rest := probes - {task};
    forall key | key in probes.Values && key != probes[task] ensures key in rest.Values {
      var t :| t in probes && probes[t] == key;
      assert t in rest && rest[t] == key;
    }
    assert rest.Keys == probes.Keys - {task};
    assert |rest| == |rest.Keys| && |probes| == |probes.Keys|;
  }
}
