// The wormhole protocol over the rendezvous client: key exchange, version exchange, numbered messages.
module Wormhole {
  import opened Wrappers
  import opened Text
  import opened Rendezvous

  // Encryption under a key derived for one side and phase; all that is used is that opening inverts sealing.
  datatype Sealing = Sealing(
    seal: (string, string, string, string) -> string, open: (string, string, string, string) -> Option<string>)

  ghost predicate SealingOk(s: Sealing) {
    forall key, side, phase, plain :: s.open(key, side, phase, s.seal(key, side, phase, plain)) == Some(plain)
  }

  // What a side is: its sealing, the shared key, its id, and its first two messages.
  datatype Side = Side(sealing: Sealing, key: string, id: string, pake: string, version: string)

  ghost function Numbered(side: Side, n: nat, value: string): (string, string) {
    (Decimal(n), side.sealing.seal(side.key, side.id, Decimal(n), value))
  }

  // The messages of one side: its key exchange, its version, and its values under the phases 0, 1, 2, ...
  ghost function Outbox(side: Side, values: seq<string>): (r: seq<(string, string)>)
    ensures |r| == 2 + |values|
  {
    if values == [] then
      [("pake", side.pake), ("version", side.sealing.seal(side.key, side.id, "version", side.version))]
    else
      var n: nat := |values| - 1;
      Outbox(side, values[..n]) + [Numbered(side, n, values[n])]
  }

  lemma OutboxMore(side: Side, values: seq<string>, v: string)
    ensures Outbox(side, values + [v]) == Outbox(side, values) + [Numbered(side, |values|, v)]
  {
    assert (values + [v])[..|values|] == values;
  }

  lemma {:induction false} OutboxAt(side: Side, values: seq<string>, n: nat)
    requires n < |values|
    ensures Outbox(side, values)[2 + n] == Numbered(side, n, values[n])
  {
    if n < |values| - 1 {
      OutboxAt(side, values[..|values| - 1], n);
    }
  }

  // The same messages as the mailbox relays them.
  ghost function AsMail(side: string, added: seq<(string, string)>): (r: seq<MailboxMessage>)
    ensures |r| == |added|
  {
    seq(|added|, i requires 0 <= i < |added| => MailboxMessage(side, added[i].0, added[i].1))
  }

  // What an honest side sent n-th, as it comes out of a mailbox that keeps the order.
  lemma RelayedAt(delivered: seq<MailboxMessage>, peer: Side, sent: seq<string>, n: nat)
    requires SealingOk(peer.sealing) && |delivered| == 3 + n && delivered <= AsMail(peer.id, Outbox(peer, sent))
    ensures n < |sent| && delivered[2 + n].phase == Decimal(n)
    ensures peer.sealing.open(peer.key, delivered[2 + n].side, Decimal(n), delivered[2 + n].body) == Some(sent[n])
  {
    OutboxAt(peer, sent, n);
    assert delivered[2 + n] == AsMail(peer.id, Outbox(peer, sent))[2 + n];
  }

  class WormholeProtocol {
    const client: RendezvousClient
    const sealing: Sealing
    const key: string
    ghost const side: Side
    var sendPhase: nat
    var receivePhase: nat
    ghost var values: seq<string>

    // The two counters are the numbers of messages sent and received, and what has been sent is this
    // side's outbox.
    ghost predicate Valid()
      reads this, client
    {
      && client.Valid() && SealingOk(sealing)
      && side.sealing == sealing && side.key == key && side.id == client.sideId
      && |client.delivered| == 2 + receivePhase
      && |values| == sendPhase <= U32_MAX && receivePhase <= U32_MAX
      && Added(client.sent) == Outbox(side, values)
    }

    // After the key and version exchange.
    constructor (client: RendezvousClient, sealing: Sealing, key: string, ghost side: Side)
      requires client.Valid() && SealingOk(sealing) && |client.delivered| == 2
      requires side.sealing == sealing && side.key == key && side.id == client.sideId
               && Added(client.sent) == Outbox(side, [])
      ensures Valid() && this.client == client && this.sealing == sealing && this.key == key && this.side == side
      ensures values == [] && sendPhase == 0 && receivePhase == 0
    {
      this.client, this.sealing, this.key, this.side := client, sealing, key, side;
      sendPhase, receivePhase, values := 0, 0, [];
    }

    // The n-th value goes out under the phase n.
    method Send(value: string, id: string) returns (r: Result<(), RendezvousError>)
      requires Valid()
      modifies this`sendPhase, this`values, client
      ensures r.Success? ==> Valid() && values == old(values) + [value] && receivePhase == old(receivePhase)
      ensures old(sendPhase) == U32_MAX ==> r == Failure(PhasesExhausted)
    {
      var phase := Decimal(sendPhase);
      if sendPhase == U32_MAX {
        r := Failure(PhasesExhausted);
      } else {
        sendPhase := sendPhase + 1;
        OutboxMore(side, values, value);
        r := client.AddMessage(phase, sealing.seal(key, client.sideId, phase, value), id);
        values := values + [value];
      }
    }

    // The n-th message to come must be under the phase n. What it yields, if the mailbox has relayed
    // the peer's messages as the peer sent them, is the n-th value the peer sent.
    method Receive(id: string, ghost peer: Side, ghost sent: seq<string>) returns (r: Result<string, RendezvousError>)
      requires Valid()
      modifies this`receivePhase, client
      ensures r.Success? ==> Valid() && values == old(values) && receivePhase == old(receivePhase) + 1
      ensures r.Success? && peer.sealing == sealing && peer.key == key
              && client.delivered <= AsMail(peer.id, Outbox(peer, sent)) ==>
        old(receivePhase) < |sent| && r.value == sent[old(receivePhase)]
      // In that case nothing but the connection can fail it.
      ensures old(receivePhase) < U32_MAX && r.Failure? && peer.sealing == sealing && peer.key == key
              && client.delivered <= AsMail(peer.id, Outbox(peer, sent)) ==>
        FromConnection(r.error)
      ensures old(receivePhase) == U32_MAX ==> r == Failure(PhasesExhausted)
    {
      var n := receivePhase;
      if n == U32_MAX {
        r := Failure(PhasesExhausted);
      } else {
        receivePhase := receivePhase + 1;
        r := ReceivePhase(client, sealing, key, Decimal(n), id);
        if && |client.delivered| == 3 + n && peer.sealing == sealing
           && client.delivered <= AsMail(peer.id, Outbox(peer, sent)) {
          RelayedAt(client.delivered, peer, sent, n);
        }
      }
    }
  }

  // The peer's next message, under the phase it has to have, opened.
  method ReceivePhase(client: RendezvousClient, sealing: Sealing, key: string, phase: string, id: string)
    returns (r: Result<string, RendezvousError>)
    requires client.Valid()
    modifies client
    ensures Added(client.sent) == Added(old(client.sent))
    ensures r.Success? || !FromConnection(r.error) ==>
      && client.Valid() && |client.delivered| == |old(client.delivered)| + 1
      && old(client.delivered) <= client.delivered
      && var m := client.delivered[|old(client.delivered)|];
         if r.Success? then m.phase == phase && sealing.open(key, m.side, phase, m.body) == Some(r.value)
         else m.phase != phase || sealing.open(key, m.side, phase, m.body) == None
  {
    var next := client.NextPeerMessage(id);
    if next.Failure? {
      r := Failure(next.error);
    } else if next.value.phase != phase {
      r := Failure(UnexpectedPhase);
    } else {
      var plain := sealing.open(key, next.value.side, phase, next.value.body);
      r := if plain.None? then Failure(Unreadable) else Success(plain.value);
    }
  }

  // The first message each way; `agree` stands for finishing the key exchange with the peer's.
  method ExchangeKeys(client: RendezvousClient, agree: string -> Option<string>, pake: string, id: string)
    returns (r: Result<string, RendezvousError>)
    requires client.Valid() && client.delivered == [] && Added(client.sent) == []
    modifies client
    ensures r.Success? ==>
      && client.Valid() && |client.delivered| == 1 && Added(client.sent) == [("pake", pake)]
      && client.delivered[0].phase == "pake" && agree(client.delivered[0].body) == Some(r.value)
  {
    var added := client.AddMessage("pake", pake, id);
    if added.Failure? {
      r := Failure(added.error);
    } else {
      var first := client.NextPeerMessage(id);
      if first.Failure? {
        r := Failure(first.error);
      } else if first.value.phase != "pake" {
        r := Failure(UnexpectedPhase);
      } else {
        var key := agree(first.value.body);
        r := if key.None? then Failure(Unreadable) else Success(key.value);
      }
    }
  }

  // The second message each way, encrypted; `accepts` stands for the check of the peer's version and role.
  method ExchangeVersions(client: RendezvousClient, sealing: Sealing, key: string, version: string,
                          accepts: string -> bool, id: string)
    returns (r: Result<(), RendezvousError>)
    requires client.Valid() && |client.delivered| == 1
    modifies client
    ensures r.Success? ==>
      && client.Valid() && |client.delivered| == 2 && old(client.delivered) <= client.delivered
      && Added(client.sent)
         == Added(old(client.sent)) + [("version", sealing.seal(key, client.sideId, "version", version))]
      && client.delivered[1].phase == "version"
      && var peer := sealing.open(key, client.delivered[1].side, "version", client.delivered[1].body);
         peer.Some? && accepts(peer.value)
  {
    var added := client.AddMessage("version", sealing.seal(key, client.sideId, "version", version), id);
    if added.Failure? {
      r := Failure(added.error);
    } else {
      var peer := ReceivePhase(client, sealing, key, "version", id);
      r := if peer.Failure? then Failure(peer.error)
           else if accepts(peer.value) then Success(())
           else Failure(PeerRefused);
    }
  }

  // Key exchange, then version exchange; the numbered messages start from there.
  method Establish(client: RendezvousClient, sealing: Sealing, agree: string -> Option<string>, pake: string,
                   version: string,
                   accepts: string -> bool, id: string) returns (r: Result<WormholeProtocol, RendezvousError>)
    requires client.Valid() && SealingOk(sealing) && client.delivered == [] && Added(client.sent) == []
    modifies client
    ensures r.Success? ==>
      && r.value.Valid() && fresh(r.value) && r.value.client == client && r.value.sealing == sealing
      && r.value.values == [] && r.value.sendPhase == 0 && r.value.receivePhase == 0
      && r.value.side == Side(sealing, r.value.key, client.sideId, pake, version)
      && client.delivered[0].phase == "pake" && agree(client.delivered[0].body) == Some(r.value.key)
      && client.delivered[1].phase == "version"
  {
    var key := ExchangeKeys(client, agree, pake, id);
    if key.Failure? {
      return Failure(key.error);
    }
    var versions := ExchangeVersions(client, sealing, key.value, version, accepts, id);
    if versions.Failure? {
      return Failure(versions.error);
    }
    ghost var side := Side(sealing, key.value, client.sideId, pake, version);
    assert Added(client.sent) == Outbox(side, []);
    var protocol := new WormholeProtocol(client, sealing, key.value, side);
    return Success(protocol);
  }
}
