// The rendezvous client: acknowledgements, replies and the peer's mailbox messages share one socket,
// and each is consumed in its own time and order.
module Rendezvous {
  import opened Wrappers
  import opened Text

  const MAX_PENDING_MESSAGES: nat := 64
  const MAX_RENDEZVOUS_MESSAGE: nat := 65_536

  datatype MailboxMessage = MailboxMessage(side: string, phase: string, body: string)

  // A value off the socket, by its `type`: a mailbox message (or one that does not parse), a server
  // error, anything else with a type, or nothing with one.
  datatype Value =
    | Mail(message: MailboxMessage) | BadMail | ServerError | Reply(kind: string, id: string, data: string) | Untyped

  datatype Command = Command(kind: string, id: string, phase: string, body: string)

  datatype RendezvousError =
    | ConnectionEnded | ServerFailed | MalformedMessage | NoType | TooManyMessages | TooManyReplies | AckMismatch
    | InvalidMessage | CommandTooLarge | WriteFailed | UnexpectedPhase | PhasesExhausted | Unreadable | PeerRefused

  // Errors of the connection itself, as opposed to what a message on it says.
  predicate FromConnection(e: RendezvousError) {
    e != UnexpectedPhase && e != PhasesExhausted && e != Unreadable && e != PeerRefused
  }

  // ---------- what has arrived ----------

  // The peer's mailbox messages, in order.
  ghost function PeerMail(values: seq<Value>, side: string): seq<MailboxMessage> {
    if values == [] then []
    else
      var last := values[|values| - 1];
      PeerMail(values[..|values| - 1], side) + (if last.Mail? && last.message.side != side then [last.message] else [])
  }

  // The replies of one kind, in order.
  ghost function OfKind(values: seq<Value>, kind: string): seq<Value> {
    if values == [] then []
    else
      var last := values[|values| - 1];
      OfKind(values[..|values| - 1], kind) + (if last.Reply? && last.kind == kind then [last] else [])
  }

  lemma MailMore(values: seq<Value>, v: Value, side: string)
    ensures PeerMail(values + [v], side)
         == PeerMail(values, side) + (if v.Mail? && v.message.side != side then [v.message] else [])
  {
    assert (values + [v])[..|values|] == values;
  }

  lemma KindMore(values: seq<Value>, v: Value, kind: string)
    ensures OfKind(values + [v], kind) == OfKind(values, kind) + (if v.Reply? && v.kind == kind then [v] else [])
  {
    assert (values + [v])[..|values|] == values;
  }

  lemma {:induction false} KindAppend(a: seq<Value>, b: seq<Value>, kind: string)
    ensures OfKind(a + b, kind) == OfKind(a, kind) + OfKind(b, kind)
  {
    if b == [] {
      assert a + b == a;
    } else {
      assert (a + b)[..|a + b| - 1] == a + b[..|b| - 1];
      KindAppend(a, b[..|b| - 1], kind);
    }
  }

  // Replies of each kind have been, and will be, consumed in the order they arrived in.
  ghost predicate InTurn(arrived: seq<Value>, consumed: seq<Value>, pending: seq<Value>) {
    forall kind :: OfKind(arrived, kind) == OfKind(consumed, kind) + OfKind(pending, kind)
  }

  lemma BufferedInTurn(arrived: seq<Value>, consumed: seq<Value>, pending: seq<Value>, v: Value)
    requires InTurn(arrived, consumed, pending) && v.Reply?
    ensures InTurn(arrived + [v], consumed, pending + [v])
  {
    forall kind ensures OfKind(arrived + [v], kind) == OfKind(consumed, kind) + OfKind(pending + [v], kind) {
      KindMore(arrived, v, kind);
      KindMore(pending, v, kind);
      assert OfKind(arrived, kind) == OfKind(consumed, kind) + OfKind(pending, kind);
    }
  }

  lemma OtherInTurn(arrived: seq<Value>, consumed: seq<Value>, pending: seq<Value>, v: Value)
    requires InTurn(arrived, consumed, pending) && !v.Reply?
    ensures InTurn(arrived + [v], consumed, pending)
  {
    forall kind ensures OfKind(arrived + [v], kind) == OfKind(consumed, kind) + OfKind(pending, kind) {
      KindMore(arrived, v, kind);
      assert OfKind(arrived, kind) == OfKind(consumed, kind) + OfKind(pending, kind);
    }
  }

  // A reply that is waited for, with none of its kind buffered, never enters the buffer.
  lemma StraightInTurn(arrived: seq<Value>, consumed: seq<Value>, pending: seq<Value>, v: Value)
    requires InTurn(arrived, consumed, pending) && v.Reply? && OfKind(pending, v.kind) == []
    ensures InTurn(arrived + [v], consumed + [v], pending)
  {
    forall kind ensures OfKind(arrived + [v], kind) == OfKind(consumed + [v], kind) + OfKind(pending, kind) {
      var given := if v.kind == kind then [v] else [];
      assert OfKind(arrived + [v], kind) == (OfKind(consumed, kind) + OfKind(pending, kind)) + given by {
        KindMore(arrived, v, kind);
      }
      assert OfKind(consumed + [v], kind) == OfKind(consumed, kind) + given by {
        KindMore(consumed, v, kind);
      }
      EmptySwaps(OfKind(consumed, kind), OfKind(pending, kind), given);
    }
  }

  lemma EmptySwaps<T>(a: seq<T>, b: seq<T>, c: seq<T>)
    requires b == [] || c == []
    ensures (a + b) + c == (a + c) + b
  {
  }

  // The first reply of a kind can be taken out without disturbing the order of any kind.
  lemma TakenInTurn(arrived: seq<Value>, consumed: seq<Value>, pending: seq<Value>, i: nat)
    requires InTurn(arrived, consumed, pending)
    requires i < |pending| && pending[i].Reply? && OfKind(pending[..i], pending[i].kind) == []
    ensures InTurn(arrived, consumed + [pending[i]], Without(pending, i))
  {
    forall kind
      ensures OfKind(arrived, kind) == OfKind(consumed + [pending[i]], kind) + OfKind(Without(pending, i), kind)
    {
      TakenOfKind(arrived, consumed, pending, i, kind);
    }
  }

  lemma TakenOfKind(arrived: seq<Value>, consumed: seq<Value>, pending: seq<Value>, i: nat, kind: string)
    requires OfKind(arrived, kind) == OfKind(consumed, kind) + OfKind(pending, kind)
    requires i < |pending| && pending[i].Reply? && OfKind(pending[..i], pending[i].kind) == []
    ensures OfKind(arrived, kind) == OfKind(consumed + [pending[i]], kind) + OfKind(Without(pending, i), kind)
  {
    var taken := if pending[i].kind == kind then [pending[i]] else [];
    assert OfKind(pending, kind) == taken + OfKind(Without(pending, i), kind) by {
      TakeFirst(pending, i, kind);
    }
    assert OfKind(consumed + [pending[i]], kind) == OfKind(consumed, kind) + taken by {
      KindMore(consumed, pending[i], kind);
    }
    Reassociate(OfKind(consumed, kind), taken, OfKind(Without(pending, i), kind));
  }

  lemma Reassociate<T>(a: seq<T>, b: seq<T>, c: seq<T>)
    ensures a + (b + c) == (a + b) + c
  {
  }

  lemma TakeFirst(pending: seq<Value>, i: nat, kind: string)
    requires i < |pending| && pending[i].Reply? && OfKind(pending[..i], pending[i].kind) == []
    ensures OfKind(pending, kind)
         == (if pending[i].kind == kind then [pending[i]] else []) + OfKind(Without(pending, i), kind)
  {
    SplitAround(pending, i);
    TakeMiddle(pending[..i], pending[i], pending[i + 1..], kind);
  }

  lemma TakeMiddle(a: seq<Value>, v: Value, b: seq<Value>, kind: string)
    requires v.Reply? && OfKind(a, v.kind) == []
    ensures OfKind((a + [v]) + b, kind) == (if v.kind == kind then [v] else []) + OfKind(a + b, kind)
  {
    KindAppend(a + [v], b, kind);
    KindMore(a, v, kind);
    KindAppend(a, b, kind);
  }

  function FirstOfKind(values: seq<Value>, kind: string): (r: Option<nat>)
    ensures r.Some? ==> r.value < |values| && values[r.value].Reply? && values[r.value].kind == kind
    ensures r.Some? ==> OfKind(values[..r.value], kind) == []
    ensures r.None? ==> OfKind(values, kind) == []
  {
    if values == [] then None
    else
      var init := values[..|values| - 1];
      var before := FirstOfKind(init, kind);
      if before.Some? then
        assert values[..before.value] == init[..before.value];
        before
      else if values[|values| - 1].Reply? && values[|values| - 1].kind == kind then Some(|values| - 1)
      else None
  }

  // ---------- the client ----------

  class RendezvousClient {
    const sideId: string
    // The length of a command's JSON text.
    const encodedLength: Command -> nat
    // What the socket still has to deliver, and how many more writes it takes.
    var socket: seq<Value>
    var writes: nat
    var sent: seq<Command>
    var nameplate: Option<string>
    var pending: seq<Value>
    var mailbox: seq<MailboxMessage>
    ghost var arrived: seq<Value>
    ghost var delivered: seq<MailboxMessage>
    ghost var consumed: seq<Value>

    // Delivered and buffered messages together are the peer's, in arrival order; replies of each kind
    // have been, and will be, consumed in arrival order.
    ghost predicate Valid()
      reads this
    {
      && PeerMail(arrived, sideId) == delivered + mailbox
      && InTurn(arrived, consumed, pending)
      && |mailbox| <= MAX_PENDING_MESSAGES && |pending| <= MAX_PENDING_MESSAGES
    }

    constructor (sideId: string, encodedLength: Command -> nat, socket: seq<Value>, writes: nat)
      ensures Valid() && this.sideId == sideId && this.encodedLength == encodedLength && this.socket == socket
              && this.writes == writes
      ensures sent == [] && delivered == [] && arrived == [] && nameplate == None
    {
      this.sideId, this.encodedLength, this.socket, this.writes := sideId, encodedLength, socket, writes;
      sent, nameplate, pending, mailbox := [], None, [], [];
      arrived, delivered, consumed := [], [], [];
    }

    // One value off the socket, put where it belongs. Whatever it is, a full buffer or a bad value ends
    // the connection rather than losing something quietly.
    method Dispatch(value: Value) returns (r: Result<(), RendezvousError>)
      requires Valid()
      modifies this`pending, this`mailbox, this`arrived
      ensures arrived == old(arrived) + [value] && old(mailbox) <= mailbox
      ensures r.Success? ==> Valid()
      ensures r.Failure? ==> FromConnection(r.error)
      ensures r.Success? <==> match value
        case Mail(m) => m.side == sideId || |old(mailbox)| < MAX_PENDING_MESSAGES
        case Reply(_, _, _) => |old(pending)| < MAX_PENDING_MESSAGES
        case _ => false
    {
      MailMore(arrived, value, sideId);
      if value.Reply? {
        BufferedInTurn(arrived, consumed, pending, value);
      } else {
        OtherInTurn(arrived, consumed, pending, value);
      }
      arrived := arrived + [value];
      r := Success(());
      match value {
        case Mail(message) =>
          if message.side != sideId {
            if |mailbox| >= MAX_PENDING_MESSAGES {
              r := Failure(TooManyMessages);
            } else {
              assert delivered + (mailbox + [message]) == (delivered + mailbox) + [message];
              mailbox := mailbox + [message];
            }
          }
        case ServerError =>
          r := Failure(ServerFailed);
        case Reply(_, _, _) =>
          if |pending| >= MAX_PENDING_MESSAGES {
            r := Failure(TooManyReplies);
          } else {
            pending := pending + [value];
          }
        case BadMail =>
          r := Failure(MalformedMessage);
        case Untyped =>
          r := Failure(NoType);
      }
    }

    // The next reply of a kind: one that is waiting, or the first to come.
    method ReadType(kind: string) returns (r: Result<Value, RendezvousError>)
      requires Valid()
      modifies this`socket, this`pending, this`mailbox, this`arrived, this`consumed
      ensures r.Success? ==> Valid() && r.value.Reply? && r.value.kind == kind && consumed == old(consumed) + [r.value]
      ensures r.Failure? ==> consumed == old(consumed) && FromConnection(r.error)
      ensures old(arrived) <= arrived && old(mailbox) <= mailbox
      decreases |socket|
    {
      var index := FirstOfKind(pending, kind);
      if index.Some? {
        TakenInTurn(arrived, consumed, pending, index.value);
        r := Success(pending[index.value]);
        consumed, pending := consumed + [pending[index.value]], Without(pending, index.value);
      } else if socket == [] {
        r := Failure(ConnectionEnded);
      } else {
        var value := socket[0];
        socket := socket[1..];
        if value.Reply? && value.kind == kind {
          MailMore(arrived, value, sideId);
          StraightInTurn(arrived, consumed, pending, value);
          arrived, consumed := arrived + [value], consumed + [value];
          r := Success(value);
        } else {
          var dispatched := Dispatch(value);
          if dispatched.Failure? {
            r := Failure(dispatched.error);
          } else {
            r := ReadType(kind);
          }
        }
      }
    }

    // How many of the commands are written: up to the first that is too large or does not go out.
    function Written(commands: seq<Command>, writes: nat): (n: nat)
      ensures n <= |commands| && n <= writes
    {
      if commands == [] || writes == 0 || encodedLength(commands[0]) > MAX_RENDEZVOUS_MESSAGE then 0
      else 1 + Written(commands[1..], writes - 1)
    }

    function WriteError(command: Command): RendezvousError {
      if encodedLength(command) > MAX_RENDEZVOUS_MESSAGE then CommandTooLarge else WriteFailed
    }

    method WriteCommands(commands: seq<Command>) returns (r: Result<(), RendezvousError>)
      modifies this`sent, this`writes
      ensures sent == old(sent) + commands[..Written(commands, old(writes))]
      ensures writes == old(writes) - Written(commands, old(writes))
      ensures r.Success? <==> Written(commands, old(writes)) == |commands|
      ensures r.Failure? ==> r.error == WriteError(commands[Written(commands, old(writes))])
    {
      r := Success(());
      var n := 0;
      while n < |commands| && r.Success?
        invariant n <= |commands| && sent == old(sent) + commands[..n] && writes == old(writes) - n
        invariant r.Success? ==> Written(commands, old(writes)) == n + Written(commands[n..], writes)
        invariant r.Failure? ==>
          n < |commands| && Written(commands, old(writes)) == n && r.error == WriteError(commands[n])
        decreases |commands| - n, r.Success?
      {
        assert commands[n..][1..] == commands[n + 1..] && commands[..n + 1] == commands[..n] + [commands[n]];
        if encodedLength(commands[n]) > MAX_RENDEZVOUS_MESSAGE {
          r := Failure(CommandTooLarge);
        } else if writes == 0 {
          r := Failure(WriteFailed);
        } else {
          sent, writes, n := sent + [commands[n]], writes - 1, n + 1;
        }
      }
    }

    // Writes the commands, then checks one acknowledgement after another against their ids.
    method SendCommands(commands: seq<Command>) returns (r: Result<(), RendezvousError>)
      requires Valid()
      modifies this`socket, this`writes, this`sent, this`pending, this`mailbox, this`arrived, this`consumed
      ensures sent == old(sent) + commands[..Written(commands, old(writes))]
      ensures r.Failure? ==> FromConnection(r.error)
      ensures Written(commands, old(writes)) < |commands| ==>
        && r == Failure(WriteError(commands[Written(commands, old(writes))]))
        && Valid() && consumed == old(consumed) && arrived == old(arrived)
      ensures r.Success? ==>
        && Valid() && |consumed| == |old(consumed)| + |commands| && old(consumed) <= consumed
        && forall i :: 0 <= i < |commands| ==> IsAck(consumed[|old(consumed)| + i], commands[i].id)
    {
      r := WriteCommands(commands);
      if r.Success? {
        r := ReadAcknowledgements(commands);
      }
    }

    method ReadAcknowledgements(commands: seq<Command>) returns (r: Result<(), RendezvousError>)
      requires Valid()
      modifies this`socket, this`pending, this`mailbox, this`arrived, this`consumed
      ensures r.Failure? ==> FromConnection(r.error)
      ensures r.Success? ==>
        && Valid() && |consumed| == |old(consumed)| + |commands| && old(consumed) <= consumed
        && forall i :: 0 <= i < |commands| ==> IsAck(consumed[|old(consumed)| + i], commands[i].id)
    {
      r := Success(());
      var i := 0;
      while i < |commands| && r.Success?
        invariant i <= |commands| && (r.Failure? ==> FromConnection(r.error))
        invariant r.Success? ==>
          && Valid() && |consumed| == |old(consumed)| + i && old(consumed) <= consumed
          && forall k :: 0 <= k < i ==> IsAck(consumed[|old(consumed)| + k], commands[k].id)
        decreases |commands| - i, r.Success?
      {
        var acknowledgement := ReadType("ack");
        if acknowledgement.Failure? {
          r := Failure(acknowledgement.error);
        } else if acknowledgement.value.id != commands[i].id {
          r := Failure(AckMismatch);
        } else {
          i := i + 1;
        }
      }
    }

    // Releasing the nameplate waits for its acknowledgement and its reply; the peer may go on writing.
    method ReleaseNameplate(id: string) returns (r: Result<(), RendezvousError>)
      requires Valid()
      modifies this`socket, this`writes, this`sent, this`nameplate, this`pending, this`mailbox, this`arrived,
               this`consumed
      ensures r.Success? ==> Valid() && nameplate == None
      ensures r.Failure? ==> FromConnection(r.error)
      ensures Added(sent) == Added(old(sent))
    {
      r := Success(());
      if nameplate.Some? {
        nameplate := None;
        var release := Command("release", id, "", "");
        NotAdded(sent, release);
        assert [release][..0] == [] && [release][..1] == [release] && sent + [] == sent;
        r := SendCommands([release]);
        if r.Success? {
          var released := ReadType("released");
          if released.Failure? {
            r := Failure(released.error);
          }
        }
      }
    }

    // The peer's next message, buffered or still to come.
    method NextPeerMessage(id: string) returns (r: Result<MailboxMessage, RendezvousError>)
      requires Valid()
      modifies this
      ensures r.Success? ==> Valid() && delivered == old(delivered) + [r.value]
      ensures r.Failure? ==> FromConnection(r.error)
      ensures delivered == old(delivered) || |delivered| == |old(delivered)| + 1
      ensures Added(sent) == Added(old(sent))
      decreases |socket|
    {
      if mailbox != [] {
        var message := mailbox[0];
        assert delivered + mailbox == (delivered + [message]) + mailbox[1..];
        mailbox, delivered := mailbox[1..], delivered + [message];
        var released := ReleaseNameplate(id);
        r := if released.Success? then Success(message) else Failure(released.error);
      } else if socket == [] {
        r := Failure(ConnectionEnded);
      } else {
        var value := socket[0];
        socket := socket[1..];
        var dispatched := Dispatch(value);
        if dispatched.Failure? {
          r := Failure(dispatched.error);
        } else {
          r := NextPeerMessage(id);
        }
      }
    }

    // Nobody waits for anything: values are only put away, until somebody calls a stop.
    method Pump(turns: nat) returns (r: Result<(), RendezvousError>)
      requires Valid()
      modifies this`socket, this`pending, this`mailbox, this`arrived
      ensures r.Success? ==> Valid() && old(mailbox) <= mailbox
    {
      r := Success(());
      var i := 0;
      while i < turns && r.Success?
        invariant r.Success? ==> Valid() && old(mailbox) <= mailbox
        decreases turns - i, r.Success?
      {
        if socket == [] {
          r := Failure(ConnectionEnded);
        } else {
          var value := socket[0];
          socket := socket[1..];
          r := Dispatch(value);
        }
        i := i + 1;
      }
    }

    // A message goes out whole or not at all, and a success means that it did.
    method AddMessage(phase: string, body: string, id: string) returns (r: Result<(), RendezvousError>)
      requires Valid()
      modifies this`socket, this`writes, this`sent, this`pending, this`mailbox, this`arrived, this`consumed
      ensures r.Success? ==> Valid()
      ensures Added(sent) == Added(old(sent)) || Added(sent) == Added(old(sent)) + [(phase, body)]
      ensures r.Success? ==> Added(sent) == Added(old(sent)) + [(phase, body)]
      ensures !MessageOk(phase, body) ==> r == Failure(InvalidMessage) && sent == old(sent)
    {
      if !MessageOk(phase, body) {
        r := Failure(InvalidMessage);
      } else {
        var add := Command("add", id, phase, body);
        AddedMore(sent, add);
        assert [add][..0] == [] && [add][..1] == [add] && sent + [] == sent;
        r := SendCommands([add]);
      }
    }
  }

  // Phases and bodies are ASCII, so characters are bytes.
  predicate MessageOk(phase: string, body: string) {
    1 <= |phase| <= 64 && |body| <= MAX_RENDEZVOUS_MESSAGE
  }

  predicate IsAck(value: Value, id: string) {
    value.Reply? && value.kind == "ack" && value.id == id
  }

  // The phases and bodies a side has added to the mailbox, in order.
  ghost function Added(sent: seq<Command>): seq<(string, string)> {
    if sent == [] then []
    else
      var last := sent[|sent| - 1];
      Added(sent[..|sent| - 1]) + (if last.kind == "add" then [(last.phase, last.body)] else [])
  }

  lemma AddedMore(sent: seq<Command>, c: Command)
    ensures Added(sent + [c]) == Added(sent) + (if c.kind == "add" then [(c.phase, c.body)] else [])
  {
    assert (sent + [c])[..|sent|] == sent;
  }

  lemma NotAdded(sent: seq<Command>, c: Command)
    requires c.kind == "release"
    ensures Added(sent + [c]) == Added(sent)
  {
    AddedMore(sent, c);
    assert "release" != "add" by {
      assert |"release"| != |"add"|;
    }
  }
}
