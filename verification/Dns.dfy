// DNS queries and answers (sections 4.1.1 to 4.1.4 of RFC 1035).
module Dns {
  import opened Wrappers
  import opened Text

  type Bytes = seq<byte>

  const TYPE_A: nat := 1
  const TYPE_AAAA: nat := 28

  datatype DnsError = Malformed | ResponseCode(code: nat) | InvalidLabel

  datatype IpAddress = V4(bytes: Bytes) | V6(bytes: Bytes)

  function U16At(packet: Bytes, i: nat): nat
    requires i + 2 <= |packet|
  {
    FromBe16(packet[i..i + 2])
  }

  lemma Be16RoundTrip(n: nat)
    requires n < 0x1_0000
    ensures FromBe16(Be16(n)) == n
  {
  }

  // ---------- names ----------

  // A name ends in the root, or in a pointer to somewhere earlier in the message.
  datatype Name = Name(labels: seq<Bytes>, pointer: Option<nat>)

  predicate LabelOk(text: Bytes) {
    1 <= |text| <= 63
  }

  ghost predicate NameOk(name: Name) {
    && (forall i :: 0 <= i < |name.labels| ==> LabelOk(name.labels[i]))
    && (name.pointer.Some? ==> name.pointer.value < 0x4000)
  }

  function EncodeLabels(labels: seq<Bytes>, end: Bytes): Bytes
    requires forall i :: 0 <= i < |labels| ==> LabelOk(labels[i])
  {
    if labels == [] then end
    else
      assert LabelOk(labels[0]);
      ([|labels[0]|] + labels[0]) + EncodeLabels(labels[1..], end)
  }

  ghost function EncodeName(name: Name): Bytes
    requires NameOk(name)
  {
    EncodeLabels(name.labels,
                 if name.pointer.Some? then [0xC0 + name.pointer.value / 0x100, name.pointer.value % 0x100] else [0])
  }

  // The offset behind the name at `cursor`.
  function SkipName(packet: Bytes, cursor: nat): (r: Option<nat>)
    ensures r.Some? ==> cursor < r.value <= |packet|
    decreases |packet| - cursor
  {
    if cursor >= |packet| then None
    else
      var length := packet[cursor] as int;
      if length >= 0xC0 then if cursor + 2 <= |packet| then Some(cursor + 2) else None
      else if length == 0 then Some(cursor + 1)
      else if cursor + 1 + length > |packet| then None
      else SkipName(packet, cursor + 1 + length)
  }

  // The loop of `skip_dns_name`: it only moves forwards and never reads outside the packet.
  method SkipDnsName(packet: Bytes, start: nat) returns (r: Option<nat>)
    ensures r == SkipName(packet, start)
    ensures r.Some? ==> start < r.value <= |packet|
  {
    var cursor: nat := start;
    while true
      invariant start <= cursor && SkipName(packet, start) == SkipName(packet, cursor)
      decreases if cursor <= |packet| then |packet| - cursor + 1 else 0
    {
      if cursor >= |packet| {
        return None;
      }
      var length := packet[cursor] as int;
      if length >= 0xC0 {
        return if cursor + 2 <= |packet| then Some(cursor + 2) else None;
      }
      if length == 0 {
        return Some(cursor + 1);
      }
      if cursor + 1 + length > |packet| {
        return None;
      }
      cursor := cursor + 1 + length;
    }
  }

  lemma {:induction false} SkipsLabels(before: Bytes, labels: seq<Bytes>, end: Bytes, after: Bytes)
    requires forall i :: 0 <= i < |labels| ==> LabelOk(labels[i])
    requires end == [0] || (|end| == 2 && end[0] as int >= 0xC0)
    ensures SkipName(before + EncodeLabels(labels, end) + after, |before|)
         == Some(|before| + |EncodeLabels(labels, end)|)
    decreases |labels|
  {
    var packet := before + EncodeLabels(labels, end) + after;
    if labels == [] {
      assert packet[|before|] == end[0];
    } else {
      assert LabelOk(labels[0]);
      var first: Bytes, rest := [|labels[0]|] + labels[0], EncodeLabels(labels[1..], end);
      assert packet[|before|] == first[0];
      assert packet == (before + first) + rest + after;
      SkipsLabels(before + first, labels[1..], end, after);
    }
  }

  // Skipping a well-formed name lands exactly behind it.
  lemma SkipsName(before: Bytes, name: Name, after: Bytes)
    requires NameOk(name)
    ensures SkipName(before + EncodeName(name) + after, |before|) == Some(|before| + |EncodeName(name)|)
  {
    SkipsLabels(before, name.labels,
                if name.pointer.Some? then [0xC0 + name.pointer.value / 0x100, name.pointer.value % 0x100]
                else [0], after);
  }

  // ---------- messages ----------

  datatype Question = Question(name: Name, rest: Bytes)

  // `rest` is the class and the time to live.
  datatype Record = Record(name: Name, kind: nat, rest: Bytes, data: Bytes)

  // `flags` are the two flag bytes, `counts` the two section counts that are not looked at.
  datatype Message = Message(
    id: nat, flags: Bytes, counts: Bytes, questions: seq<Question>, answers: seq<Record>, trailer: Bytes)

  ghost predicate QuestionOk(q: Question) {
    NameOk(q.name) && |q.rest| == 4
  }

  ghost predicate RecordOk(r: Record) {
    NameOk(r.name) && r.kind < 0x1_0000 && |r.rest| == 6 && |r.data| < 0x1_0000
  }

  ghost predicate MessageOk(m: Message) {
    && m.id < 0x1_0000 && |m.flags| == 2 && |m.counts| == 4
    && |m.questions| < 0x1_0000 && |m.answers| < 0x1_0000
    && (forall i :: 0 <= i < |m.questions| ==> QuestionOk(m.questions[i]))
    && (forall i :: 0 <= i < |m.answers| ==> RecordOk(m.answers[i]))
  }

  ghost function EncodeQuestions(qs: seq<Question>): Bytes
    requires forall i :: 0 <= i < |qs| ==> QuestionOk(qs[i])
  {
    if qs == [] then []
    else
      assert QuestionOk(qs[0]);
      (EncodeName(qs[0].name) + qs[0].rest) + EncodeQuestions(qs[1..])
  }

  ghost function EncodeFixed(r: Record): Bytes
    requires RecordOk(r)
  {
    Be16(r.kind) + r.rest + Be16(|r.data|)
  }

  ghost function EncodeRecords(rs: seq<Record>): Bytes
    requires forall i :: 0 <= i < |rs| ==> RecordOk(rs[i])
  {
    if rs == [] then []
    else
      assert RecordOk(rs[0]);
      (EncodeName(rs[0].name) + EncodeFixed(rs[0]) + rs[0].data) + EncodeRecords(rs[1..])
  }

  ghost function EncodeHeader(m: Message): (h: Bytes)
    requires MessageOk(m)
    ensures |h| == 12
  {
    Be16(m.id) + m.flags + Be16(|m.questions|) + Be16(|m.answers|) + m.counts
  }

  ghost function Encode(m: Message): Bytes
    requires MessageOk(m)
  {
    EncodeHeader(m) + EncodeQuestions(m.questions) + EncodeRecords(m.answers) + m.trailer
  }

  // The address a record carries, if it is of the asked type and of the right length.
  function AddressOf(kind: nat, data: Bytes, qtype: nat): seq<IpAddress> {
    if kind != qtype then []
    else if qtype == TYPE_A && |data| == 4 then [V4(data)]
    else if qtype == TYPE_AAAA && |data| == 16 then [V6(data)]
    else []
  }

  // What an answer section holds of the asked type, in order.
  ghost function AddressesOf(rs: seq<Record>, qtype: nat): seq<IpAddress> {
    if rs == [] then [] else AddressOf(rs[0].kind, rs[0].data, qtype) + AddressesOf(rs[1..], qtype)
  }

  // ---------- parsing ----------

  function SkipQuestions(packet: Bytes, cursor: nat, n: nat): (r: Option<nat>)
    ensures r.Some? ==> cursor <= r.value && (n > 0 ==> r.value <= |packet|)
    decreases n
  {
    if n == 0 then Some(cursor)
    else
      match SkipName(packet, cursor)
      case None => None
      case Some(c) => if c + 4 > |packet| then None else SkipQuestions(packet, c + 4, n - 1)
  }

  // One answer: its type, its data and the offset behind it.
  function ParseRecord(packet: Bytes, cursor: nat): (r: Option<(nat, Bytes, nat)>)
    ensures r.Some? ==> cursor < r.value.2 <= |packet|
  {
    match SkipName(packet, cursor)
    case None => None
    case Some(c) =>
      if c + 10 > |packet| then None
      else
        var length := U16At(packet, c + 8);
        if c + 10 + length > |packet| then None
        else Some((U16At(packet, c), packet[c + 10..c + 10 + length], c + 10 + length))
  }

  function ParseRecords(packet: Bytes, cursor: nat, n: nat, qtype: nat): Option<seq<IpAddress>>
    decreases n
  {
    if n == 0 then Some([])
    else
      match ParseRecord(packet, cursor)
      case None => None
      case Some((kind, data, next)) =>
        Prepended(AddressOf(kind, data, qtype), ParseRecords(packet, next, n - 1, qtype))
  }

  function Parsed(packet: Bytes, id: nat, qtype: nat): Result<seq<IpAddress>, DnsError>
    requires id < 0x1_0000
  {
    if |packet| < 12 || packet[..2] != Be16(id) then Failure(Malformed)
    else if packet[3] as int % 16 != 0 then Failure(ResponseCode(packet[3] as int % 16))
    else
      match SkipQuestions(packet, 12, U16At(packet, 4))
      case None => Failure(Malformed)
      case Some(cursor) =>
        match ParseRecords(packet, cursor, U16At(packet, 6), qtype)
        case None => Failure(Malformed)
        case Some(addresses) => Success(addresses)
  }

  // `parse_dns_answers`, against what the packet says.
  method ParseDnsAnswers(packet: Bytes, id: nat, qtype: nat) returns (r: Result<seq<IpAddress>, DnsError>)
    requires id < 0x1_0000
    ensures r == Parsed(packet, id, qtype)
  {
    if |packet| < 12 || packet[..2] != Be16(id) {
      return Failure(Malformed);
    }
    if packet[3] as int % 16 != 0 {
      return Failure(ResponseCode(packet[3] as int % 16));
    }
    var cursor := SkipAllQuestions(packet, 12, U16At(packet, 4));
    if cursor.None? {
      return Failure(Malformed);
    }
    var collected := CollectAnswers(packet, cursor.value, U16At(packet, 6), qtype);
    return if collected.None? then Failure(Malformed) else Success(collected.value);
  }

  method SkipAllQuestions(packet: Bytes, start: nat, questions: nat) returns (r: Option<nat>)
    ensures r == SkipQuestions(packet, start, questions)
  {
    var cursor: nat := start;
    for i := 0 to questions
      invariant SkipQuestions(packet, start, questions) == SkipQuestions(packet, cursor, questions - i)
    {
      var skipped := SkipDnsName(packet, cursor);
      if skipped.None? || skipped.value + 4 > |packet| {
        return None;
      }
      cursor := skipped.value + 4;
    }
    return Some(cursor);
  }

  function Prepended(collected: seq<IpAddress>, parsed: Option<seq<IpAddress>>): Option<seq<IpAddress>> {
    if parsed.None? then None else Some(collected + parsed.value)
  }

  lemma PrependAll(collected: seq<IpAddress>, here: seq<IpAddress>, parsed: Option<seq<IpAddress>>)
    ensures Prepended(collected, Prepended(here, parsed)) == Prepended(collected + here, parsed)
    ensures Prepended([], parsed) == parsed
  {
    if parsed.Some? {
      assert (collected + here) + parsed.value == collected + (here + parsed.value);
      assert [] + parsed.value == parsed.value;
    }
  }

  // One answer at the cursor.
  method ReadAnswer(packet: Bytes, cursor: nat) returns (r: Option<(nat, Bytes, nat)>)
    ensures r == ParseRecord(packet, cursor)
  {
    var skipped := SkipDnsName(packet, cursor);
    if skipped.None? || skipped.value + 10 > |packet| {
      return None;
    }
    var fixed := skipped.value;
    var answerType, length := U16At(packet, fixed), U16At(packet, fixed + 8);
    if fixed + 10 + length > |packet| {
      return None;
    }
    return Some((answerType, packet[fixed + 10..fixed + 10 + length], fixed + 10 + length));
  }

  method CollectAnswers(packet: Bytes, start: nat, answers: nat, qtype: nat) returns (r: Option<seq<IpAddress>>)
    ensures r == ParseRecords(packet, start, answers, qtype)
  {
    var cursor: nat := start;
    var collected: seq<IpAddress> := [];
    ghost var all := ParseRecords(packet, start, answers, qtype);
    PrependAll([], [], all);
    for i := 0 to answers
      invariant all == Prepended(collected, ParseRecords(packet, cursor, answers - i, qtype))
    {
      var answer := ReadAnswer(packet, cursor);
      if answer.None? {
        return None;
      }
      var (answerType, data, next) := answer.value;
      var here := AddressOf(answerType, data, qtype);
      ParseStep(packet, cursor, answers - i, qtype, answerType, data, next);
      PrependAll(collected, here, ParseRecords(packet, next, answers - i - 1, qtype));
      collected, cursor := collected + here, next;
    }
    assert collected + [] == collected;
    return Some(collected);
  }

  // ---------- parsing what was encoded ----------

  lemma {:induction false} SkipsQuestions(before: Bytes, qs: seq<Question>, after: Bytes)
    requires forall i :: 0 <= i < |qs| ==> QuestionOk(qs[i])
    ensures SkipQuestions(before + EncodeQuestions(qs) + after, |before|, |qs|)
         == Some(|before| + |EncodeQuestions(qs)|)
    decreases |qs|
  {
    if qs != [] {
      assert QuestionOk(qs[0]);
      var name, rest, more := EncodeName(qs[0].name), qs[0].rest, EncodeQuestions(qs[1..]);
      Regroup(before, name + rest, more, after);
      Regroup(before, name, rest, more + after);
      SkipsName(before, qs[0].name, rest + (more + after));
      SkipsQuestions(before + (name + rest), qs[1..], after);
    }
  }

  lemma FixedFields(r: Record)
    requires RecordOk(r)
    ensures |EncodeFixed(r)| == 10 && U16At(EncodeFixed(r), 0) == r.kind && U16At(EncodeFixed(r), 8) == |r.data|
  {
    var kind, length := Be16(r.kind), Be16(|r.data|);
    var fixed := (kind + r.rest) + length;
    assert fixed[0..2] == kind;
    assert fixed[8..10] == length;
    Be16RoundTrip(r.kind);
    Be16RoundTrip(|r.data|);
  }

  lemma FieldInside(before: Bytes, part: Bytes, after: Bytes, i: nat)
    requires i + 2 <= |part|
    ensures U16At(before + part + after, |before| + i) == U16At(part, i)
  {
    assert (before + part + after)[|before| + i..|before| + i + 2] == part[i..i + 2];
  }

  lemma RecordAt(packet: Bytes, cursor: nat, c: nat, kind: nat, data: Bytes)
    requires SkipName(packet, cursor) == Some(c) && c + 10 + |data| <= |packet|
    requires U16At(packet, c) == kind && U16At(packet, c + 8) == |data| && packet[c + 10..c + 10 + |data|] == data
    ensures ParseRecord(packet, cursor) == Some((kind, data, c + 10 + |data|))
  {
  }

  lemma NameAt(before: Bytes, r: Record, after: Bytes)
    requires RecordOk(r)
    ensures var bytes := EncodeName(r.name) + EncodeFixed(r) + r.data;
      SkipName(before + bytes + after, |before|) == Some(|before| + |EncodeName(r.name)|)
  {
    var name, fixed, data := EncodeName(r.name), EncodeFixed(r), r.data;
    Regroup(before, name, fixed + data, after);
    assert name + fixed + data == name + (fixed + data);
    assert fixed + data + after == fixed + (data + after);
    SkipsName(before, r.name, fixed + data + after);
  }

  lemma FieldsAt(before: Bytes, name: Bytes, r: Record, after: Bytes)
    requires RecordOk(r)
    ensures var (packet, c) := (before + (name + EncodeFixed(r) + r.data) + after, |before| + |name|);
      && U16At(packet, c) == r.kind && U16At(packet, c + 8) == |r.data|
      && packet[c + 10..c + 10 + |r.data|] == r.data
  {
    var fixed, data := EncodeFixed(r), r.data;
    var packet := before + (name + fixed + data) + after;
    FixedFields(r);
    assert packet == (before + name) + fixed + (data + after);
    FieldInside(before + name, fixed, data + after, 0);
    FieldInside(before + name, fixed, data + after, 8);
    assert packet == (before + name + fixed) + data + after;
  }

  lemma ParsesRecord(before: Bytes, r: Record, after: Bytes)
    requires RecordOk(r)
    ensures var bytes := EncodeName(r.name) + EncodeFixed(r) + r.data;
      ParseRecord(before + bytes + after, |before|) == Some((r.kind, r.data, |before| + |bytes|))
  {
    var name, fixed := EncodeName(r.name), EncodeFixed(r);
    NameAt(before, r, after);
    FieldsAt(before, name, r, after);
    FixedFields(r);
    RecordAt(before + (name + fixed + r.data) + after, |before|, |before| + |name|, r.kind, r.data);
  }

  lemma {:induction false} ParsesRecords(before: Bytes, rs: seq<Record>, after: Bytes, qtype: nat)
    requires forall i :: 0 <= i < |rs| ==> RecordOk(rs[i])
    ensures ParseRecords(before + EncodeRecords(rs) + after, |before|, |rs|, qtype) == Some(AddressesOf(rs, qtype))
    decreases |rs|
  {
    if rs != [] {
      assert RecordOk(rs[0]);
      var bytes, more := EncodeName(rs[0].name) + EncodeFixed(rs[0]) + rs[0].data, EncodeRecords(rs[1..]);
      Regroup(before, bytes, more, after);
      ParsesRecord(before, rs[0], more + after);
      ParseStep(before + EncodeRecords(rs) + after, |before|, |rs|, qtype, rs[0].kind, rs[0].data, |before + bytes|);
      ParsesRecords(before + bytes, rs[1..], after, qtype);
    }
  }

  lemma ParseStep(packet: Bytes, cursor: nat, n: nat, qtype: nat, kind: nat, data: Bytes, next: nat)
    requires n > 0 && ParseRecord(packet, cursor) == Some((kind, data, next))
    ensures ParseRecords(packet, cursor, n, qtype)
         == Prepended(AddressOf(kind, data, qtype), ParseRecords(packet, next, n - 1, qtype))
  {
  }

  lemma Regroup(a: Bytes, b: Bytes, c: Bytes, d: Bytes)
    ensures a + (b + c) + d == a + b + (c + d) == (a + b) + c + d == a + (b + (c + d))
  {
  }

  lemma MessageAt(packet: Bytes, id: nat, qtype: nat, cursor: nat, addresses: seq<IpAddress>)
    requires id < 0x1_0000 && |packet| >= 12 && packet[..2] == Be16(id) && packet[3] as int % 16 == 0
    requires SkipQuestions(packet, 12, U16At(packet, 4)) == Some(cursor)
    requires ParseRecords(packet, cursor, U16At(packet, 6), qtype) == Some(addresses)
    ensures Parsed(packet, id, qtype) == Success(addresses)
  {
  }

  // A well-formed response yields the addresses of the records of the asked type, in order.
  lemma ParsesMessage(m: Message, qtype: nat)
    requires MessageOk(m) && m.flags[1] as int % 16 == 0
    ensures Parsed(Encode(m), m.id, qtype) == Success(AddressesOf(m.answers, qtype))
  {
    var header, questions, answers := EncodeHeader(m), EncodeQuestions(m.questions), EncodeRecords(m.answers);
    var packet := Encode(m);
    assert packet == header + questions + (answers + m.trailer) == (header + questions) + answers + m.trailer
           == header + (questions + (answers + m.trailer)) by {
      Regroup(header, questions, answers, m.trailer);
    }
    HeaderFields(m, packet, questions + (answers + m.trailer));
    SkipsQuestions(header, m.questions, answers + m.trailer);
    ParsesRecords(header + questions, m.answers, m.trailer, qtype);
    MessageAt(packet, m.id, qtype, |header| + |questions|, AddressesOf(m.answers, qtype));
  }

  lemma HeaderFields(m: Message, packet: Bytes, rest: Bytes)
    requires MessageOk(m) && packet == EncodeHeader(m) + rest
    ensures |packet| >= 12 && packet[..2] == Be16(m.id) && packet[3] == m.flags[1]
    ensures U16At(packet, 4) == |m.questions| && U16At(packet, 6) == |m.answers|
  {
    var header := EncodeHeader(m);
    assert packet[3] == header[3];
    assert packet[4..6] == header[4..6] == Be16(|m.questions|);
    assert packet[6..8] == header[6..8] == Be16(|m.answers|);
    Be16RoundTrip(|m.questions|);
    Be16RoundTrip(|m.answers|);
  }

  // ---------- the query ----------

  function TrimDots(host: Bytes): Bytes {
    if host == [] || host[|host| - 1] != 0x2E then host else TrimDots(host[..|host| - 1])
  }

  // The labels between dots.
  function LabelsOf(host: Bytes): (r: seq<Bytes>)
    ensures |r| >= 1
  {
    if host == [] then [[]]
    else
      var rest := LabelsOf(host[1..]);
      if host[0] == 0x2E then [[]] + rest else [[host[0]] + rest[0]] + rest[1..]
  }

  ghost predicate AllLabelsOk(labels: seq<Bytes>) {
    forall i :: 0 <= i < |labels| ==> LabelOk(labels[i])
  }

  function QueryHeader(id: nat): (h: Bytes)
    requires id < 0x1_0000
    ensures |h| == 12
  {
    Be16(id) + [1, 0] + [0, 1, 0, 0, 0, 0, 0, 0]
  }

  method BuildDnsQuery(id: nat, host: Bytes, qtype: nat) returns (r: Result<Bytes, DnsError>)
    requires id < 0x1_0000 && qtype < 0x1_0000
    ensures r.Success? <==> AllLabelsOk(LabelsOf(TrimDots(host)))
    ensures r.Success? ==>
      r.value == QueryHeader(id) + EncodeLabels(LabelsOf(TrimDots(host)), [0]) + (Be16(qtype) + [0, 1])
  {
    var packet := QueryHeader(id);
    var labels := LabelsOf(TrimDots(host));
    for i := 0 to |labels|
      invariant AllLabelsOk(labels[..i])
      invariant packet == QueryHeader(id) + EncodeLabels(labels[..i], [])
    {
      var text := labels[i];
      if |text| == 0 || |text| > 63 {
        assert !LabelOk(labels[i]);
        return Failure(InvalidLabel);
      }
      OneMoreLabel(labels[..i], text);
      assert labels[..i + 1] == labels[..i] + [text];
      packet := packet + ([|text|] + text);
    }
    assert labels[..|labels|] == labels;
    EndLabels(labels, [0]);
    return Success(packet + [0] + (Be16(qtype) + [0, 1]));
  }

  lemma {:induction false} OneMoreLabel(labels: seq<Bytes>, text: Bytes)
    requires AllLabelsOk(labels) && LabelOk(text)
    ensures AllLabelsOk(labels + [text])
    ensures EncodeLabels(labels + [text], []) == EncodeLabels(labels, []) + ([|text|] + text)
  {
    if labels == [] {
      assert labels + [text] == [text] && EncodeLabels([text][1..], []) == [];
    } else {
      assert (labels + [text])[1..] == labels[1..] + [text];
      OneMoreLabel(labels[1..], text);
    }
  }

  lemma {:induction false} EndLabels(labels: seq<Bytes>, end: Bytes)
    requires AllLabelsOk(labels)
    ensures EncodeLabels(labels, []) + end == EncodeLabels(labels, end)
  {
    if labels != [] {
      EndLabels(labels[1..], end);
      assert LabelOk(labels[0]);
      var first: Bytes := [|labels[0]|] + labels[0];
      assert (first + EncodeLabels(labels[1..], [])) + end == first + (EncodeLabels(labels[1..], []) + end);
    }
  }

  // Skipping the name of a built query lands on its type and class.
  lemma QuerySkipped(id: nat, labels: seq<Bytes>, qtype: nat)
    requires id < 0x1_0000 && qtype < 0x1_0000 && AllLabelsOk(labels)
    ensures var query := QueryHeader(id) + EncodeLabels(labels, [0]) + (Be16(qtype) + [0, 1]);
      && SkipName(query, 12) == Some(|query| - 4)
      && U16At(query, |query| - 4) == qtype && U16At(query, |query| - 2) == 1
  {
    var query := QueryHeader(id) + EncodeLabels(labels, [0]) + (Be16(qtype) + [0, 1]);
    SkipsLabels(QueryHeader(id), labels, [0], Be16(qtype) + [0, 1]);
    assert query[|query| - 4..|query| - 2] == Be16(qtype) && query[|query| - 2..] == [0, 1];
    Be16RoundTrip(qtype);
  }
}
