// The encrypted record stream that carries datagrams through a relay.
module Tunnel {
  import opened Wrappers
  import opened Text

  const MAX_DATAGRAM: nat := 65_536
  const NONCE_SIZE: nat := 24
  const TAG_SIZE: nat := 16
  const MAX_RECORD: nat := NONCE_SIZE + TAG_SIZE + MAX_DATAGRAM
  const WRITE_QUEUE: nat := 1024
  const WRITE_BATCH_DATAGRAMS: nat := 128

  type Bytes = seq<byte>

  datatype Cipher = Cipher(encrypt: (Bytes, Bytes) -> Bytes, decrypt: (Bytes, Bytes) -> Option<Bytes>)

  // All that is used of secretbox: a tag is added, and decryption inverts encryption.
  ghost predicate CipherOk(cipher: Cipher) {
    forall nonce: Bytes, p: Bytes :: |nonce| == NONCE_SIZE ==>
      && |cipher.encrypt(nonce, p)| == |p| + TAG_SIZE
      && cipher.decrypt(nonce, cipher.encrypt(nonce, p)) == Some(p)
  }

  datatype TunnelError = TooLarge | Ended | BadLength | OutOfOrder | DecryptFailed

  // ---------- records ----------

  function Nonce(counter: u64): (r: Bytes)
    ensures |r| == NONCE_SIZE
  {
    Zeros(NONCE_SIZE - 8) + Be64(counter)
  }

  // What the reader asks of a nonce.
  predicate NonceIs(nonce: Bytes, counter: u64)
    requires |nonce| == NONCE_SIZE
  {
    (forall i :: 0 <= i < NONCE_SIZE - 8 ==> nonce[i] == 0) && FromBe64(nonce[NONCE_SIZE - 8..]) == counter
  }

  lemma NonceExact(a: u64, b: u64)
    ensures NonceIs(Nonce(a), b) <==> a == b
    ensures Nonce(a) == Nonce(b) ==> a == b
  {
    assert Nonce(a)[NONCE_SIZE - 8..] == Be64(a) && Nonce(b)[NONCE_SIZE - 8..] == Be64(b);
    Be64RoundTrip(a);
    Be64RoundTrip(b);
  }

  predicate Legal(payload: Bytes) {
    |payload| <= MAX_DATAGRAM
  }

  ghost function Record(cipher: Cipher, counter: u64, payload: Bytes): (r: Bytes)
    requires CipherOk(cipher) && Legal(payload)
    ensures |r| == 4 + NONCE_SIZE + |payload| + TAG_SIZE
  {
    Be32(NONCE_SIZE + |payload| + TAG_SIZE) + (Nonce(counter) + cipher.encrypt(Nonce(counter), payload))
  }

  // ---------- reading ----------

  datatype ReadResult = Got(payload: Bytes, rest: Bytes) | Stop(error: TunnelError)

  // One `read`: the length, the nonce, the ciphertext, in this order.
  function ReadRecord(cipher: Cipher, counter: u64, input: Bytes): ReadResult {
    if |input| < 4 then Stop(Ended)
    else
      var length := FromBe32(input[..4]);
      if !(NONCE_SIZE + TAG_SIZE <= length <= MAX_RECORD) then Stop(BadLength)
      else ReadBody(cipher, counter, length, input[4..])
  }

  function ReadBody(cipher: Cipher, counter: u64, length: nat, input: Bytes): ReadResult
    requires NONCE_SIZE + TAG_SIZE <= length
  {
    if |input| < NONCE_SIZE then Stop(Ended)
    else if !NonceIs(input[..NONCE_SIZE], counter) then Stop(OutOfOrder)
    else if |input| < length then Stop(Ended)
    else
      match cipher.decrypt(input[..NONCE_SIZE], input[NONCE_SIZE..length])
      case None => Stop(DecryptFailed)
      case Some(payload) => Got(payload, input[length..])
  }

  // A whole record under the expected counter is read as its payload; under any other it stops the reader.
  lemma WholeRecord(cipher: Cipher, expected: u64, counter: u64, payload: Bytes, rest: Bytes)
    requires CipherOk(cipher) && Legal(payload)
    ensures ReadRecord(cipher, expected, Record(cipher, counter, payload) + rest)
         == if counter == expected then Got(payload, rest) else Stop(OutOfOrder)
  {
    var length := NONCE_SIZE + |payload| + TAG_SIZE;
    var nonce, text := Nonce(counter), cipher.encrypt(Nonce(counter), payload);
    var input := Record(cipher, counter, payload) + rest;
    assert input[..4] == Be32(length);
    Be32RoundTrip(length);
    var body := input[4..];
    assert body == (nonce + text) + rest;
    NonceExact(counter, expected);
    assert body[..NONCE_SIZE] == nonce && body[NONCE_SIZE..length] == text && body[length..] == rest;
  }

  // A record that is cut anywhere ends the stream, like a stream that ends between records.
  lemma CutRecord(cipher: Cipher, counter: u64, payload: Bytes, n: nat)
    requires CipherOk(cipher) && Legal(payload) && n < |Record(cipher, counter, payload)|
    ensures ReadRecord(cipher, counter, Record(cipher, counter, payload)[..n]) == Stop(Ended)
  {
    var record := Record(cipher, counter, payload);
    var length := NONCE_SIZE + |payload| + TAG_SIZE;
    var input := record[..n];
    if n >= 4 {
      assert input[..4] == Be32(length);
      Be32RoundTrip(length);
      var body := input[4..];
      if n >= 4 + NONCE_SIZE {
        assert body[..NONCE_SIZE] == Nonce(counter);
        NonceExact(counter, counter);
      }
    }
  }

  // ---------- streams of frames ----------

  // Any way of framing numbered payloads and reading one frame back.
  datatype Framing = Framing(frame: (u64, Bytes) -> Bytes, read: (u64, Bytes) -> ReadResult)

  // A whole frame reads back under its own number and stops the reader under any other; a frame that
  // is cut, or missing, ends the stream; and reading consumes something.
  ghost predicate FramingOk(f: Framing) {
    && (forall e: u64, c: u64, p: Bytes, rest: Bytes :: Legal(p) ==>
      f.read(e, f.frame(c, p) + rest) == if c == e then Got(p, rest) else Stop(OutOfOrder))
    && (forall c: u64, p: Bytes, n: nat :: Legal(p) && n < |f.frame(c, p)| ==>
         f.read(c, f.frame(c, p)[..n]) == Stop(Ended))
    && (forall c: u64 :: f.read(c, []) == Stop(Ended))
    && Consumes(f.read)
  }

  ghost predicate Consumes(read: (u64, Bytes) -> ReadResult) {
    forall c: u64, input: Bytes :: read(c, input).Got? ==> |read(c, input).rest| < |input|
  }

  ghost function Records(cipher: Cipher): Framing
    requires CipherOk(cipher)
  {
    Framing((c: u64, p: Bytes) => if Legal(p) then Record(cipher, c, p) else [],
            (c: u64, input: Bytes) => ReadRecord(cipher, c, input))
  }

  // The record format is such a framing.
  lemma RecordsFrame(cipher: Cipher)
    requires CipherOk(cipher)
    ensures FramingOk(Records(cipher))
  {
    var f := Records(cipher);
    forall e: u64, c: u64, p: Bytes, rest: Bytes | Legal(p)
      ensures f.read(e, f.frame(c, p) + rest) == if c == e then Got(p, rest) else Stop(OutOfOrder)
    {
      WholeRecord(cipher, e, c, p, rest);
    }
    forall c: u64, p: Bytes, n: nat | Legal(p) && n < |f.frame(c, p)|
      ensures f.read(c, f.frame(c, p)[..n]) == Stop(Ended)
    {
      CutRecord(cipher, c, p, n);
    }
  }

  // Everything the reader hands on until it stops, and why it stops. A reader that has counted to the
  // end of u64 reads no further.
  ghost function ReadAll(f: Framing, counter: nat, input: Bytes): (seq<Bytes>, TunnelError)
    requires Consumes(f.read)
    decreases |input|
  {
    if counter > U64_MAX then ([], Ended)
    else
      match f.read(counter, input)
      case Stop(error) => ([], error)
      case Got(payload, rest) =>
        var (more, error) := ReadAll(f, counter + 1, rest);
        ([payload] + more, error)
  }

  ghost predicate AllLegal(payloads: seq<Bytes>) {
    forall i :: 0 <= i < |payloads| ==> Legal(payloads[i])
  }

  // What the writer has produced for these payloads.
  ghost function Wire(f: Framing, from: nat, payloads: seq<Bytes>): Bytes
    requires from + |payloads| <= U64_MAX
    decreases |payloads|
  {
    if payloads == [] then [] else f.frame(from, payloads[0]) + Wire(f, from + 1, payloads[1..])
  }

  // Reading what was written gives exactly what was written.
  lemma {:induction false} ReadsBack(f: Framing, from: nat, payloads: seq<Bytes>)
    requires FramingOk(f) && AllLegal(payloads) && from + |payloads| <= U64_MAX
    ensures ReadAll(f, from, Wire(f, from, payloads)) == (payloads, Ended)
    decreases |payloads|
  {
    if payloads != [] {
      var rest := Wire(f, from + 1, payloads[1..]);
      assert f.read(from, f.frame(from, payloads[0]) + rest) == Got(payloads[0], rest);
      ReadsBack(f, from + 1, payloads[1..]);
      assert [payloads[0]] + payloads[1..] == payloads;
    }
  }

  // How many whole frames the first `n` bytes hold.
  ghost function WholeFrames(f: Framing, from: nat, payloads: seq<Bytes>, n: nat): (k: nat)
    requires from + |payloads| <= U64_MAX
    ensures k <= |payloads|
    decreases |payloads|
  {
    if payloads == [] then 0
    else
      var size := |f.frame(from, payloads[0])|;
      if n < size then 0 else 1 + WholeFrames(f, from + 1, payloads[1..], n - size)
  }

  // Cut anywhere, the stream yields exactly the payloads whose frames were complete.
  lemma {:induction false} CutStream(f: Framing, from: nat, payloads: seq<Bytes>, n: nat)
    requires FramingOk(f) && AllLegal(payloads) && from + |payloads| <= U64_MAX
    requires n <= |Wire(f, from, payloads)|
    ensures ReadAll(f, from, Wire(f, from, payloads)[..n]) == (payloads[..WholeFrames(f, from, payloads, n)], Ended)
    decreases |payloads|
  {
    if payloads != [] {
      var first, rest := f.frame(from, payloads[0]), Wire(f, from + 1, payloads[1..]);
      var cut := Wire(f, from, payloads)[..n];
      if n < |first| {
        assert cut == first[..n];
      } else {
        assert cut == first + rest[..n - |first|];
        CutStream(f, from + 1, payloads[1..], n - |first|);
        var k := WholeFrames(f, from + 1, payloads[1..], n - |first|);
        assert [payloads[0]] + payloads[1..][..k] == payloads[..k + 1];
      }
    } else {
      assert Wire(f, from, payloads)[..n] == [];
    }
  }

  // Whole frames of one stream, rearranged, repeated or left out at will.
  ghost function Shuffled(f: Framing, payloads: seq<Bytes>, order: seq<nat>): Bytes
    requires |payloads| <= U64_MAX && forall i :: 0 <= i < |order| ==> order[i] < |payloads|
  {
    if order == [] then [] else f.frame(order[0], payloads[order[0]]) + Shuffled(f, payloads, order[1..])
  }

  // How long the frames still come in order, from the k-th on.
  ghost function InOrder(order: seq<nat>, k: nat): (m: nat)
    ensures m <= |order|
    ensures forall i :: 0 <= i < m ==> order[i] == k + i
    ensures m < |order| ==> order[m] != k + m
  {
    if order == [] || order[0] != k then 0
    else
      var m := InOrder(order[1..], k + 1);
      assert forall i :: 0 < i <= m ==> order[i] == order[1..][i - 1];
      m + 1
  }

  lemma ReadNext(f: Framing, counter: nat, input: Bytes, payload: Bytes, rest: Bytes)
    requires Consumes(f.read) && counter <= U64_MAX && f.read(counter, input) == Got(payload, rest)
    ensures var (more, error) := ReadAll(f, counter + 1, rest);
      ReadAll(f, counter, input) == ([payload] + more, error)
  {
  }

  lemma ReadStops(f: Framing, counter: nat, input: Bytes, error: TunnelError)
    requires Consumes(f.read) && counter <= U64_MAX && f.read(counter, input) == Stop(error)
    ensures ReadAll(f, counter, input) == ([], error)
  {
  }

  // The reader hands on a beginning of what was written, and stops at the first frame out of place.
  lemma {:induction false} ShuffledPrefix(f: Framing, payloads: seq<Bytes>, order: seq<nat>, k: nat)
    requires FramingOk(f) && AllLegal(payloads) && |payloads| <= U64_MAX && k <= |payloads|
    requires forall i :: 0 <= i < |order| ==> order[i] < |payloads|
    ensures var m := InOrder(order, k);
      && k + m <= |payloads|
      && ReadAll(f, k, Shuffled(f, payloads, order)) == (payloads[k..k + m], if m < |order| then OutOfOrder else Ended)
    decreases |order|
  {
    var m := InOrder(order, k);
    if order != [] {
      var first, rest := order[0], Shuffled(f, payloads, order[1..]);
      var input := f.frame(first, payloads[first]) + rest;
      assert f.read(k, input) == if first == k then Got(payloads[first], rest) else Stop(OutOfOrder);
      assert Shuffled(f, payloads, order) == input;
      if first == k {
        ReadNext(f, k, input, payloads[k], rest);
        ShuffledPrefix(f, payloads, order[1..], k + 1);
        assert m == 1 + InOrder(order[1..], k + 1) && [payloads[k]] + payloads[k + 1..k + m] == payloads[k..k + m];
      } else {
        ReadStops(f, k, input, OutOfOrder);
        assert payloads[k..k + m] == [];
      }
    } else {
      ReadStops(f, k, [], Ended);
      assert payloads[k..k + m] == [];
    }
  }

  // ---------- the writer and its queue ----------

  lemma EncodedRecord(cipher: Cipher, counter: u64, payload: Bytes)
    requires CipherOk(cipher) && Legal(payload)
    ensures var text := cipher.encrypt(Nonce(counter), payload);
      && NONCE_SIZE + |text| <= MAX_RECORD
      && Be32(NONCE_SIZE + |text|) + (Nonce(counter) + text) == Records(cipher).frame(counter, payload)
  {
    assert |cipher.encrypt(Nonce(counter), payload)| == |payload| + TAG_SIZE;
  }

  lemma WrittenOn(cipher: Cipher, sent: seq<Bytes>, payload: Bytes, nonce: Bytes, text: Bytes)
    requires CipherOk(cipher) && AllLegal(sent) && Legal(payload) && |sent| < U64_MAX
    requires nonce == Nonce(|sent|) && text == cipher.encrypt(nonce, payload)
    ensures AllLegal(sent + [payload]) && NONCE_SIZE + |text| <= MAX_RECORD
    ensures Wire(Records(cipher), 0, sent) + (Be32(NONCE_SIZE + |text|) + (nonce + text))
         == Wire(Records(cipher), 0, sent + [payload])
  {
    EncodedRecord(cipher, |sent|, payload);
    WireOn(Records(cipher), sent, payload, Be32(NONCE_SIZE + |text|) + (nonce + text));
    AllLegalMore(sent, payload);
  }

  lemma WireOn(f: Framing, sent: seq<Bytes>, payload: Bytes, record: Bytes)
    requires |sent| < U64_MAX && record == f.frame(|sent|, payload)
    ensures Wire(f, 0, sent) + record == Wire(f, 0, sent + [payload])
  {
    WireMore(f, 0, sent, payload);
  }

  lemma AllLegalMore(sent: seq<Bytes>, payload: Bytes)
    requires AllLegal(sent) && Legal(payload)
    ensures AllLegal(sent + [payload])
  {
  }

  class RecordWriter {
    const cipher: Cipher
    var counter: nat
    var written: Bytes
    ghost var sent: seq<Bytes>

    // The stream so far is exactly the sent payloads' records, numbered from 0 without a repeat.
    ghost predicate Valid()
      reads this
    {
      && CipherOk(cipher) && AllLegal(sent) && counter == |sent| <= U64_MAX
      && written == Wire(Records(cipher), 0, sent)
    }

    constructor (cipher: Cipher)
      requires CipherOk(cipher)
      ensures Valid() && this.cipher == cipher && sent == []
    {
      this.cipher := cipher;
      counter, written, sent := 0, [], [];
    }

    // Refused is a payload that is too long, or the last number, which is never used.
    method WriteRecord(payload: Bytes) returns (r: Result<(), TunnelError>)
      requires Valid()
      modifies this
      ensures Valid()
      ensures r.Success? <==> Legal(payload) && old(counter) < U64_MAX
      ensures sent == if r.Success? then old(sent) + [payload] else old(sent)
      ensures old(written) <= written
    {
      if |payload| > MAX_DATAGRAM || counter == U64_MAX {
        r := Failure(TooLarge);
      } else {
        var nonce := Nonce(counter);
        var ciphertext := cipher.encrypt(nonce, payload);
        // so the length check of the whole record, which follows, never fails
        WrittenOn(cipher, sent, payload, nonce, ciphertext);
        var record := Be32(NONCE_SIZE + |ciphertext|) + (nonce + ciphertext);
        written := written + record;
        counter, sent := counter + 1, sent + [payload];
        r := Success(());
      }
    }

    // One record after another, until one is refused.
    method WriteAll(batch: seq<Bytes>) returns (r: Result<(), TunnelError>, ghost count: nat)
      requires Valid()
      modifies this
      ensures Valid()
      ensures count <= |batch| && sent == old(sent) + batch[..count]
      ensures r.Success? ==> count == |batch|
    {
      r := Success(());
      var i := 0;
      while i < |batch| && r.Success?
        invariant i <= |batch| && Valid() && sent == old(sent) + batch[..i]
        decreases |batch| - i, r.Success?
      {
        AppendNext(old(sent), batch, i);
        r := WriteRecord(batch[i]);
        if r.Success? {
          i := i + 1;
        }
      }
      count := i;
    }
  }

  lemma AppendNext<T>(s: seq<T>, batch: seq<T>, i: nat)
    requires i < |batch|
    ensures (s + batch[..i]) + [batch[i]] == s + batch[..i + 1]
  {
  }

  lemma BatchSplit<T>(s: seq<T>, queue: seq<T>, n: nat, k: nat)
    requires k <= n <= |queue|
    ensures s <= s + queue[..n][..k] <= s + queue
    ensures k == n ==> (s + queue[..n][..k]) + queue[n..] == s + queue
  {
    assert queue[..n][..k] == queue[..k];
    assert s + queue == (s + queue[..k]) + queue[k..];
  }

  lemma {:induction false} WireMore(f: Framing, from: nat, payloads: seq<Bytes>, p: Bytes)
    requires from + |payloads| < U64_MAX
    ensures Wire(f, from, payloads + [p]) == Wire(f, from, payloads) + f.frame(from + |payloads|, p)
    decreases |payloads|
  {
    if payloads == [] {
      assert Wire(f, from + 1, ([p])[1..]) == [];
      assert Wire(f, from, [p]) == f.frame(from, p) + [];
      assert payloads + [p] == [p];
    } else {
      WireMore(f, from + 1, payloads[1..], p);
      assert (payloads + [p])[1..] == payloads[1..] + [p];
      var a, b, c := f.frame(from, payloads[0]), Wire(f, from + 1, payloads[1..]), f.frame(from + |payloads|, p);
      assert a + (b + c) == (a + b) + c;
    }
  }

  // Datagrams on their way to the writer task.
  class WriteQueue {
    const writer: RecordWriter
    var queue: seq<Bytes>
    // The writer task is gone, and what it had not written with it.
    var ended: bool
    ghost var offered: seq<Bytes>
    // Which of the offered datagrams were taken, in order.
    ghost var taken: seq<nat>

    ghost predicate Valid()
      reads this, writer
    {
      && writer.Valid() && |queue| <= WRITE_QUEUE && (ended ==> queue == [])
      && Selects(taken, offered) && writer.sent + queue == Selection(taken, offered)
    }

    constructor (writer: RecordWriter)
      requires writer.Valid() && writer.sent == []
      ensures Valid() && this.writer == writer && offered == [] && queue == [] && !ended
    {
      this.writer := writer;
      queue, ended, offered, taken := [], false, [], [];
    }

    // A datagram is dropped exactly when the queue is full or the writer task is gone.
    method Offer(payload: Bytes)
      requires Valid()
      modifies this`queue, this`offered, this`taken
      ensures Valid() && offered == old(offered) + [payload]
      ensures queue == if !ended && |old(queue)| < WRITE_QUEUE then old(queue) + [payload] else old(queue)
    {
      SelectMore(taken, offered, payload);
      if !ended && |queue| < WRITE_QUEUE {
        assert writer.sent + (queue + [payload]) == (writer.sent + queue) + [payload];
        queue, taken := queue + [payload], taken + [|offered|];
      }
      offered := offered + [payload];
    }

    // The task ends: it is cancelled, or a write was refused.
    method End()
      requires writer.Valid() && Selects(taken, offered) && writer.sent <= Selection(taken, offered)
      modifies this`queue, this`taken, this`ended
      ensures Valid() && ended && taken <= old(taken)
    {
      assert Selection(taken[..|writer.sent|], offered) == writer.sent;
      queue, taken, ended := [], taken[..|writer.sent|], true;
    }

    // One batch: at most 128 datagrams, written in order until one is refused.
    method WriteBatch() returns (r: Result<(), TunnelError>)
      requires Valid()
      modifies this`queue, this`taken, this`ended, writer
      ensures Valid() && offered == old(offered)
      ensures old(writer.sent) <= writer.sent <= old(writer.sent + queue)
      ensures r.Success? ==>
        && taken == old(taken) && ended == old(ended)
        && |queue|
           == |old(queue)| - (if |old(queue)| < WRITE_BATCH_DATAGRAMS then |old(queue)| else WRITE_BATCH_DATAGRAMS)
      ensures r.Failure? ==> ended && taken <= old(taken)
    {
      var n := if |queue| < WRITE_BATCH_DATAGRAMS then |queue| else WRITE_BATCH_DATAGRAMS;
      var batch := queue[..n];
      queue := queue[n..];
      ghost var count;
      r, count := writer.WriteAll(batch);
      BatchSplit(old(writer.sent), old(queue), n, count);
      if r.Failure? {
        End();
      }
    }
  }

  ghost predicate Selects(at: seq<nat>, offered: seq<Bytes>) {
    && (forall i :: 0 <= i < |at| ==> at[i] < |offered|)
    && (forall i, j :: 0 <= i < j < |at| ==> at[i] < at[j])
  }

  // The offered datagrams at these places, in order.
  ghost function Selection(at: seq<nat>, offered: seq<Bytes>): seq<Bytes>
    requires Selects(at, offered)
  {
    seq(|at|, i requires 0 <= i < |at| => offered[at[i]])
  }

  lemma SelectMore(at: seq<nat>, offered: seq<Bytes>, p: Bytes)
    requires Selects(at, offered)
    ensures Selects(at, offered + [p]) && Selection(at, offered + [p]) == Selection(at, offered)
    ensures Selects(at + [|offered|], offered + [p])
    ensures Selection(at + [|offered|], offered + [p]) == Selection(at, offered) + [p]
  {
  }

  // End to end: whatever the queue dropped and wherever the stream was cut, the far end gets some of
  // the offered datagrams, each once, in the order they were offered.
  lemma FarEnd(q: WriteQueue, n: nat)
    requires q.Valid() && n <= |q.writer.written|
    ensures var f := Records(q.writer.cipher);
            var k := WholeFrames(f, 0, q.writer.sent, n);
      && Consumes(f.read) && k <= |q.taken|
      && Selects(q.taken[..k], q.offered)
      && ReadAll(f, 0, q.writer.written[..n]) == (Selection(q.taken[..k], q.offered), Ended)
  {
    var f := Records(q.writer.cipher);
    RecordsFrame(q.writer.cipher);
    CutStream(f, 0, q.writer.sent, n);
    var k := WholeFrames(f, 0, q.writer.sent, n);
    assert q.writer.sent[..k] == (q.writer.sent + q.queue)[..k] == Selection(q.taken[..k], q.offered);
  }
}
