/** The traffic transcript of a socket: what was received and sent, in the order in which it happened. */
module Transcript {
  import opened Bytes
  import opened Options
  import opened Sequences

  datatype Traffic = Received(data: seq<byte>) | Sent(data: seq<byte>)

  const DIRECTION_RX := 0x1000_0000
  const DIRECTION_TX := 0x2000_0000

  /** Messages have 32-bit sizes. */
  type Word = x: int | 0 <= x < 0x1_0000_0000

  predicate HasBit(n: Word, bit: nat)
    requires bit > 0
  {
    n / bit % 2 == 1
  }

  /** n | bit */
  function WithBit(n: Word, bit: nat): Word
    requires bit == DIRECTION_RX || bit == DIRECTION_TX
  {
    if HasBit(n, bit) then n else n + bit
  }

  /** chunkInfo & ~(DIRECTION_RX|DIRECTION_TX) */
  function Length(chunkInfo: Word): nat {
    chunkInfo % DIRECTION_RX + chunkInfo / (4 * DIRECTION_RX) * (4 * DIRECTION_RX)
  }

  /** ntohl, then written to memory. */
  function BigEndian32(n: Word): (r: seq<byte>)
    ensures |r| == 4
  {
    var high := n / 0x100;
    var higher := high / 0x100;
    [higher / 0x100, higher % 0x100, high % 0x100, n % 0x100]
  }

  /** The words that lead the chunks, and the bytes of either direction without their bounds. */
  datatype Record = Record(order: seq<Word>, rx: seq<byte>, tx: seq<byte>)

  predicate Sized(m: Traffic) {
    |m.data| < 0x1_0000_0000
  }

  function Note(r: Record, m: Traffic): Record
    requires Sized(m)
  {
    match m
    case Received(data) =>
      if data == [] then r
      else r.(rx := r.rx + data, order := r.order + [WithBit(|data|, DIRECTION_RX)])
    case Sent(data) =>
      r.(tx := r.tx + data, order := r.order + [WithBit(|data|, DIRECTION_TX)])
  }

  function Noted(r: Record, ms: seq<Traffic>): Record
    requires forall m :: m in ms ==> Sized(m)
    decreases |ms|
  {
    if ms == [] then r else Noted(Note(r, ms[0]), ms[1..])
  }

  /**
   * What logTraffic writes. None where an assertion fails: a chunk without direction, a chunk that begins at or
   * extends beyond the end of its direction's bytes, or bytes that are left over.
   */
  function Written(r: Record): Option<seq<byte>>
    decreases |r.order|
  {
    if r.order == [] then
      if r.rx == [] && r.tx == [] then Some([]) else None
    else
      var info, rest := r.order[0], r.order[1..];
      var length := Length(info);
      if HasBit(info, DIRECTION_RX) then
        if r.rx == [] || length > |r.rx| then None
        else Prepended(BigEndian32(info) + r.rx[..length], Written(Record(rest, r.rx[length..], r.tx)))
      else if HasBit(info, DIRECTION_TX) then
        if r.tx == [] || length > |r.tx| then None
        else Prepended(BigEndian32(info) + r.tx[..length], Written(Record(rest, r.rx, r.tx[length..])))
      else None
  }

  function Prepended(chunk: seq<byte>, rest: Option<seq<byte>>): Option<seq<byte>> {
    match rest
    case None => None
    case Some(bytes) => Some(chunk + bytes)
  }

  // ---------------------------------------------------------------- reading a transcript

  function FromBigEndian32(b: seq<byte>): Word
    requires |b| == 4
  {
    var high: int := 0x100 * (b[0] as int) + b[1] as int;
    0x100 * (0x100 * high + b[2] as int) + b[3] as int
  }

  /** A reader of transcripts: direction in the first half-byte, then 28 bits of length, then the data. */
  function Read(bytes: seq<byte>): Option<seq<Traffic>>
    decreases |bytes|
  {
    if bytes == [] then Some([])
    else if |bytes| < 4 then None
    else
      var info := FromBigEndian32(bytes[..4]);
      var direction, end := info / 0x1000_0000, 4 + info % 0x1000_0000;
      if end > |bytes| || direction !in {1, 2} then None
      else
        match Read(bytes[end..])
        case None => None
        case Some(later) => Some([if direction == 1 then Received(bytes[4..end]) else Sent(bytes[4..end])] + later)
  }

  /** What a transcript is meant to hold: everything but the empty messages received. */
  function Worthy(ms: seq<Traffic>): seq<Traffic> {
    if ms == [] then []
    else if ms[0] == Received([]) then Worthy(ms[1..])
    else [ms[0]] + Worthy(ms[1..])
  }

  function AllReceived(ms: seq<Traffic>): seq<byte> {
    if ms == [] then [] else (if ms[0].Received? then ms[0].data else []) + AllReceived(ms[1..])
  }

  function AllSent(ms: seq<Traffic>): seq<byte> {
    if ms == [] then [] else (if ms[0].Sent? then ms[0].data else []) + AllSent(ms[1..])
  }

  function Info(m: Traffic): Word
    requires Sized(m)
  {
    WithBit(|m.data|, if m.Received? then DIRECTION_RX else DIRECTION_TX)
  }

  function Infos(ms: seq<Traffic>): seq<Word>
    requires forall m :: m in ms ==> Sized(m)
  {
    if ms == [] then []
    else (if ms[0] == Received([]) then [] else [Info(ms[0])]) + Infos(ms[1..])
  }

  /** The last message sent, if there is one, was empty. */
  predicate LastSentEmpty(ms: seq<Traffic>) {
    exists i :: 0 <= i < |ms| && ms[i] == Sent([]) && AllSent(ms[i..]) == []
  }

  lemma {:induction false} NotedAll(r: Record, ms: seq<Traffic>)
    requires forall m :: m in ms ==> Sized(m)
    ensures Noted(r, ms) == Record(r.order + Infos(ms), r.rx + AllReceived(ms), r.tx + AllSent(ms))
    decreases |ms|
  {
    if ms == [] {
      assert r.order + [] == r.order && r.rx + [] == r.rx && r.tx + [] == r.tx;
    } else {
      var m := ms[0];
      var r1 := Note(r, m);
      NotedAll(r1, ms[1..]);
      Regroup(r.order, if m == Received([]) then [] else [Info(m)], Infos(ms[1..]));
      Regroup(r.rx, if m.Received? then m.data else [], AllReceived(ms[1..]));
      Regroup(r.tx, if m.Sent? then m.data else [], AllSent(ms[1..]));
    }
  }

  lemma LastSentEmptySplit(ms: seq<Traffic>)
    requires ms != []
    ensures LastSentEmpty(ms) <==> LastSentEmpty(ms[1..]) || (ms[0] == Sent([]) && AllSent(ms[1..]) == [])
  {
    if LastSentEmpty(ms) {
      var i :| 0 <= i < |ms| && ms[i] == Sent([]) && AllSent(ms[i..]) == [];
      if i > 0 {
        assert ms[1..][i-1..] == ms[i..] && ms[1..][i-1] == ms[i];
      } else {
        assert ms[0..] == ms;
      }
    }
    if LastSentEmpty(ms[1..]) {
      var i :| 0 <= i < |ms[1..]| && ms[1..][i] == Sent([]) && AllSent(ms[1..][i..]) == [];
      assert ms[1..][i..] == ms[i+1..] && ms[1..][i] == ms[i+1];
    }
    if ms[0] == Sent([]) && AllSent(ms[1..]) == [] {
      assert ms[0..] == ms;
    }
  }

  /** A message shorter than 2^28 bytes leaves the direction bits alone. */
  lemma ShortInfo(m: Traffic)
    requires |m.data| < DIRECTION_RX
    ensures Length(Info(m)) == |m.data|
    ensures HasBit(Info(m), DIRECTION_RX) <==> m.Received?
    ensures HasBit(Info(m), DIRECTION_TX) <==> m.Sent?
    ensures Info(m) / 0x1000_0000 == (if m.Received? then 1 else 2) && Info(m) % 0x1000_0000 == |m.data|
  {
  }

  lemma BigEndian32Reads(n: Word)
    ensures FromBigEndian32(BigEndian32(n)) == n
  {
  }

  /** One chunk and then a transcript. */
  lemma ReadChunk(m: Traffic, rest: seq<byte>)
    requires |m.data| < DIRECTION_RX
    ensures Read(BigEndian32(Info(m)) + m.data + rest)
         == match Read(rest) { case None => None case Some(later) => Some([m] + later) }
  {
    var lead := BigEndian32(Info(m));
    var bytes := lead + m.data + rest;
    ShortInfo(m);
    BigEndian32Reads(Info(m));
    assert bytes[..4] == lead;
    var end := 4 + |m.data|;
    assert bytes[4..end] == m.data && bytes[end..] == rest;
  }

  lemma ReceivedWritten(m: Traffic, infos: seq<Word>, rx: seq<byte>, tx: seq<byte>)
    requires m.Received? && m.data != [] && |m.data| < DIRECTION_RX
    ensures Written(Record([Info(m)] + infos, m.data + rx, tx))
         == Prepended(BigEndian32(Info(m)) + m.data, Written(Record(infos, rx, tx)))
  {
    ShortInfo(m);
    assert ([Info(m)] + infos)[0] == Info(m) && ([Info(m)] + infos)[1..] == infos;
    assert (m.data + rx)[..|m.data|] == m.data && (m.data + rx)[|m.data|..] == rx;
  }

  lemma SentWritten(m: Traffic, infos: seq<Word>, rx: seq<byte>, tx: seq<byte>)
    requires m.Sent? && |m.data| < DIRECTION_RX
    ensures Written(Record([Info(m)] + infos, rx, m.data + tx))
         == if m.data + tx == [] then None
            else Prepended(BigEndian32(Info(m)) + m.data, Written(Record(infos, rx, tx)))
  {
    ShortInfo(m);
    assert ([Info(m)] + infos)[0] == Info(m) && ([Info(m)] + infos)[1..] == infos;
    assert (m.data + tx)[..|m.data|] == m.data && (m.data + tx)[|m.data|..] == tx;
  }

  /** Whatever is written reads as the messages themselves, and something is written unless the last sent is empty. */
  lemma {:induction false} WrittenReads(ms: seq<Traffic>)
    requires forall m :: m in ms ==> |m.data| < DIRECTION_RX
    ensures var w := Written(Record(Infos(ms), AllReceived(ms), AllSent(ms)));
            && (w.None? <==> LastSentEmpty(ms))
            && (w.Some? ==> Read(w.value) == Some(Worthy(ms)))
  {
    if ms != [] {
      var m, later := ms[0], ms[1..];
      var infos, rx, tx := Infos(later), AllReceived(later), AllSent(later);
      WrittenReads(later);
      LastSentEmptySplit(ms);
      NoneBefore(infos);
      NoneBefore(rx);
      NoneBefore(tx);
      if m != Received([]) {
        if m.Received? {
          ReceivedWritten(m, infos, rx, tx);
        } else {
          SentWritten(m, infos, rx, tx);
          EmptySent(later);
        }
        var w := Written(Record(infos, rx, tx));
        if w.Some? {
          ReadChunk(m, w.value);
        }
      }
    }
  }

  lemma EmptySent(ms: seq<Traffic>)
    ensures LastSentEmpty(ms) || AllSent(ms) != [] || forall m :: m in ms ==> m.Received?
    decreases |ms|
  {
    if ms != [] {
      EmptySent(ms[1..]);
      LastSentEmptySplit(ms);
    }
  }

  /**
   * For messages shorter than 2^28 bytes: a transcript is written unless the last message sent was empty, when an
   * assertion fails, and reading it gives back the received and the sent messages in the order of their occurrence.
   */
  lemma TranscriptReads(ms: seq<Traffic>)
    requires forall m :: m in ms ==> |m.data| < DIRECTION_RX
    ensures var w := Written(Noted(Record([], [], []), ms));
            && (w.None? <==> LastSentEmpty(ms))
            && (w.Some? ==> Read(w.value) == Some(Worthy(ms)))
  {
    NotedAll(Record([], [], []), ms);
    assert [] + Infos(ms) == Infos(ms) && [] + AllReceived(ms) == AllReceived(ms) && [] + AllSent(ms) == AllSent(ms);
    WrittenReads(ms);
  }

  /** What the sockets report: a message is sent when bytes of it were. */
  predicate Delivered(ms: seq<Traffic>) {
    forall m :: m in ms ==> |m.data| < DIRECTION_RX && (m.Sent? ==> m.data != [])
  }

  /**
   * For all traffic that sockets report, no assertion fails, and the transcript reads as the exact interleaving of the
   * messages that were received and not empty and of all that were sent.
   */
  lemma DeliveredReads(ms: seq<Traffic>)
    requires Delivered(ms)
    ensures var w := Written(Noted(Record([], [], []), ms));
            w.Some? && Read(w.value) == Some(Worthy(ms))
  {
    assert forall i :: 0 <= i < |ms| ==> ms[i] in ms;
    TranscriptReads(ms);
  }

  /**
   * Left to itself, the class fails on an empty message that is sent last, which no socket reports; one that is
   * followed by another message does no harm.
   */
  lemma EmptySentExample(b: byte)
    ensures Written(Noted(Record([], [], []), [Sent([b]), Sent([])])) == None
    ensures Written(Noted(Record([], [], []), [Sent([]), Sent([b])])).Some?
  {
    var bad, good := [Sent([b]), Sent([])], [Sent([]), Sent([b])];
    LastSentEmptySplit(bad);
    LastSentEmptySplit(bad[1..]);
    LastSentEmptySplit(good);
    LastSentEmptySplit(good[1..]);
    assert bad[1..] == [Sent([])] && good[1..] == [Sent([b])];
    TranscriptReads(bad);
    TranscriptReads(good);
  }

  // ---------------------------------------------------------------- the context of a socket

  class SocketCtx {
    var m_DataOrder: seq<Word>
    var m_DataRX: seq<byte>
    var m_DataTX: seq<byte>

    constructor ()
      ensures State() == Record([], [], [])
    {
      m_DataOrder, m_DataRX, m_DataTX := [], [], [];
    }

    ghost function State(): Record
      reads this
    {
      Record(m_DataOrder, m_DataRX, m_DataTX)
    }

    method AddMessageRX(data: seq<byte>)
      requires |data| < 0x1_0000_0000
      modifies this
      ensures State() == Note(old(State()), Received(data))
    {
      if |data| != 0 {
        m_DataRX := m_DataRX + data;
        m_DataOrder := m_DataOrder + [WithBit(|data|, DIRECTION_RX)];
      }
    }

    method AddMessageTX(data: seq<byte>)
      requires |data| < 0x1_0000_0000
      modifies this
      ensures State() == Note(old(State()), Sent(data))
    {
      m_DataTX := m_DataTX + data;
      m_DataOrder := m_DataOrder + [WithBit(|data|, DIRECTION_TX)];
    }

    /** None if an assertion fails, or a chunk reaches beyond the bytes of its direction. */
    method LogTraffic() returns (saved: Option<seq<byte>>)
      modifies this`m_DataOrder
      ensures saved == Written(old(State()))
      ensures saved.Some? ==> m_DataOrder == []
    {
      var data: seq<byte> := [];
      var offsetRX, offsetTX := 0, 0;
      ghost var before, r := State(), State();
      PrependedNothing(Written(before));
      while m_DataOrder != []
        invariant 0 <= offsetRX <= |m_DataRX| && 0 <= offsetTX <= |m_DataTX|
        invariant r == Record(m_DataOrder, m_DataRX[offsetRX..], m_DataTX[offsetTX..])
        invariant Written(before) == Prepended(data, Written(r))
        decreases |m_DataOrder|
      {
        var chunkInfo := m_DataOrder[0];
        var chunkLength := Length(chunkInfo);
        if HasBit(chunkInfo, DIRECTION_RX) {
          if !(offsetRX < |m_DataRX|) || offsetRX + chunkLength > |m_DataRX| {
            return None;
          }
          Cut(m_DataRX, offsetRX, chunkLength);
          r := ReceivedChunk(data, r);
          data := data + (BigEndian32(chunkInfo) + m_DataRX[offsetRX..offsetRX+chunkLength]);
          offsetRX := offsetRX + chunkLength;
        } else if HasBit(chunkInfo, DIRECTION_TX) {
          if !(offsetTX < |m_DataTX|) || offsetTX + chunkLength > |m_DataTX| {
            return None;
          }
          Cut(m_DataTX, offsetTX, chunkLength);
          r := SentChunk(data, r);
          data := data + (BigEndian32(chunkInfo) + m_DataTX[offsetTX..offsetTX+chunkLength]);
          offsetTX := offsetTX + chunkLength;
        } else {
          return None;
        }
        m_DataOrder := m_DataOrder[1..];
      }
      if offsetRX != |m_DataRX| || offsetTX != |m_DataTX| {
        return None;
      }
      assert data + [] == data;
      return Some(data);
    }
  }

  lemma ReceivedChunk(data: seq<byte>, r: Record) returns (r': Record)
    requires r.order != [] && HasBit(r.order[0], DIRECTION_RX) && r.rx != [] && Length(r.order[0]) <= |r.rx|
    ensures var n := Length(r.order[0]);
            && r' == Record(r.order[1..], r.rx[n..], r.tx)
            && Prepended(data, Written(r)) == Prepended(data + (BigEndian32(r.order[0]) + r.rx[..n]), Written(r'))
  {
    var n := Length(r.order[0]);
    r' := Record(r.order[1..], r.rx[n..], r.tx);
    PrependedTwice(data, BigEndian32(r.order[0]) + r.rx[..n], Written(r'));
  }

  lemma SentChunk(data: seq<byte>, r: Record) returns (r': Record)
    requires r.order != [] && !HasBit(r.order[0], DIRECTION_RX) && HasBit(r.order[0], DIRECTION_TX)
    requires r.tx != [] && Length(r.order[0]) <= |r.tx|
    ensures var n := Length(r.order[0]);
            && r' == Record(r.order[1..], r.rx, r.tx[n..])
            && Prepended(data, Written(r)) == Prepended(data + (BigEndian32(r.order[0]) + r.tx[..n]), Written(r'))
  {
    var n := Length(r.order[0]);
    r' := Record(r.order[1..], r.rx, r.tx[n..]);
    PrependedTwice(data, BigEndian32(r.order[0]) + r.tx[..n], Written(r'));
  }

  lemma Cut(s: seq<byte>, offset: nat, length: nat)
    requires offset + length <= |s|
    ensures s[offset..][..length] == s[offset..offset+length] && s[offset..][length..] == s[offset+length..]
  {
  }

  lemma PrependedNothing(rest: Option<seq<byte>>)
    ensures Prepended([], rest) == rest
  {
    if rest.Some? {
      assert [] + rest.value == rest.value;
    }
  }

  lemma PrependedTwice(a: seq<byte>, b: seq<byte>, rest: Option<seq<byte>>)
    ensures Prepended(a, Prepended(b, rest)) == Prepended(a + b, rest)
  {
    if rest.Some? {
      assert a + (b + rest.value) == (a + b) + rest.value;
    }
  }

  // ---------------------------------------------------------------- any record

  /** Whatever the record, a transcript holds all bytes of both directions, and a word for each chunk. */
  lemma {:induction false} WrittenAll(r: Record)
    ensures Written(r).Some? ==> |Written(r).value| == 4 * |r.order| + |r.rx| + |r.tx|
    decreases |r.order|
  {
    if r.order != [] {
      var info, rest := r.order[0], r.order[1..];
      var length := Length(info);
      if HasBit(info, DIRECTION_RX) {
        if r.rx != [] && length <= |r.rx| {
          WrittenAll(Record(rest, r.rx[length..], r.tx));
        }
      } else if r.tx != [] && length <= |r.tx| {
        WrittenAll(Record(rest, r.rx, r.tx[length..]));
      }
    }
  }

  /** Of any word, with high bits, two direction bits and low bits, the length is what is left without the direction. */
  lemma LengthClears(high: nat, direction: nat, low: nat)
    requires high < 4 && direction < 4 && low < DIRECTION_RX
    ensures Length(high * (4 * DIRECTION_RX) + direction * DIRECTION_RX + low) == high * (4 * DIRECTION_RX) + low
  {
  }

  /** And a direction is set in it if and only if its bit is. */
  lemma DirectionRead(high: nat, direction: nat, low: nat)
    requires high < 4 && direction < 4 && low < DIRECTION_RX
    ensures var n := high * (4 * DIRECTION_RX) + direction * DIRECTION_RX + low;
            && (HasBit(n, DIRECTION_RX) <==> direction in {1, 3}) && (HasBit(n, DIRECTION_TX) <==> direction in {2, 3})
            && WithBit(n, DIRECTION_RX) == n + (if direction in {1, 3} then 0 else DIRECTION_RX)
            && WithBit(n, DIRECTION_TX) == n + (if direction in {2, 3} then 0 else DIRECTION_TX)
  {
  }
}
