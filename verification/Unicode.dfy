/** The decoder for messages in which stretches of bytes were widened to 16 bits each. */
module Unicode {
  import opened Bytes
  import opened Options
  import opened Sequences

  const NOP: byte := 0x90
  const SHORTEST_DECODED := 10
  const LONGEST_IGNORED := 2000

  lemma AfterFirst(a: seq<byte>, b: seq<byte>)
    requires |a| > 0
    ensures (a + b)[0] == a[0] && (a + b)[1..] == a[1..] + b && [a[0]] + a[1..] == a
  {
  }

  lemma AfterPair(x: byte, y: byte, a: seq<byte>, b: seq<byte>)
    ensures var s := [x, y] + a + b;
            s[0] == x && s[1] == y && s[1..][0] == y && s[2..] == a + b && s[1..][1..] == a + b
    ensures [x] + [y] == [x, y]
  {
  }

  // ---------------------------------------------------------------- how long a widened stretch is

  /** How far pairs of a zero and any byte go; a last zero may stand alone. */
  function WidenedLength(s: seq<byte>): (n: nat)
    ensures n <= |s|
    ensures n > 0 <==> |s| > 0 && s[0] == 0
    decreases |s|
  {
    if |s| == 0 || s[0] != 0 then 0
    else if |s| == 1 then 1
    else 2 + WidenedLength(s[2..])
  }

  method UnicodeLength(unicode: seq<byte>) returns (length: nat)
    ensures length == WidenedLength(unicode)
  {
    var size, state := 0, 0;
    while size < |unicode|
      invariant 0 <= size <= |unicode| && (state == 0 || state == 1) && (state == 1 ==> size > 0)
      invariant state == 0 ==> WidenedLength(unicode) == size + WidenedLength(unicode[size..])
      invariant state == 1 ==>
        WidenedLength(unicode) == size - 1 + WidenedLength(unicode[size-1..]) && unicode[size-1] == 0
    {
      if state == 0 {
        if unicode[size] == 0 {
          state := 1;
        } else {
          return size;
        }
      } else {
        assert unicode[size-1..][2..] == unicode[size+1..];
        state := 0;
      }
      size := size + 1;
    }
    return |unicode|;
  }

  // ---------------------------------------------------------------- decoding

  /** Every second byte. */
  function Narrowed(s: seq<byte>): (r: seq<byte>)
    ensures |r| == |s| / 2
    decreases |s|
  {
    if |s| < 2 then [] else [s[1]] + Narrowed(s[2..])
  }

  lemma {:induction false} NarrowedAt(s: seq<byte>, i: nat)
    requires i < |s| / 2
    ensures Narrowed(s)[i] == s[2 * i + 1]
    decreases |s|
  {
    if i > 0 {
      NarrowedAt(s[2..], i - 1);
    }
  }

  /** How many bytes one step of the decoder takes, and what it makes of them. */
  function Taken(s: seq<byte>): (n: nat)
    requires |s| > 0
    ensures 1 <= n <= |s|
  {
    var size := WidenedLength(s);
    if size > SHORTEST_DECODED then size else 1
  }

  function Made(s: seq<byte>): (r: seq<byte>)
    requires |s| > 0
    ensures |r| <= Taken(s)
  {
    if WidenedLength(s) > SHORTEST_DECODED then Narrowed(s[..Taken(s)]) else [s[0]]
  }

  function Decoded(s: seq<byte>): (r: seq<byte>)
    ensures |r| <= |s|
    decreases |s|
  {
    if |s| == 0 then [] else Made(s) + Decoded(s[Taken(s)..])
  }

  /** done is the decoded form of the first at bytes. */
  predicate Progress(s: seq<byte>, at: nat, done: seq<byte>)
    requires at <= |s|
  {
    Decoded(s) == done + Decoded(s[at..])
  }

  lemma DecodedStep(s: seq<byte>, at: nat, done: seq<byte>) returns (next: nat)
    requires at < |s| && Progress(s, at, done)
    ensures next == at + Taken(s[at..]) <= |s|
    ensures Progress(s, next, done + Made(s[at..]))
  {
    next := at + Taken(s[at..]);
    var rest := s[at..];
    SkipTwice(s, at, Taken(rest), next);
    Regroup(done, Made(rest), Decoded(s[next..]));
  }

  lemma SkipTwice(s: seq<byte>, at: nat, n: nat, next: nat)
    requires at + n == next <= |s|
    ensures s[at..][n..] == s[next..]
  {
  }

  lemma DecodedBegins(s: seq<byte>)
    ensures Progress(s, 0, [])
  {
    assert s[0..] == s && [] + Decoded(s) == Decoded(s);
  }

  lemma DecodedEnds(s: seq<byte>, done: seq<byte>)
    requires Progress(s, |s|, done)
    ensures done == Decoded(s)
  {
    assert s[|s|..] == [] && done + [] == done;
  }

  /** decoded is as long as the message; what is not written is left 0x90. */
  method UnicodeTryDecode(unicode: seq<byte>) returns (decoded: array<byte>, decodedLength: nat)
    ensures fresh(decoded) && decoded.Length == |unicode|
    ensures decodedLength <= |unicode| && decoded[..decodedLength] == Decoded(unicode)
    ensures forall i :: decodedLength <= i < decoded.Length ==> decoded[i] == 0x90
  {
    decoded := new byte[|unicode|](_ => NOP);
    decodedLength := 0;
    var at := 0;
    ghost var done: seq<byte> := [];
    DecodedBegins(unicode);
    assert decoded[..0] == done;
    while at < |unicode|
      invariant 0 <= decodedLength <= at <= |unicode|
      invariant Progress(unicode, at, done) && done == decoded[..decodedLength]
      invariant forall i :: decodedLength <= i < decoded.Length ==> decoded[i] == NOP
    {
      ghost var next := DecodedStep(unicode, at, done);
      done := done + Made(unicode[at..]);
      at, decodedLength := DecodeNext(unicode, at, decoded, decodedLength);
      assert at == next;
    }
    DecodedEnds(unicode, done);
  }

  /** A round of the loop: a widened stretch that is long enough, or a single byte. */
  method DecodeNext(unicode: seq<byte>, at: nat, decoded: array<byte>, dest: nat) returns (at': nat, dest': nat)
    requires dest <= at < |unicode| == decoded.Length
    modifies decoded
    ensures at' == at + Taken(unicode[at..]) && dest <= dest' <= at' <= |unicode|
    ensures decoded[..dest'] == old(decoded[..dest]) + Made(unicode[at..])
    ensures forall i :: dest' <= i < decoded.Length ==> decoded[i] == old(decoded[i])
  {
    var size := 0;
    if unicode[at] == 0 {
      size := UnicodeLength(unicode[at..]);
    }
    assert size == WidenedLength(unicode[at..]);
    if size > SHORTEST_DECODED {
      DecodePairs(unicode, at, size, decoded, dest);
      return at + size, dest + size / 2;
    } else {
      decoded[dest] := unicode[at];
      assert decoded[..dest + 1] == old(decoded[..dest]) + [unicode[at]];
      return at + 1, dest + 1;
    }
  }

  /** The inner loop: every second byte of a widened stretch. */
  method DecodePairs(unicode: seq<byte>, at: nat, size: nat, decoded: array<byte>, dest: nat)
    requires at + size <= |unicode| == decoded.Length && dest <= at
    modifies decoded
    ensures decoded[..dest + size / 2] == old(decoded[..dest]) + Narrowed(unicode[at..][..size])
    ensures forall i :: dest + size / 2 <= i < decoded.Length ==> decoded[i] == old(decoded[i])
  {
    ghost var before, stretch := decoded[..dest], unicode[at..][..size];
    var i := 0;
    while i < size / 2
      invariant 0 <= i <= size / 2
      invariant decoded[..dest + i] == before + Narrowed(stretch)[..i]
      invariant forall j :: dest + i <= j < decoded.Length ==> decoded[j] == old(decoded[j])
    {
      NarrowedAt(stretch, i);
      decoded[dest + i] := unicode[at + i * 2 + 1];
      i := i + 1;
      assert decoded[..dest + i] == decoded[..dest + i - 1] + [decoded[dest + i - 1]];
      assert Narrowed(stretch)[..i] == Narrowed(stretch)[..i-1] + [Narrowed(stretch)[i-1]];
    }
    assert Narrowed(stretch)[..i] == Narrowed(stretch);
  }

  // ---------------------------------------------------------------- what is decoded

  /** A stretch without zeros, a widened one of six bytes or more, or a shorter one of one to five non-zero bytes. */
  datatype Piece = Plain(bytes: seq<byte>) | Wide(bytes: seq<byte>) | Short(bytes: seq<byte>)

  function Widened(bytes: seq<byte>): (r: seq<byte>)
    ensures |r| == 2 * |bytes|
  {
    if bytes == [] then [] else [0, bytes[0]] + Widened(bytes[1..])
  }

  predicate ZeroFree(bytes: seq<byte>) {
    forall i :: 0 <= i < |bytes| ==> bytes[i] != 0
  }

  predicate PieceOk(p: Piece) {
    match p
    case Plain(bytes) => bytes != [] && ZeroFree(bytes)
    case Wide(bytes) => |bytes| >= 6
    case Short(bytes) => 1 <= |bytes| <= 5 && ZeroFree(bytes)
  }

  /** A widened piece, long or short, is followed by a plain one or by nothing. */
  predicate PiecesOk(pieces: seq<Piece>) {
    pieces == [] || (PieceOk(pieces[0]) && PiecesOk(pieces[1..])
                     && (!pieces[0].Plain? && |pieces| > 1 ==> pieces[1].Plain?))
  }

  function Message(pieces: seq<Piece>): seq<byte> {
    if pieces == [] then []
    else (if pieces[0].Plain? then pieces[0].bytes else Widened(pieces[0].bytes)) + Message(pieces[1..])
  }

  /** The widened stretches are narrowed, unless they are too short. */
  function Meaning(pieces: seq<Piece>): seq<byte> {
    if pieces == [] then []
    else (if pieces[0].Short? then Widened(pieces[0].bytes) else pieces[0].bytes) + Meaning(pieces[1..])
  }

  /** Nothing, or something that does not begin with a zero, stands after a widened stretch. */
  predicate Ends(rest: seq<byte>) {
    rest == [] || rest[0] != 0
  }

  lemma {:induction false} WidenedMeasured(bytes: seq<byte>, rest: seq<byte>)
    requires Ends(rest)
    ensures WidenedLength(Widened(bytes) + rest) == 2 * |bytes|
  {
    if bytes == [] {
      assert Widened(bytes) + rest == rest;
    } else {
      AfterPair(0, bytes[0], Widened(bytes[1..]), rest);
      WidenedMeasured(bytes[1..], rest);
    }
  }

  lemma {:induction false} WidenedNarrowed(bytes: seq<byte>)
    ensures Narrowed(Widened(bytes)) == bytes
  {
    if bytes != [] {
      WidenedNarrowed(bytes[1..]);
      assert Widened(bytes)[2..] == Widened(bytes[1..]);
    }
  }

  lemma DecodedKeeps(s: seq<byte>)
    requires s != [] && WidenedLength(s) <= SHORTEST_DECODED
    ensures Decoded(s) == [s[0]] + Decoded(s[1..])
  {
  }

  lemma {:induction false} PlainKept(bytes: seq<byte>, rest: seq<byte>)
    requires ZeroFree(bytes)
    ensures Decoded(bytes + rest) == bytes + Decoded(rest)
  {
    if bytes == [] {
      assert bytes + rest == rest && bytes + Decoded(rest) == Decoded(rest);
    } else {
      AfterFirst(bytes, rest);
      DecodedKeeps(bytes + rest);
      PlainKept(bytes[1..], rest);
      Regroup([bytes[0]], bytes[1..], Decoded(rest));
    }
  }

  lemma {:induction false} ShortKept(bytes: seq<byte>, rest: seq<byte>)
    requires |bytes| <= 5 && ZeroFree(bytes) && Ends(rest)
    ensures Decoded(Widened(bytes) + rest) == Widened(bytes) + Decoded(rest)
  {
    if bytes == [] {
      assert Widened(bytes) + rest == rest && Widened(bytes) + Decoded(rest) == Decoded(rest);
    } else {
      var s, later := Widened(bytes) + rest, Widened(bytes[1..]) + rest;
      AfterPair(0, bytes[0], Widened(bytes[1..]), rest);
      WidenedMeasured(bytes, rest);
      DecodedKeeps(s);
      DecodedKeeps(s[1..]);
      ShortKept(bytes[1..], rest);
      Regroup([0], [bytes[0]], Decoded(later));
      Regroup([0, bytes[0]], Widened(bytes[1..]), Decoded(rest));
    }
  }

  lemma WideNarrowed(bytes: seq<byte>, rest: seq<byte>)
    requires |bytes| >= 6 && Ends(rest)
    ensures Decoded(Widened(bytes) + rest) == bytes + Decoded(rest)
  {
    var s, size := Widened(bytes) + rest, 2 * |bytes|;
    WidenedMeasured(bytes, rest);
    WidenedNarrowed(bytes);
    assert s[..size] == Widened(bytes) && s[size..] == rest;
  }

  /** The decoder narrows exactly the widened stretches of at least six bytes and keeps the rest as it is. */
  lemma {:induction false} DecodesMeaning(pieces: seq<Piece>)
    requires PiecesOk(pieces)
    ensures Decoded(Message(pieces)) == Meaning(pieces)
  {
    if pieces != [] {
      var p, rest := pieces[0], Message(pieces[1..]);
      DecodesMeaning(pieces[1..]);
      if |pieces| > 1 && pieces[1].Plain? {
        assert pieces[1] == pieces[1..][0] && rest[0] == pieces[1].bytes[0];
      }
      match p
      case Plain(bytes) => PlainKept(bytes, rest);
      case Wide(bytes) => WideNarrowed(bytes, rest);
      case Short(bytes) => ShortKept(bytes, rest);
    }
  }

  // ---------------------------------------------------------------- when a message is decoded at all

  /** Every second byte, from the first or from the second one on. */
  function EveryOther(s: seq<byte>, from: nat): seq<byte>
    decreases |s| - from
  {
    if from >= |s| then [] else [s[from]] + EveryOther(s, from + 2)
  }

  /** Zeros counted in the stretch at hand, and in the longest one that came to its end. */
  datatype Count = Count(uni: nat, longest: nat)

  function Counted(s: seq<byte>, c: Count): Count {
    if |s| == 0 then c
    else if s[0] == 0 then Counted(s[1..], Count(c.uni + 1, c.longest))
    else Counted(s[1..], Count(0, if c.uni > c.longest then c.uni else c.longest))
  }

  method CountZeros(shellcode: seq<byte>, from: nat, before: Count) returns (c: Count)
    ensures c == Counted(EveryOther(shellcode, from), before)
  {
    c := before;
    var i := from;
    while i < |shellcode|
      invariant Counted(EveryOther(shellcode, from), before) == Counted(EveryOther(shellcode, i), c)
      decreases |shellcode| - i
    {
      if shellcode[i] == 0 {
        c := Count(c.uni + 1, c.longest);
      } else {
        c := Count(0, if c.uni > c.longest then c.uni else c.longest);
      }
      i := i + 2;
    }
  }

  lemma {:induction false} CountedBoth(a: seq<byte>, b: seq<byte>, c: Count)
    ensures Counted(a + b, c) == Counted(b, Counted(a, c))
    decreases |a|
  {
    if |a| == 0 {
      assert a + b == b;
    } else {
      AfterFirst(a, b);
      CountedBoth(a[1..], b, if a[0] == 0 then Count(c.uni + 1, c.longest)
                             else Count(0, if c.uni > c.longest then c.uni else c.longest));
    }
  }

  /** The even places, then the odd ones. */
  function Places(s: seq<byte>): seq<byte> {
    EveryOther(s, 0) + EveryOther(s, 1)
  }

  predicate Triggers(shellcode: seq<byte>) {
    Counted(Places(shellcode), Count(0, 0)).longest > LONGEST_IGNORED
  }

  /** Two loops, one over the even and one over the odd places; the second goes on counting where the first stops. */
  method HandleShellcode(shellcode: seq<byte>) returns (newMessage: Option<seq<byte>>)
    ensures newMessage == if Triggers(shellcode) then Some(Decoded(shellcode)) else None
  {
    var c := CountZeros(shellcode, 0, Count(0, 0));
    c := CountZeros(shellcode, 1, c);
    CountedBoth(EveryOther(shellcode, 0), EveryOther(shellcode, 1), Count(0, 0));
    if c.longest > LONGEST_IGNORED {
      var decoded, decodedLength := UnicodeTryDecode(shellcode);
      return Some(decoded[..decodedLength]);
    }
    return None;
  }

  /** At least n zeros in a row end before place j. */
  predicate ZerosBefore(s: seq<byte>, j: nat, n: nat) {
    n <= j < |s| && s[j] != 0 && forall i :: j - n <= i < j ==> s[i] == 0
  }

  ghost predicate HasZeros(s: seq<byte>, n: nat) {
    exists j: nat :: ZerosBefore(s, j, n)
  }

  function Zeros(n: nat): (r: seq<byte>)
    ensures |r| == n && forall i :: 0 <= i < n ==> r[i] == 0
  {
    seq(n, _ => 0)
  }

  /** The count exceeds a bound if and only if so many zeros are followed by another byte. */
  lemma {:induction false} LongestIff(s: seq<byte>, c: Count, n: nat)
    requires n > 0
    ensures Counted(s, c).longest >= n <==> c.longest >= n || HasZeros(Zeros(c.uni) + s, n)
    decreases |s|
  {
    var all := Zeros(c.uni) + s;
    if s != [] {
      if s[0] == 0 {
        assert Zeros(c.uni + 1) + s[1..] == all;
        LongestIff(s[1..], Count(c.uni + 1, c.longest), n);
      } else {
        LongestIff(s[1..], Count(0, if c.uni > c.longest then c.uni else c.longest), n);
        assert Zeros(0) + s[1..] == s[1..];
        ZerosRestart(s, c.uni, n);
      }
    }
  }

  lemma ZerosRestart(s: seq<byte>, uni: nat, n: nat)
    requires n > 0 && s != [] && s[0] != 0
    ensures HasZeros(Zeros(uni) + s, n) <==> uni >= n || HasZeros(s[1..], n)
  {
    var all := Zeros(uni) + s;
    if HasZeros(all, n) {
      var j: nat :| ZerosBefore(all, j, n);
      if j > uni {
        assert all[uni] == s[0] && j - n > uni;
        var t, k := s[1..], j - uni - 1;
        assert forall i :: 0 <= i < |t| ==> t[i] == all[uni + 1 + i];
        assert ZerosBefore(t, k, n);
      }
    }
    if uni >= n {
      assert ZerosBefore(all, uni, n);
    }
    if HasZeros(s[1..], n) {
      var j: nat :| ZerosBefore(s[1..], j, n);
      assert ZerosBefore(all, uni + 1 + j, n);
    }
  }

  lemma {:induction false} EveryOtherLength(s: seq<byte>, from: nat)
    requires from <= |s| + 1
    ensures |EveryOther(s, from)| == (|s| + 1 - from) / 2
    decreases |s| + 1 - from
  {
    if from < |s| {
      EveryOtherLength(s, from + 2);
    }
  }

  lemma {:induction false} EveryOtherAt(s: seq<byte>, from: nat, i: nat)
    requires from + 2 * i < |s|
    ensures i < |EveryOther(s, from)| && EveryOther(s, from)[i] == s[from + 2 * i]
    decreases i
  {
    if i > 0 {
      var next, k := from + 2, i - 1;
      EveryOtherAt(s, next, k);
      assert EveryOther(s, from)[i] == EveryOther(s, next)[k];
    }
  }

  /** The place of the message that is looked at as the i-th one: the even places come before the odd ones. */
  function PlaceOf(len: nat, i: nat): nat {
    var even := (len + 1) / 2;
    if i < even then 2 * i else 2 * (i - even) + 1
  }

  lemma PlacesAt(s: seq<byte>, i: nat)
    requires i < |s|
    ensures |Places(s)| == |s| && PlaceOf(|s|, i) < |s| && Places(s)[i] == s[PlaceOf(|s|, i)]
  {
    var even := (|s| + 1) / 2;
    EveryOtherLength(s, 0);
    EveryOtherLength(s, 1);
    if i < even {
      EveryOtherAt(s, 0, i);
    } else {
      EveryOtherAt(s, 1, i - even);
    }
  }

  /** Of the places in their order, n in a row up to the j-th one hold a zero, and that one does not. */
  predicate ZerosAtPlaces(s: seq<byte>, j: nat, n: nat) {
    && n <= j < |s| && PlaceOf(|s|, j) < |s| && s[PlaceOf(|s|, j)] != 0
    && forall i :: j - n <= i < j ==> PlaceOf(|s|, i) < |s| && s[PlaceOf(|s|, i)] == 0
  }

  ghost predicate HasZerosAtPlaces(s: seq<byte>, n: nat) {
    exists j: nat :: ZerosAtPlaces(s, j, n)
  }

  lemma SamePlaces(s: seq<byte>, j: nat, n: nat)
    ensures ZerosBefore(Places(s), j, n) <==> ZerosAtPlaces(s, j, n)
  {
    var places := Places(s);
    EveryOtherLength(s, 0);
    if s != [] {
      EveryOtherLength(s, 1);
    }
    assert |places| == |s|;
    forall i: nat | i < |s| ensures PlaceOf(|s|, i) < |s| && places[i] == s[PlaceOf(|s|, i)] {
      PlacesAt(s, i);
    }
  }

  /** A message is decoded if and only if more than 2000 zeros in a row stand at every other place before a byte. */
  lemma DecodedWhen(shellcode: seq<byte>)
    ensures Triggers(shellcode) <==> HasZeros(Places(shellcode), 2001)
    ensures Triggers(shellcode) <==> HasZerosAtPlaces(shellcode, 2001)
  {
    var n := LONGEST_IGNORED + 1;
    LongestIff(Places(shellcode), Count(0, 0), n);
    assert Zeros(0) + Places(shellcode) == Places(shellcode);
    forall j: nat ensures ZerosBefore(Places(shellcode), j, n) <==> ZerosAtPlaces(shellcode, j, n) {
      SamePlaces(shellcode, j, n);
    }
  }

  lemma {:induction false} TwoBefore(x: byte, y: byte, s: seq<byte>, from: nat)
    ensures EveryOther([x, y] + s, from + 2) == EveryOther(s, from)
    decreases |s| - from
  {
    if from < |s| {
      TwoBefore(x, y, s, from + 2);
    }
  }

  /** The even places of a widened message are zeros, and the odd ones hold what was widened. */
  lemma {:induction false} WidenedPlaces(bytes: seq<byte>)
    ensures EveryOther(Widened(bytes), 0) == Zeros(|bytes|) && EveryOther(Widened(bytes), 1) == bytes
  {
    if bytes != [] {
      var later := bytes[1..];
      WidenedPlaces(later);
      TwoBefore(0, bytes[0], Widened(later), 0);
      TwoBefore(0, bytes[0], Widened(later), 1);
      assert [0] + Zeros(|later|) == Zeros(|bytes|) && [bytes[0]] + later == bytes;
    }
  }

  lemma ZerosThenBytes(bytes: seq<byte>, n: nat)
    requires ZeroFree(bytes) && n > 0
    ensures HasZeros(Zeros(|bytes|) + bytes, n) <==> |bytes| >= n
  {
    var zeros := |bytes|;
    var all := Zeros(zeros) + bytes;
    if HasZeros(all, n) {
      var j: nat :| ZerosBefore(all, j, n);
      var k := j - 1;
      assert all[j] != 0 && all[k] == 0;
      assert j <= zeros;
    }
    if zeros >= n {
      assert all[zeros] == bytes[0];
      assert ZerosBefore(all, zeros, n);
    }
  }

  /** A widened message without zeros of its own is narrowed, to exactly what was widened, if it is longer than 2000. */
  lemma WidenedHandled(bytes: seq<byte>)
    requires ZeroFree(bytes)
    ensures Triggers(Widened(bytes)) <==> |bytes| > 2000
    ensures |bytes| >= 6 ==> Decoded(Widened(bytes)) == bytes
  {
    DecodedWhen(Widened(bytes));
    WidenedPlaces(bytes);
    ZerosThenBytes(bytes, LONGEST_IGNORED + 1);
    if |bytes| >= 6 {
      WideNarrowed(bytes, []);
      assert Widened(bytes) + [] == Widened(bytes) && bytes + Decoded([]) == bytes;
    }
  }
}
