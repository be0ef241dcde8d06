/** The decoder for shellcode behind an xor loop: undoes the xor in place and puts the message together again. */
module Xor {
  const NOP: bv8 := 0x90

  // ---------------------------------------------------------------- words in memory

  /** A little-endian machine's view of four bytes. */
  function Load(b0: bv8, b1: bv8, b2: bv8, b3: bv8): bv32 {
    (b0 as bv32) | ((b1 as bv32) << 8) | ((b2 as bv32) << 16) | ((b3 as bv32) << 24)
  }

  /** Where the bytes of a word go. */
  function Stored0(w: bv32): bv8 {
    (w & 0xff) as bv8
  }

  function Stored1(w: bv32): bv8 {
    ((w >> 8) & 0xff) as bv8
  }

  function Stored2(w: bv32): bv8 {
    ((w >> 16) & 0xff) as bv8
  }

  function Stored3(w: bv32): bv8 {
    ((w >> 24) & 0xff) as bv8
  }

  lemma StoredLoad(b0: bv8, b1: bv8, b2: bv8, b3: bv8)
    ensures var w := Load(b0, b1, b2, b3);
            Stored0(w) == b0 && Stored1(w) == b1 && Stored2(w) == b2 && Stored3(w) == b3
  {
  }

  lemma StoredXor(w: bv32, v: bv32)
    ensures Stored0(w ^ v) == Stored0(w) ^ Stored0(v) && Stored1(w ^ v) == Stored1(w) ^ Stored1(v)
    ensures Stored2(w ^ v) == Stored2(w) ^ Stored2(v) && Stored3(w ^ v) == Stored3(w) ^ Stored3(v)
  {
  }

  // ---------------------------------------------------------------- the decoding loops

  /** The byte of the repeated key that is due at place i. Keys are of one byte or of four. */
  function Due(key: seq<bv8>, i: nat): bv8
    requires IsKey(key)
  {
    if |key| == 1 then key[0] else key[i % 4]
  }

  predicate IsKey(key: seq<bv8>) {
    |key| == 1 || |key| == 4
  }

  /** The bytes before n, each combined with the byte of the repeated key that is due. */
  function Xored(s: seq<bv8>, n: nat, key: seq<bv8>): (r: seq<bv8>)
    requires IsKey(key)
    ensures |r| == |s|
    ensures forall i :: 0 <= i < |s| ==> r[i] == if i < n then s[i] ^ Due(key, i) else s[i]
  {
    seq(|s|, i requires 0 <= i < |s| => if i < n then s[i] ^ Due(key, i) else s[i])
  }

  /** How many words are decoded: a word must end before the last byte. */
  function Words(codeSize: nat, postSize: nat): nat {
    var available := if postSize == 0 then 0 else (postSize - 1) / 4;
    if codeSize < available then codeSize else available
  }

  method XorBytes(decodedMessage: array<bv8>, codeSize: nat, byteKey: bv8)
    modifies decodedMessage
    ensures decodedMessage[..] == Xored(old(decodedMessage[..]), codeSize, [byteKey])
  {
    var j := 0;
    while j < codeSize && j < decodedMessage.Length
      invariant 0 <= j <= codeSize && j <= decodedMessage.Length
      invariant decodedMessage[..] == Xored(old(decodedMessage[..]), j, [byteKey])
    {
      decodedMessage[j] := decodedMessage[j] ^ byteKey;
      j := j + 1;
    }
  }

  method XorWords(decodedMessage: array<bv8>, codeSize: nat, intKey: seq<bv8>)
    requires |intKey| == 4
    modifies decodedMessage
    ensures decodedMessage[..] == Xored(old(decodedMessage[..]), 4 * Words(codeSize, decodedMessage.Length), intKey)
  {
    ghost var before := decodedMessage[..];
    var j := 0;
    while j < codeSize && (j + 1) * 4 < decodedMessage.Length
      invariant 0 <= j <= Words(codeSize, decodedMessage.Length)
      invariant decodedMessage[..] == Xored(before, 4 * j, intKey)
      decreases codeSize - j
    {
      WordXored(before, j, intKey);
      XorWord(decodedMessage, j * 4, intKey);
      j := j + 1;
    }
  }

  method XorWord(a: array<bv8>, at: nat, intKey: seq<bv8>)
    requires |intKey| == 4 && at + 4 <= a.Length
    modifies a
    ensures a[..] == XoredWord(old(a[..]), at, intKey)
  {
    var r0, r1, r2, r3 := XorLoaded(a[at], a[at + 1], a[at + 2], a[at + 3], intKey);
    WriteFour(a, at, r0, r1, r2, r3);
  }

  method WriteFour<T>(a: array<T>, at: nat, r0: T, r1: T, r2: T, r3: T)
    requires at + 4 <= a.Length
    modifies a
    ensures a[..] == old(a[..])[at := r0][at + 1 := r1][at + 2 := r2][at + 3 := r3]
  {
    a[at], a[at + 1], a[at + 2], a[at + 3] := r0, r1, r2, r3;
  }

  /** Four bytes are read as a word, and the key is; their xor is written as four bytes. */
  method XorLoaded(b0: bv8, b1: bv8, b2: bv8, b3: bv8, intKey: seq<bv8>)
    returns (r0: bv8, r1: bv8, r2: bv8, r3: bv8)
    requires |intKey| == 4
    ensures r0 == b0 ^ intKey[0] && r1 == b1 ^ intKey[1] && r2 == b2 ^ intKey[2] && r3 == b3 ^ intKey[3]
  {
    var word, key := Load(b0, b1, b2, b3), Load(intKey[0], intKey[1], intKey[2], intKey[3]);
    StoredLoad(b0, b1, b2, b3);
    StoredLoad(intKey[0], intKey[1], intKey[2], intKey[3]);
    StoredXor(word, key);
    word := word ^ key;
    return Stored0(word), Stored1(word), Stored2(word), Stored3(word);
  }

  function XoredWord(s: seq<bv8>, at: nat, key: seq<bv8>): seq<bv8>
    requires |key| == 4 && at + 4 <= |s|
  {
    s[at := s[at] ^ key[0]][at + 1 := s[at + 1] ^ key[1]][at + 2 := s[at + 2] ^ key[2]][at + 3 := s[at + 3] ^ key[3]]
  }

  lemma FourPlaces<T>(before: seq<T>, after: seq<T>, at: nat)
    requires |after| == |before| && at + 4 <= |before|
    requires forall i :: 0 <= i < |before| && !(at <= i < at + 4) ==> after[i] == before[i]
    ensures after == before[at := after[at]][at + 1 := after[at + 1]][at + 2 := after[at + 2]][at + 3 := after[at + 3]]
  {
  }

  lemma WordXored(s: seq<bv8>, j: nat, key: seq<bv8>)
    requires |key| == 4 && 4 * j + 4 <= |s|
    ensures XoredWord(Xored(s, 4 * j, key), j * 4, key) == Xored(s, 4 * (j + 1), key)
  {
    var at := 4 * j;
    assert at % 4 == 0 && (at + 1) % 4 == 1 && (at + 2) % 4 == 2 && (at + 3) % 4 == 3;
    FourPlaces(Xored(s, at, key), Xored(s, at + 4, key), at);
  }

  // ---------------------------------------------------------------- the message put together again

  /** The groups of the pattern; key is what was captured as the key, of any length. */
  datatype Match = Match(pre: seq<bv8>, decoder: seq<bv8>, size: seq<bv8>, sizeInverted: bool,
                         key: seq<bv8>, post: seq<bv8>)

  /** A little-endian machine's view of captured bytes. */
  function Value(s: seq<bv8>): nat {
    if |s| == 0 then 0 else s[0] as nat + 256 * Value(s[1..])
  }

  /** sc_size takes 4, 2 or 1 bytes, sc_sizeinvert 4 or 1; other sizes are not read. */
  function CodeSize(m: Match): nat {
    var n := |m.size|;
    if !m.sizeInverted then
      if n == 4 || n == 2 || n == 1 then Value(m.size) else 0
    else if n == 4 then (0x1_0000_0000 - Value(m.size)) % 0x1_0000_0000
    else if n == 1 then 256 - m.size[0] as nat
    else 0
  }

  /** How many bytes the loop decodes. */
  function Span(m: Match): nat {
    if |m.key| == 1 then CodeSize(m)
    else if |m.key| == 4 then 4 * Words(CodeSize(m), |m.post|)
    else 0
  }

  function Plain(m: Match): seq<bv8> {
    if IsKey(m.key) then Xored(m.post, Span(m), m.key) else m.post
  }

  function Nops(n: nat): (r: seq<bv8>)
    ensures |r| == n && forall i :: 0 <= i < n ==> r[i] == 0x90
  {
    seq(n, _ => NOP)
  }

  lemma NopsRest(len: nat, n: nat)
    requires n <= len
    ensures Nops(len)[n..] == Nops(len - n)
  {
  }

  method Decode(m: Match) returns (decodedMessage: array<bv8>)
    ensures fresh(decodedMessage) && decodedMessage[..] == Plain(m)
  {
    decodedMessage := new bv8[|m.post|](i requires 0 <= i < |m.post| => m.post[i]);
    assert decodedMessage[..] == m.post;
    if |m.key| == 1 {
      XorBytes(decodedMessage, CodeSize(m), m.key[0]);
      assert [m.key[0]] == m.key;
    } else if |m.key| == 4 {
      XorWords(decodedMessage, CodeSize(m), m.key);
    }
  }

  /** The new message: as long as the old one, with the decoder and what no group holds turned into 0x90. */
  method HandleMatch(len: nat, m: Match) returns (newshellcode: array<bv8>)
    requires |m.pre| + |m.decoder| + |m.post| <= len
    ensures fresh(newshellcode)
    ensures newshellcode[..] == m.pre + Nops(|m.decoder|) + Plain(m) + Nops(len - |m.pre| - |m.decoder| - |m.post|)
  {
    var decodedMessage := Decode(m);
    newshellcode := new bv8[len](_ => NOP);
    assert newshellcode[..] == Nops(len);
    CopyThree(newshellcode, m.pre, Nops(|m.decoder|), decodedMessage[..]);
    NopsRest(len, |m.pre| + |m.decoder| + |m.post|);
  }

  method CopyThree<T>(dest: array<T>, a: seq<T>, b: seq<T>, c: seq<T>)
    requires |a| + |b| + |c| <= dest.Length
    modifies dest
    ensures dest[..] == a + b + c + old(dest[..])[|a| + |b| + |c|..]
  {
    Copy(dest, 0, a);
    Copy(dest, |a|, b);
    Copy(dest, |a| + |b|, c);
    ThreeCopies(old(dest[..]), a, b, c);
  }

  /** s with some of it replaced. */
  function Copied<T>(s: seq<T>, at: nat, source: seq<T>): (r: seq<T>)
    requires at + |source| <= |s|
    ensures |r| == |s|
  {
    s[..at] + source + s[at + |source|..]
  }

  lemma ThreeCopies<T>(s: seq<T>, a: seq<T>, b: seq<T>, c: seq<T>)
    requires |a| + |b| + |c| <= |s|
    ensures Copied(Copied(Copied(s, 0, a), |a|, b), |a| + |b|, c) == a + b + c + s[|a| + |b| + |c|..]
  {
    var s1 := Copied(s, 0, a);
    assert s1 == a + s[|a|..];
    var s2 := Copied(s1, |a|, b);
    assert s2 == a + b + s[|a| + |b|..];
  }

  /** memcpy */
  method Copy<T>(dest: array<T>, at: nat, source: seq<T>)
    requires at + |source| <= dest.Length
    modifies dest
    ensures dest[..] == Copied(old(dest[..]), at, source)
  {
    forall i | 0 <= i < |source| {
      dest[at + i] := source[i];
    }
  }

  // ---------------------------------------------------------------- properties

  /** The xor is undone by the same xor. */
  lemma XoredTwice(s: seq<bv8>, n: nat, key: seq<bv8>)
    requires IsKey(key)
    ensures Xored(Xored(s, n, key), n, key) == s
  {
  }

  /** What the shellcode would xor is what it had xored before. */
  lemma DecodesEncoded(m: Match, plain: seq<bv8>)
    requires IsKey(m.key) && |plain| == |m.post|
    requires m.post == Xored(plain, Span(m), m.key)
    ensures Plain(m) == plain
  {
    XoredTwice(plain, Span(m), m.key);
  }

  /** With a byte key, whatever was encoded over the size that was captured is decoded. */
  lemma ByteKeyDecodes(m: Match, plain: seq<bv8>)
    requires |m.key| == 1 && |plain| == |m.post|
    requires m.post == Xored(plain, CodeSize(m), m.key)
    ensures Plain(m) == plain
  {
    DecodesEncoded(m, plain);
  }

  lemma FlipsNothing(b: bv8, k: bv8)
    ensures b ^ k == b <==> k == 0
  {
  }

  predicate IsZero(key: seq<bv8>)
    requires |key| == 4
  {
    key[0] == 0 && key[1] == 0 && key[2] == 0 && key[3] == 0
  }

  /** What is decoded one word too short. */
  lemma ShortByAWord(plain: seq<bv8>, k: nat, n: nat, to: nat, key: seq<bv8>, i: nat)
    requires |key| == 4 && n == 4 * k && to == n + 4 <= |plain| && i < |plain|
    ensures Xored(Xored(plain, to, key), n, key)[i] == if n <= i < to then plain[i] ^ key[i - n] else plain[i]
  {
    if i < n {
      SelfInverse(plain[i], Due(key, i));
    } else if i < to {
      assert i % 4 == i - n;
    }
  }

  lemma SelfInverse(b: bv8, k: bv8)
    ensures b ^ k ^ k == b
  {
  }

  /** A last word that was encoded and is not decoded shows, unless the key is zero. */
  lemma LastWordShows(plain: seq<bv8>, k: nat, n: nat, to: nat, key: seq<bv8>)
    requires |key| == 4 && n == 4 * k && to == n + 4 <= |plain|
    ensures Xored(Xored(plain, to, key), n, key) == plain <==> IsZero(key)
  {
    var r := Xored(Xored(plain, to, key), n, key);
    forall i: nat | i < |plain|
      ensures r[i] == plain[i] <==> (n <= i < to ==> key[i - n] == 0)
    {
      ShortByAWord(plain, k, n, to, key, i);
      if n <= i < to {
        FlipsNothing(plain[i], key[i - n]);
      }
    }
    if r == plain {
      assert r[n] == plain[n] && r[n + 1] == plain[n + 1] && r[n + 2] == plain[n + 2] && r[n + 3] == plain[n + 3];
    } else {
      assert exists i: nat :: i < |plain| && r[i] != plain[i];
    }
  }

  /** A message of whole words, all of which codeSize covers. */
  predicate LastWordMissed(m: Match) {
    |m.post| > 0 && |m.post| % 4 == 0 && CodeSize(m) >= |m.post| / 4
  }

  /** The words that were encoded: as many as codeSize says, or as there are. */
  function Encoded(m: Match): nat {
    if CodeSize(m) < |m.post| / 4 then CodeSize(m) else |m.post| / 4
  }

  lemma WordsShort(m: Match)
    ensures Encoded(m) == Words(CodeSize(m), |m.post|) + if LastWordMissed(m) then 1 else 0
    ensures 4 * Encoded(m) <= |m.post|
  {
  }

  /**
   * With a word key, what was encoded over the size that was captured is decoded if and only if it is not a message
   * of whole words which that size covers to its end, unless the key is zero: the last word of such a message is left
   * as it was.
   */
  lemma WordKeyDecodes(m: Match, plain: seq<bv8>)
    requires |m.key| == 4 && |plain| == |m.post|
    requires m.post == Xored(plain, 4 * Encoded(m), m.key)
    ensures Plain(m) == plain <==> !LastWordMissed(m) || IsZero(m.key)
  {
    var k := Words(CodeSize(m), |m.post|);
    var n, to := 4 * k, 4 * Encoded(m);
    WordsShort(m);
    assert Span(m) == n;
    if LastWordMissed(m) {
      LastWordShows(plain, k, n, to, m.key);
    } else {
      XoredTwice(plain, n, m.key);
    }
  }

  /** One word, of which one byte was changed, stays so. */
  lemma LastWordExample()
    ensures var m := Match([], [], [1], false, [1, 0, 0, 0], [1, 0, 0, 0]);
            Xored([0, 0, 0, 0], 4 * Encoded(m), m.key) == m.post && Plain(m) == m.post
  {
  }

  /** The number that four captured bytes stand for. */
  function Number(b0: bv8, b1: bv8, b2: bv8, b3: bv8): nat {
    b0 as nat + 0x100 * b1 as nat + 0x1_0000 * b2 as nat + 0x100_0000 * b3 as nat
  }

  /**
   * The captured size, byte by byte: little-endian, in four, two or one bytes; or that of which it is the complement,
   * in four or one. Of any other length it is not read.
   */
  lemma SizeCaptured(m: Match)
    ensures var s, n := m.size, CodeSize(m);
            && (|s| == 4 && !m.sizeInverted ==> n == Number(s[0], s[1], s[2], s[3]))
            && (|s| == 2 && !m.sizeInverted ==> n == Number(s[0], s[1], 0, 0))
            && (|s| == 1 && !m.sizeInverted ==> n == Number(s[0], 0, 0, 0))
            && (|s| == 4 && m.sizeInverted ==>
                  n < 0x1_0000_0000 && (n + Number(s[0], s[1], s[2], s[3])) % 0x1_0000_0000 == 0)
            && (|s| == 1 && m.sizeInverted ==> n + Number(s[0], 0, 0, 0) == 0x100)
            && (|s| !in {1, 2, 4} || (|s| == 2 && m.sizeInverted) ==> n == 0)
  {
    ValueOfBytes(m.size);
  }

  lemma ValueOfBytes(s: seq<bv8>)
    ensures |s| == 4 ==> Value(s) == Number(s[0], s[1], s[2], s[3])
    ensures |s| == 2 ==> Value(s) == Number(s[0], s[1], 0, 0)
    ensures |s| == 1 ==> Value(s) == Number(s[0], 0, 0, 0)
  {
    if |s| > 0 {
      var s1 := s[1..];
      assert Value(s) == s[0] as nat + 256 * Value(s1);
      if |s| > 1 {
        var s2 := s1[1..];
        assert Value(s1) == s[1] as nat + 256 * Value(s2);
        if |s| == 4 {
          var s3 := s2[1..];
          assert Value(s2) == s[2] as nat + 256 * Value(s3);
          assert Value(s3) == s[3] as nat + 256 * Value(s3[1..]);
        }
      }
    }
  }
}
