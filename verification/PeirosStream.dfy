/** Printer and parser invert each other over a stream of requests, whatever the chunks it arrives in. */
module PeirosStream {
  import opened Chars
  import opened PeirosParser

  // ---------------------------------------------------------------- well-formed requests

  predicate Word(s: string) {
    AllPrint(s) && ' ' !in s
  }

  predicate WellFormedHeader(name: string, value: string) {
    && name != "" && AllPrint(name) && ':' !in name && name[0] != ' '
    && value != "" && AllPrint(value) && value[0] != ' '
  }

  /** What a request must satisfy to survive the trip. Line lengths are bounded by the sixteen bit counters. */
  ghost predicate WellFormed(r: Request) {
    && r.command != "" && Word(r.command) && Word(r.resource)
    && (forall k :: k in r.headers ==> WellFormedHeader(k, r.headers[k]))
    && (CONTENT_LENGTH in r.headers ==> r.appendedData != "")
    && |CommandLine(r)| <= 0xffff
    && |Block(HeadLines(r)[1..])| <= 0x1_0000
    && |r.appendedData| < 0x8000_0000
  }

  /** p is what the parser makes of r: a length header is consumed, and without a body the old one is left in place. */
  predicate Received(p: Request, r: Request) {
    && p.command == r.command && p.resource == r.resource
    && p.headers == r.headers - {CONTENT_LENGTH}
    && p.appendedLength == |r.appendedData|
    && (r.appendedData != "" ==> p.appendedData == r.appendedData)
  }

  predicate AllReceived(ps: seq<Request>, rs: seq<Request>) {
    |ps| == |rs| && forall i :: 0 <= i < |ps| ==> Received(ps[i], rs[i])
  }

  ghost predicate AllWellFormed(rs: seq<Request>) {
    forall i :: 0 <= i < |rs| ==> WellFormed(rs[i])
  }

  ghost function Stream(rs: seq<Request>): string {
    if rs == [] then "" else Render(rs[0]) + Stream(rs[1..])
  }

  // ---------------------------------------------------------------- scanning what was printed

  lemma {:induction false} ScanCommandWord(t: string, post: string, inResource: bool, command: string, resource: string)
    requires Word(t)
    ensures ScanCommand(t + post, inResource, command, resource)
         == ScanCommand(post, inResource, if inResource then command else command + t,
                        if inResource then resource + t else resource).Shift(|t|)
  {
    if t == "" {
      assert t + post == post && command + t == command && resource + t == resource;
    } else {
      assert (t + post)[1..] == t[1..] + post;
      if inResource {
        ScanCommandWord(t[1..], post, true, command, resource + [t[0]]);
        assert resource + [t[0]] + t[1..] == resource + t;
      } else {
        ScanCommandWord(t[1..], post, false, command + [t[0]], resource);
        assert command + [t[0]] + t[1..] == command + t;
      }
    }
  }

  lemma ScanCommandEnd(post: string, inResource: bool, command: string, resource: string)
    ensures ScanCommand(CRLF + post, inResource, command, resource) == CommandScan(true, command, resource, 0)
  {
    assert (CRLF + post)[1..] == "\n" + post;
  }

  lemma ScanCommandSpace(post: string, command: string, resource: string)
    ensures ScanCommand(" " + post, false, command, resource) == ScanCommand(post, true, command, resource).Shift(1)
  {
    assert (" " + post)[1..] == post;
  }

  lemma ScanCommandLine(r: Request, post: string)
    requires WellFormed(r)
    ensures ScanCommand(CommandLine(r) + (CRLF + post), false, "", "")
         == CommandScan(true, r.command, r.resource, |CommandLine(r)|)
  {
    if r.resource == "" {
      ScanCommandWord(r.command, CRLF + post, false, "", "");
      ScanCommandEnd(post, false, r.command, "");
    } else {
      var tail := r.resource + (CRLF + post);
      assert CommandLine(r) + (CRLF + post) == r.command + (" " + tail);
      ScanCommandWord(r.command, " " + tail, false, "", "");
      ScanCommandSpace(tail, r.command, "");
      ScanCommandWord(r.resource, CRLF + post, true, r.command, "");
      ScanCommandEnd(post, true, r.command, r.resource);
      assert "" + r.command == r.command && "" + r.resource == r.resource;
    }
  }

  lemma {:induction false} ScanName(t: string, post: string, header: string, value: string,
                                    headers: map<string, string>, length: nat)
    requires AllPrint(t) && ':' !in t
    ensures ScanHeaders(t + post, ReadHeader, header, value, headers, length)
         == ScanHeaders(post, ReadHeader, header + t, value, headers, length).Shift(|t|)
  {
    if t == "" {
      assert t + post == post && header + t == header;
    } else {
      assert (t + post)[1..] == t[1..] + post;
      ScanName(t[1..], post, header + [t[0]], value, headers, length);
      assert header + [t[0]] + t[1..] == header + t;
    }
  }

  lemma {:induction false} ScanValue(t: string, post: string, header: string, value: string,
                                     headers: map<string, string>, length: nat)
    requires AllPrint(t)
    ensures ScanHeaders(t + post, ReadVal, header, value, headers, length)
         == ScanHeaders(post, ReadVal, header, value + t, headers, length).Shift(|t|)
  {
    if t == "" {
      assert t + post == post && value + t == value;
    } else {
      assert (t + post)[1..] == t[1..] + post;
      ScanValue(t[1..], post, header, value + [t[0]], headers, length);
      assert value + [t[0]] + t[1..] == value + t;
    }
  }

  lemma ScanHeaderName(name: string, post: string, header: string, value: string,
                       headers: map<string, string>, length: nat)
    requires name != "" && AllPrint(name) && ':' !in name && name[0] != ' '
    ensures ScanHeaders(name + (": " + post), SeekHeader, header, value, headers, length)
         == ScanHeaders(post, SeekVal, name, value, headers, length).Shift(|name| + 2)
  {
    var tail := ": " + post;
    assert (name + tail)[1..] == name[1..] + tail;
    ScanName(name[1..], tail, [name[0]], value, headers, length);
    assert [name[0]] + name[1..] == name;
    assert tail[1..] == " " + post && (" " + post)[1..] == post;
  }

  lemma ScanHeaderValue(v: string, post: string, header: string, value: string,
                        headers: map<string, string>, length: nat)
    requires v != "" && AllPrint(v) && v[0] != ' '
    ensures ScanHeaders(v + (CRLF + post), SeekVal, header, value, headers, length)
         == ScanHeaders(post, SeekHeader, header, v, StoreHeader(headers, header, v),
                        StoreLength(length, header, v)).Shift(|v| + 2)
  {
    var tail := CRLF + post;
    assert (v + tail)[1..] == v[1..] + tail;
    ScanValue(v[1..], tail, header, [v[0]], headers, length);
    assert [v[0]] + v[1..] == v;
    assert tail[1..] == "\n" + post && ("\n" + post)[1..] == post;
  }

  lemma ScanHeaderLine(name: string, v: string, post: string, header: string, value: string,
                       headers: map<string, string>, length: nat)
    requires WellFormedHeader(name, v)
    ensures ScanHeaders(HeaderLine(name, v) + CRLF + post, SeekHeader, header, value, headers, length)
         == ScanHeaders(post, SeekHeader, name, v, StoreHeader(headers, name, v),
                        StoreLength(length, name, v)).Shift(|HeaderLine(name, v)| + 2)
  {
    assert HeaderLine(name, v) + CRLF + post == name + (": " + (v + (CRLF + post)));
    ScanHeaderName(name, v + (CRLF + post), header, value, headers, length);
    ScanHeaderValue(v, post, name, value, headers, length);
  }

  /** The header map after the lines for the keys in order, the length header excepted. */
  function StoreAll(order: seq<string>, headers: map<string, string>, into: map<string, string>): map<string, string>
    requires forall k :: k in order ==> k in headers
  {
    if order == [] then into
    else StoreAll(order[1..], headers, StoreHeader(into, order[0], headers[order[0]]))
  }

  lemma {:induction false} StoreAllKeys(order: seq<string>, headers: map<string, string>, into: map<string, string>)
    requires forall k :: k in order ==> k in headers
    requires forall k :: k in into ==> k in headers && k != CONTENT_LENGTH && into[k] == headers[k]
    ensures var all := StoreAll(order, headers, into);
            && (forall k :: k in all ==> k in headers && k != CONTENT_LENGTH && all[k] == headers[k])
            && (forall k :: (k in order || k in into) && k != CONTENT_LENGTH ==> k in all)
  {
    if order != [] {
      StoreAllKeys(order[1..], headers, StoreHeader(into, order[0], headers[order[0]]));
    }
  }

  lemma StoreAllHeaders(headers: map<string, string>)
    ensures StoreAll(MapOrder(headers.Keys), headers, map[]) == headers - {CONTENT_LENGTH}
  {
    StoreAllKeys(MapOrder(headers.Keys), headers, map[]);
    assert StoreAll(MapOrder(headers.Keys), headers, map[]).Keys == headers.Keys - {CONTENT_LENGTH};
  }

  /** The end of a header block: the length line if there is a body, then the empty line. */
  lemma ScanBlockEnd(data: string, post: string, header: string, value: string,
                     into: map<string, string>, length: nat)
    requires |data| < 0x8000_0000
    ensures var block := Block(LengthLines(data));
            ScanHeaders(block + post, SeekHeader, header, value, into, length)
            == HeaderScan(true, into, if data == "" then length else |data|, |block| - 1)
  {
    assert (CRLF + post)[0] == '\r';
    if data == "" {
      assert Block(LengthLines(data)) == CRLF;
    } else {
      var value' := Decimal(|data|);
      DecimalDigits(|data|);
      AtoiDecimal(|data|);
      var line := HeaderLine(CONTENT_LENGTH, value');
      assert Block(LengthLines(data)) == line + CRLF + CRLF;
      assert line + CRLF + CRLF + post == line + CRLF + (CRLF + post);
      ScanHeaderLine(CONTENT_LENGTH, value', CRLF + post, header, value, into, length);
    }
  }

  lemma {:induction false} ScanBlock(order: seq<string>, headers: map<string, string>, data: string, post: string,
                                     header: string, value: string, into: map<string, string>, length: nat)
    requires forall k :: k in order ==> k in headers && WellFormedHeader(k, headers[k])
    requires CONTENT_LENGTH in order ==> data != ""
    requires |data| < 0x8000_0000
    ensures var block := Block(HeaderLines(order, headers) + LengthLines(data));
            ScanHeaders(block + post, SeekHeader, header, value, into, length)
            == HeaderScan(true, StoreAll(order, headers, into), if data == "" then length else |data|, |block| - 1)
  {
    if order == [] {
      assert HeaderLines(order, headers) + LengthLines(data) == LengthLines(data);
      ScanBlockEnd(data, post, header, value, into, length);
    } else {
      var k := order[0];
      var line := HeaderLine(k, headers[k]);
      var rest := HeaderLines(order[1..], headers) + LengthLines(data);
      BlockStep(line, rest, post);
      assert HeaderLines(order, headers) + LengthLines(data) == [line] + rest;
      ScanHeaderLine(k, headers[k], Block(rest) + post, header, value, into, length);
      ScanBlock(order[1..], headers, data, post, k, headers[k], StoreHeader(into, k, headers[k]),
                StoreLength(length, k, headers[k]));
    }
  }

  lemma BlockStep(line: string, rest: seq<string>, post: string)
    ensures Block([line] + rest) + post == line + CRLF + (Block(rest) + post)
    ensures |Block([line] + rest)| == |line| + 2 + |Block(rest)|
  {
    assert ([line] + rest)[1..] == rest;
    assert Block([line] + rest) == line + CRLF + Block(rest);
  }

  lemma CounterExact(n: nat)
    requires n <= 0xffff
    ensures Counter16(n) == n
  {
    if n > 0 {
      CounterExact(n - 1);
    }
  }

  // ---------------------------------------------------------------- one whole head

  /** The head of r as the parser's buffer starts with it: command line, line break, header block. */
  lemma HeadSplit(r: Request)
    ensures Block(HeadLines(r)) == CommandLine(r) + (CRLF + Block(HeadLines(r)[1..]))
    ensures HeadLines(r)[1..] == HeaderLines(MapOrder(r.headers.Keys), r.headers) + LengthLines(r.appendedData)
  {
  }

  lemma HeadBefore(r: Request, tail: string, post: string)
    requires tail == Block(HeadLines(r)[1..])
    ensures Block(HeadLines(r)) + post == CommandLine(r) + (CRLF + (tail + post))
  {
    HeadSplit(r);
    var first := CommandLine(r);
    assert first + (CRLF + tail) + post == first + (CRLF + (tail + post));
  }

  lemma HeadCommand(s: ParserState, r: Request, tail: string)
    requires WellFormed(r)
    requires s.inBuffer == CommandLine(r) + (CRLF + tail)
    ensures ParseCommandResult(s)
         == (s.(inBuffer := tail, current := s.current.(command := r.command, resource := r.resource)), true)
  {
    ScanCommandLine(r, tail);
    CounterExact(|CommandLine(r)|);
    assert s.inBuffer[|CommandLine(r)| + 2..] == tail;
  }

  lemma {:induction false} BlockEnds(lines: seq<string>)
    ensures |Block(lines)| >= 2
    ensures Block(lines)[|Block(lines)| - 2..] == CRLF
  {
    if lines != [] {
      BlockEnds(lines[1..]);
    }
  }

  lemma BlockLastLineFeed(lines: seq<string>, post: string)
    ensures |Block(lines)| >= 2
    ensures (Block(lines) + post)[|Block(lines)| - 1..] == "\n" + post
  {
    BlockEnds(lines);
    var block := Block(lines);
    var s, n := block + post, |block| - 1;
    assert block[|block| - 2..][1] == block[n] == '\n';
    assert s[n..] == block[n..] + post && block[n..] == [block[n]];
  }

  lemma HeadersTaken(s: ParserState, block: string, post: string, headers: map<string, string>, length: nat)
    requires 2 <= |block| <= 0x1_0000
    requires s.inBuffer == block + post && (block + post)[|block| - 1..] == "\n" + post
    requires ScanHeaders(s.inBuffer, SeekHeader, "", "", s.current.headers, s.current.appendedLength)
          == HeaderScan(true, headers, length, |block| - 1)
    ensures ParseHeadersResult(s)
         == (s.(inBuffer := post, current := s.current.(headers := headers, appendedLength := length)), true)
  {
    CounterExact(|block| - 1);
    assert ("\n" + post)[1..] == post;
  }

  lemma HeadHeaders(s: ParserState, r: Request, post: string)
    requires WellFormed(r)
    requires s.inBuffer == Block(HeadLines(r)[1..]) + post
    requires s.current.headers == map[] && s.current.appendedLength == 0
    ensures ParseHeadersResult(s)
         == (s.(inBuffer := post,
                current := s.current.(headers := r.headers - {CONTENT_LENGTH},
                                      appendedLength := |r.appendedData|)), true)
  {
    HeadSplit(r);
    ScanBlock(MapOrder(r.headers.Keys), r.headers, r.appendedData, post, "", "", map[], 0);
    StoreAllHeaders(r.headers);
    BlockLastLineFeed(HeadLines(r)[1..], post);
    HeadersTaken(s, Block(HeadLines(r)[1..]), post, r.headers - {CONTENT_LENGTH}, |r.appendedData|);
  }

  // ---------------------------------------------------------------- the first blank line ends the head

  predicate CleanLine(line: string) {
    line != "" && forall i :: 0 <= i < |line| ==> line[i] != '\r'
  }

  lemma {:induction false} BlankLineLast(lines: seq<string>, post: string, i: nat)
    requires forall j :: 0 <= j < |lines| ==> CleanLine(lines[j])
    requires i + 4 < |Block(lines)|
    ensures !BlankLineAt(Block(lines) + post, i)
  {
    var line, rest := lines[0], Block(lines[1..]);
    var all := Block(lines) + post;
    assert all == line + CRLF + rest + post;
    if i < |line| {
      assert all[i..i+4][0] == line[i];
    } else if i == |line| {
      assert lines[1..] != [];
      assert all[i..i+4][2] == rest[0] == lines[1][0];
    } else if i == |line| + 1 {
      assert all[i..i+4][0] == '\n';
    } else {
      var k := i - |line| - 2;
      BlankLineLast(lines[1..], post, k);
      assert all[i..i+4] == (rest + post)[k..k+4];
    }
  }

  lemma {:induction false} HeaderLinesClean(order: seq<string>, headers: map<string, string>)
    requires forall k :: k in order ==> k in headers && WellFormedHeader(k, headers[k])
    ensures forall j :: 0 <= j < |HeaderLines(order, headers)| ==> CleanLine(HeaderLines(order, headers)[j])
  {
    if order != [] {
      HeaderLinesClean(order[1..], headers);
      assert CleanLine(HeaderLine(order[0], headers[order[0]]));
    }
  }

  lemma HeadClean(r: Request)
    requires WellFormed(r)
    ensures forall j :: 0 <= j < |HeadLines(r)| ==> CleanLine(HeadLines(r)[j])
  {
    HeaderLinesClean(MapOrder(r.headers.Keys), r.headers);
    DecimalDigits(|r.appendedData|);
  }

  lemma EndOfHead(buffer: string, head: string)
    requires 4 <= |head| <= |buffer| && buffer[..|head|] == head
    ensures buffer[|head| - 4..|head|] == head[|head| - 4..]
  {
  }

  /** A buffer that starts a printed request holds a blank line exactly when it holds the whole head. */
  lemma BlankLineIffHead(buffer: string, future: string, r: Request, post: string)
    requires WellFormed(r)
    requires buffer + future == Block(HeadLines(r)) + post
    ensures HasBlankLine(buffer) <==> |Block(HeadLines(r))| <= |buffer|
  {
    var head := Block(HeadLines(r));
    HeadSplit(r);
    HeadClean(r);
    BlockEnds(HeadLines(r)[1..]);
    if HasBlankLine(buffer) {
      var i :| 0 <= i < |buffer| && BlankLineAt(buffer, i);
      assert (buffer + future)[i..i+4] == buffer[i..i+4];
      if i + 4 < |head| {
        BlankLineLast(HeadLines(r), post, i);
      }
    }
    if |head| <= |buffer| {
      HeadEndsBlank(HeadLines(r));
      TakePrefix(buffer, future, head, post);
      EndOfHead(buffer, head);
      assert BlankLineAt(buffer, |head| - 4);
    }
  }

  lemma {:induction false} HeadEndsBlank(lines: seq<string>)
    requires lines != []
    ensures |Block(lines)| >= 4 && Block(lines)[|Block(lines)| - 4..] == BLANK_LINE
  {
    if |lines| > 1 {
      HeadEndsBlank(lines[1..]);
    }
  }

  // ---------------------------------------------------------------- the parser in the middle of a stream

  predicate Awaiting(current: Request, r: Request) {
    && current.command == r.command && current.resource == r.resource
    && current.headers == r.headers - {CONTENT_LENGTH}
    && current.appendedLength == |r.appendedData| > 0
  }

  /** Of the requests rs, the first k are parsed, and got of these handed out; the bytes in future are yet to arrive. */
  ghost predicate Mid(s: ParserState, got: seq<Request>, rs: seq<Request>, k: nat, future: string) {
    && k <= |rs| && AllWellFormed(rs)
    && AllReceived(got + s.requests, rs[..k])
    && !s.malformed
    && if s.current.command != "" && s.current.appendedLength != 0 then
         && k < |rs| && Awaiting(s.current, rs[k])
         && s.inBuffer + future == rs[k].appendedData + Stream(rs[k+1..])
       else
         && (s.current.command == "" ==> s.current.headers == map[])
         && s.inBuffer + future == Stream(rs[k..])
  }

  /** Nothing more can be parsed: the last byte of the next request has not arrived. */
  ghost predicate Settled(s: ParserState, got: seq<Request>, rs: seq<Request>, k: nat, future: string) {
    Mid(s, got, rs, k, future) && (k < |rs| ==> |Stream(rs[k+1..])| < |future|)
  }

  lemma StreamStep(rs: seq<Request>, k: nat)
    requires k < |rs|
    ensures Stream(rs[k..]) == Block(HeadLines(rs[k])) + (rs[k].appendedData + Stream(rs[k+1..]))
    ensures rs[..k+1] == rs[..k] + [rs[k]]
  {
    assert rs[k..][0] == rs[k] && rs[k..][1..] == rs[k+1..];
  }

  lemma AllReceivedExtend(got: seq<Request>, ps: seq<Request>, p: Request, rs: seq<Request>, k: nat)
    requires k < |rs| && AllReceived(got + ps, rs[..k]) && Received(p, rs[k])
    ensures AllReceived(got + (ps + [p]), rs[..k+1])
  {
    assert got + (ps + [p]) == (got + ps) + [p];
  }

  lemma HeadParsed(s: ParserState, r: Request, post: string)
    requires WellFormed(r)
    requires s.current.command == "" && s.current.headers == map[]
    requires s.inBuffer == Block(HeadLines(r)) + post
    requires HasBlankLine(s.inBuffer)
    ensures var current := Request(r.command, r.resource, r.headers - {CONTENT_LENGTH},
                                   s.current.appendedData, |r.appendedData|);
            var s2 := s.(inBuffer := post, current := current);
            ParseRequestResult(s)
            == if r.appendedData == "" then (s2.(requests := s2.requests + [current]), true) else FinishRequest(s2)
  {
    var s0 := s.(current := s.current.(appendedLength := 0));
    var tail := Block(HeadLines(r)[1..]);
    HeadBefore(r, tail, post);
    HeadCommand(s0, r, tail + post);
    HeadHeaders(ParseCommandResult(s0).0, r, post);
  }

  lemma FinishMid(s: ParserState, got: seq<Request>, rs: seq<Request>, k: nat, future: string) returns (k': nat)
    requires Mid(s, got, rs, k, future)
    requires s.current.command != ""
    ensures var (s', more) := FinishRequest(s);
            k <= k' && Mid(s', got, rs, k', future) && (!more ==> Settled(s', got, rs, k', future))
  {
    k' := k;
    var length := s.current.appendedLength;
    if length != 0 && length <= |s.inBuffer| {
      var data := rs[k].appendedData;
      TakePrefix(s.inBuffer, future, data, Stream(rs[k+1..]));
      AllReceivedExtend(got, s.requests, s.current.(appendedData := data), rs, k);
      k' := k + 1;
    }
  }

  lemma ParseRequestMid(s: ParserState, got: seq<Request>, rs: seq<Request>, k: nat, future: string) returns (k': nat)
    requires Mid(s, got, rs, k, future)
    ensures var (s', more) := ParseRequestResult(s);
            k <= k' && Mid(s', got, rs, k', future) && (!more ==> Settled(s', got, rs, k', future))
  {
    if s.current.command != "" {
      k' := FinishMid(s, got, rs, k, future);
    } else if k == |rs| {
      assert rs[k..] == [];
      assert s.inBuffer == "";
      k' := k;
    } else {
      StreamStep(rs, k);
      var r := rs[k];
      var head, tail := Block(HeadLines(r)), r.appendedData + Stream(rs[k+1..]);
      BlankLineIffHead(s.inBuffer, future, r, tail);
      k' := k;
      if HasBlankLine(s.inBuffer) {
        var post := s.inBuffer[|head|..];
        TakePrefix(s.inBuffer, future, head, tail);
        HeadParsed(s, r, post);
        var current := Request(r.command, r.resource, r.headers - {CONTENT_LENGTH},
                               s.current.appendedData, |r.appendedData|);
        if r.appendedData == "" {
          AllReceivedExtend(got, s.requests, current, rs, k);
          k' := k + 1;
        } else {
          k' := FinishMid(s.(inBuffer := post, current := current), got, rs, k, future);
        }
      }
    }
  }

  lemma {:induction false} DrainMid(s: ParserState, got: seq<Request>, rs: seq<Request>, k: nat, future: string)
    returns (k': nat)
    requires Mid(s, got, rs, k, future)
    ensures k <= k' && Settled(Drain(s), got, rs, k', future)
    decreases Work(s)
  {
    var (s', more) := ParseRequestResult(s);
    k' := ParseRequestMid(s, got, rs, k, future);
    if more {
      ParseRequestProgress(s);
      k' := DrainMid(s', got, rs, k', future);
    }
  }

  // ---------------------------------------------------------------- whole runs

  /** A caller hands in received bytes, or takes out a request if there is one. */
  datatype Op = Feed(data: string) | Get

  function Step(s: ParserState, got: seq<Request>, op: Op): (ParserState, seq<Request>) {
    match op
    case Feed(data) => (ParseDataResult(s, data), got)
    case Get => if s.requests == [] then (s, got) else (s.(requests := s.requests[1..]), got + [s.requests[0]])
  }

  function Run(s: ParserState, got: seq<Request>, ops: seq<Op>): (ParserState, seq<Request>)
    decreases |ops|
  {
    if ops == [] then (s, got)
    else
      var (s', got') := Step(s, got, ops[0]);
      Run(s', got', ops[1..])
  }

  function FedBy(op: Op): string {
    if op.Feed? then op.data else ""
  }

  /** The bytes a run hands in, in whatever pieces. */
  function Fed(ops: seq<Op>): string {
    if ops == [] then "" else FedBy(ops[0]) + Fed(ops[1..])
  }

  lemma FeedMid(s: ParserState, got: seq<Request>, data: string, rs: seq<Request>, k: nat, future: string)
    returns (k': nat)
    requires Mid(s, got, rs, k, data + future)
    ensures k <= k' && Settled(ParseDataResult(s, data), got, rs, k', future)
  {
    var s0 := s.(inBuffer := s.inBuffer + data, malformed := false);
    assert s0.inBuffer + future == s.inBuffer + (data + future);
    k' := DrainMid(s0, got, rs, k, future);
  }

  lemma GetMid(s: ParserState, got: seq<Request>, rs: seq<Request>, k: nat, future: string)
    requires Settled(s, got, rs, k, future) && s.requests != []
    ensures Settled(s.(requests := s.requests[1..]), got + [s.requests[0]], rs, k, future)
  {
    assert got + [s.requests[0]] + s.requests[1..] == got + s.requests;
  }

  lemma StepMid(s: ParserState, got: seq<Request>, op: Op, rs: seq<Request>, k: nat, future: string)
    returns (k': nat)
    requires Settled(s, got, rs, k, FedBy(op) + future)
    ensures var (s', got') := Step(s, got, op);
            k <= k' && Settled(s', got', rs, k', future)
  {
    match op
    case Feed(data) =>
      k' := FeedMid(s, got, data, rs, k, future);
    case Get =>
      k' := k;
      assert "" + future == future;
      if s.requests != [] {
        GetMid(s, got, rs, k, future);
      }
  }

  lemma FedSplit(ops: seq<Op>, future: string)
    requires ops != []
    ensures Fed(ops) + future == FedBy(ops[0]) + (Fed(ops[1..]) + future)
  {
  }

  lemma {:induction false} RunMid(s: ParserState, got: seq<Request>, ops: seq<Op>,
                                  rs: seq<Request>, k: nat, pending: string, future: string)
    returns (k': nat)
    requires pending == Fed(ops) + future
    requires Settled(s, got, rs, k, pending)
    ensures k <= k' && Settled(Run(s, got, ops).0, Run(s, got, ops).1, rs, k', future)
    decreases |ops|
  {
    if ops == [] {
      assert pending == future;
      k' := k;
    } else {
      var (s1, got1) := Step(s, got, ops[0]);
      var later := Fed(ops[1..]) + future;
      FedSplit(ops, future);
      var k1 := StepMid(s, got, ops[0], rs, k, later);
      k' := RunMid(s1, got1, ops[1..], rs, k1, later, future);
    }
  }

  const Fresh := ParserState("", false, [], Request("", "", map[], "", 0))

  lemma FreshSettled(rs: seq<Request>, whole: string)
    requires AllWellFormed(rs) && whole == Stream(rs)
    ensures Settled(Fresh, [], rs, 0, whole)
  {
    assert rs[0..] == rs && rs[..0] == [];
    assert Fresh.inBuffer + whole == whole;
    if 0 < |rs| {
      StreamStep(rs, 0);
      HeadEndsBlank(HeadLines(rs[0]));
    }
  }

  lemma SettledEnd(s: ParserState, got: seq<Request>, rs: seq<Request>, k: nat, future: string)
    requires Settled(s, got, rs, k, future)
    ensures future == "" ==> k == |rs| && s.inBuffer == ""
    ensures |future| <= |Stream(rs[k..])|
  {
    if k < |rs| {
      StreamStep(rs, k);
    } else {
      assert rs[k..] == [];
    }
  }

  /**
   * The bytes of the printed requests may arrive in any chunks, and requests may be taken out at any time: after
   * any part of the stream, no chunk was malformed, and handed out or queued are, in order, exactly those requests
   * whose last byte has arrived.
   */
  lemma StreamRoundTrip(rs: seq<Request>, ops: seq<Op>, future: string) returns (k: nat)
    requires AllWellFormed(rs)
    requires Fed(ops) + future == Stream(rs)
    ensures var (s, got) := Run(Fresh, [], ops);
            && !s.malformed
            && k <= |rs| && AllReceived(got + s.requests, rs[..k])
            && (k < |rs| ==> |Stream(rs[k+1..])| < |future|)
            && (future == "" ==> k == |rs| && s.inBuffer == "")
            && |future| <= |Stream(rs[k..])|
  {
    var whole := Fed(ops) + future;
    FreshSettled(rs, whole);
    k := RunMid(Fresh, [], ops, rs, 0, whole, future);
    SettledEnd(Run(Fresh, [], ops).0, Run(Fresh, [], ops).1, rs, k, future);
  }
}
