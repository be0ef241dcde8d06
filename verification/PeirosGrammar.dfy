/** Which streams the parser calls malformed: a grammar of command line and header block, for every buffer. */
module PeirosGrammar {
  import opened Chars
  import opened PeirosParser
  import opened Sequences

  // ---------------------------------------------------------------- the grammar

  predicate Valid(c: char) {
    IsPrint(c) || IsSpace(c)
  }

  /** A command line of n printable characters and a line break begin the text. */
  predicate CommandAt(b: string, n: nat) {
    n + 2 <= |b| && b[n] == '\r' && b[n + 1] == '\n' && forall i :: 0 <= i < n ==> IsPrint(b[i])
  }

  /** White space before a header, the header's name, white space before its value, and the value. */
  datatype HeaderLine = HeaderLine(gap: string, name: string, pad: string, value: string)

  predicate IsGap(t: string) {
    forall i :: 0 <= i < |t| ==> IsSpace(t[i]) && t[i] != '\r'
  }

  predicate IsPad(t: string) {
    forall i :: 0 <= i < |t| ==> IsSpace(t[i])
  }

  predicate AllValidBut(t: string, c: char) {
    forall i :: 0 <= i < |t| ==> Valid(t[i]) && t[i] != c
  }

  /** The first character of a name may be a colon. */
  predicate LineOk(l: HeaderLine) {
    && IsGap(l.gap) && IsPad(l.pad)
    && l.name != "" && IsPrint(l.name[0]) && !IsSpace(l.name[0]) && AllValidBut(l.name[1..], ':')
    && l.value != "" && IsPrint(l.value[0]) && !IsSpace(l.value[0]) && AllValidBut(l.value[1..], '\r')
  }

  function LineText(l: HeaderLine): string {
    l.gap + (l.name + (":" + (l.pad + (l.value + CRLF))))
  }

  /** Header lines, and white space up to the carriage return that ends the block. */
  datatype Block = Block(lines: seq<HeaderLine>, gap: string)

  predicate BlockOk(block: Block) {
    IsGap(block.gap) && forall i :: 0 <= i < |block.lines| ==> LineOk(block.lines[i])
  }

  function BlockText(lines: seq<HeaderLine>, gap: string): string {
    if lines == [] then gap + "\r" else LineText(lines[0]) + BlockText(lines[1..], gap)
  }

  function StoredHeaders(lines: seq<HeaderLine>, headers: map<string, string>): map<string, string> {
    if lines == [] then headers else StoredHeaders(lines[1..], StoreHeader(headers, lines[0].name, lines[0].value))
  }

  function StoredLength(lines: seq<HeaderLine>, length: nat): nat {
    if lines == [] then length else StoredLength(lines[1..], StoreLength(length, lines[0].name, lines[0].value))
  }

  // ---------------------------------------------------------------- command lines

  function CommandWord(line: string): string {
    if line == "" || line[0] == ' ' then "" else [line[0]] + CommandWord(line[1..])
  }

  /** All but the spaces behind the command. */
  function ResourceText(line: string): string {
    if line == "" then "" else if line[0] == ' ' then WithoutSpaces(line) else ResourceText(line[1..])
  }

  lemma NextAt(b: string, n: nat)
    requires CommandAt(b, n) && n > 0
    ensures CommandAt(b[1..], n - 1) && b[..n][1..] == b[1..][..n - 1] && b[..n][0] == b[0]
  {
    assert forall i :: 0 <= i < n - 1 ==> b[1..][i] == b[i + 1];
  }

  lemma Appended(a: string, c: char, rest: string)
    ensures a + [c] + rest == a + ([c] + rest) && a + ("" + rest) == a + rest && a + "" == a
  {
  }

  /** A command line of the grammar is read. */
  lemma {:induction false} CommandRead(b: string, n: nat, inResource: bool, command: string, resource: string)
    requires CommandAt(b, n)
    ensures ScanCommand(b, inResource, command, resource)
         == CommandScan(true, if inResource then command else command + CommandWord(b[..n]),
                        resource + if inResource then WithoutSpaces(b[..n]) else ResourceText(b[..n]), n)
    decreases n
  {
    if n == 0 {
      assert b[1..][0] == '\n';
      Appended(command, ' ', "");
      Appended(resource, ' ', "");
    } else {
      var c, k, line := b[0], n - 1, b[..n];
      NextAt(b, n);
      Appended(command, c, CommandWord(line[1..]));
      Appended(resource, c, WithoutSpaces(line[1..]));
      if c == ' ' {
        CommandRead(b[1..], k, true, command, resource);
        Appended(command, c, "");
      } else if inResource {
        CommandRead(b[1..], k, true, command, resource + [c]);
      } else {
        CommandRead(b[1..], k, false, command + [c], resource);
      }
    }
  }

  /** And nothing else is. */
  lemma {:induction false} CommandFound(b: string, inResource: bool, command: string, resource: string)
    requires ScanCommand(b, inResource, command, resource).ok
    ensures CommandAt(b, ScanCommand(b, inResource, command, resource).used)
    decreases |b|
  {
    var c := Head(b);
    if c == '\r' {
      assert b[1..] != "";
    } else {
      assert b != "";
      if c == ' ' {
        CommandFound(b[1..], true, command, resource);
      } else if inResource {
        CommandFound(b[1..], true, command, resource + [c]);
      } else {
        CommandFound(b[1..], false, command + [c], resource);
      }
    }
  }

  // ---------------------------------------------------------------- header lines are read

  lemma StepRead(c: char, post: string, status: HeaderStatus, header: string, value: string,
                 headers: map<string, string>, length: nat)
    requires MoveHeader(c, status, header, value, headers, length).Next?
    ensures ScanHeaders([c] + post, status, header, value, headers, length)
         == var move := MoveHeader(c, status, header, value, headers, length);
            ScanHeaders(post, move.status, move.header, move.value, move.headers, move.length).Shift(1)
  {
    assert ([c] + post)[0] == c && ([c] + post)[1..] == post;
  }

  lemma FirstApart(t: string, post: string)
    requires t != ""
    ensures t + post == [t[0]] + (t[1..] + post)
  {
  }

  lemma {:induction false} GapRead(t: string, post: string, header: string, value: string,
                                   headers: map<string, string>, length: nat)
    requires IsGap(t)
    ensures ScanHeaders(t + post, SeekHeader, header, value, headers, length)
         == ScanHeaders(post, SeekHeader, header, value, headers, length).Shift(|t|)
  {
    if t == "" {
      assert t + post == post;
    } else {
      FirstApart(t, post);
      StepRead(t[0], t[1..] + post, SeekHeader, header, value, headers, length);
      GapRead(t[1..], post, header, value, headers, length);
    }
  }

  lemma {:induction false} NameRead(t: string, post: string, header: string, value: string,
                                    headers: map<string, string>, length: nat)
    requires AllValidBut(t, ':')
    ensures ScanHeaders(t + post, ReadHeader, header, value, headers, length)
         == ScanHeaders(post, ReadHeader, header + t, value, headers, length).Shift(|t|)
    decreases |t|
  {
    if t == "" {
      assert t + post == post && header + t == header;
    } else {
      FirstApart(t, post);
      StepRead(t[0], t[1..] + post, ReadHeader, header, value, headers, length);
      NameRead(t[1..], post, header + [t[0]], value, headers, length);
      assert header + [t[0]] + t[1..] == header + t;
    }
  }

  lemma {:induction false} PadRead(t: string, post: string, header: string, value: string,
                                   headers: map<string, string>, length: nat)
    requires IsPad(t)
    ensures ScanHeaders(t + post, SeekVal, header, value, headers, length)
         == ScanHeaders(post, SeekVal, header, value, headers, length).Shift(|t|)
  {
    if t == "" {
      assert t + post == post;
    } else {
      FirstApart(t, post);
      StepRead(t[0], t[1..] + post, SeekVal, header, value, headers, length);
      PadRead(t[1..], post, header, value, headers, length);
    }
  }

  lemma {:induction false} ValueRead(t: string, post: string, header: string, value: string,
                                     headers: map<string, string>, length: nat)
    requires AllValidBut(t, '\r')
    ensures ScanHeaders(t + post, ReadVal, header, value, headers, length)
         == ScanHeaders(post, ReadVal, header, value + t, headers, length).Shift(|t|)
    decreases |t|
  {
    if t == "" {
      assert t + post == post && value + t == value;
    } else {
      FirstApart(t, post);
      StepRead(t[0], t[1..] + post, ReadVal, header, value, headers, length);
      ValueRead(t[1..], post, header, value + [t[0]], headers, length);
      assert value + [t[0]] + t[1..] == value + t;
    }
  }

  lemma WholeNameRead(name: string, post: string, header: string, value: string,
                      headers: map<string, string>, length: nat)
    requires name != "" && IsPrint(name[0]) && !IsSpace(name[0]) && AllValidBut(name[1..], ':')
    ensures ScanHeaders(name + (":" + post), SeekHeader, header, value, headers, length)
         == ScanHeaders(post, SeekVal, name, value, headers, length).Shift(|name| + 1)
  {
    var rest := name[1..];
    FirstApart(name, ":" + post);
    StepRead(name[0], rest + (":" + post), SeekHeader, header, value, headers, length);
    NameRead(rest, ":" + post, [name[0]], value, headers, length);
    assert [name[0]] + rest == name;
    StepRead(':', post, ReadHeader, name, value, headers, length);
  }

  lemma WholeValueRead(v: string, post: string, header: string, value: string,
                       headers: map<string, string>, length: nat)
    requires v != "" && IsPrint(v[0]) && !IsSpace(v[0]) && AllValidBut(v[1..], '\r')
    ensures ScanHeaders(v + (CRLF + post), SeekVal, header, value, headers, length)
         == ScanHeaders(post, SeekHeader, header, v, StoreHeader(headers, header, v),
                        StoreLength(length, header, v)).Shift(|v| + 2)
  {
    var rest := v[1..];
    FirstApart(v, CRLF + post);
    StepRead(v[0], rest + (CRLF + post), SeekVal, header, value, headers, length);
    ValueRead(rest, CRLF + post, header, [v[0]], headers, length);
    assert [v[0]] + rest == v;
    assert CRLF + post == ['\r'] + (['\n'] + post);
    StepRead('\r', ['\n'] + post, ReadVal, header, v, headers, length);
    StepRead('\n', post, SeekNewline, header, v, headers, length);
  }

  lemma LineApart(l: HeaderLine, post: string)
    ensures LineText(l) + post == l.gap + (l.name + (":" + (l.pad + (l.value + (CRLF + post)))))
    ensures |LineText(l)| == |l.gap| + (|l.name| + 1) + |l.pad| + (|l.value| + 2)
  {
    var t4 := l.value + CRLF;
    assert t4 + post == l.value + (CRLF + post);
    var t3 := l.pad + t4;
    assert t3 + post == l.pad + (t4 + post);
    var t2 := ":" + t3;
    assert t2 + post == ":" + (t3 + post);
    var t1 := l.name + t2;
    assert t1 + post == l.name + (t2 + post);
    assert l.gap + t1 + post == l.gap + (t1 + post);
  }

  lemma LineRead(l: HeaderLine, post: string, header: string, value: string,
                 headers: map<string, string>, length: nat)
    requires LineOk(l)
    ensures ScanHeaders(LineText(l) + post, SeekHeader, header, value, headers, length)
         == ScanHeaders(post, SeekHeader, l.name, l.value, StoreHeader(headers, l.name, l.value),
                        StoreLength(length, l.name, l.value)).Shift(|LineText(l)|)
  {
    var t3 := l.value + (CRLF + post);
    var t2 := l.pad + t3;
    var t1 := l.name + (":" + t2);
    LineApart(l, post);
    GapRead(l.gap, t1, header, value, headers, length);
    WholeNameRead(l.name, t2, header, value, headers, length);
    PadRead(l.pad, t3, l.name, value, headers, length);
    WholeValueRead(l.value, post, l.name, value, headers, length);
  }

  /** A header block of the grammar is read, with all its headers and the length of the body. */
  lemma {:induction false} BlockRead(lines: seq<HeaderLine>, gap: string, post: string, header: string, value: string,
                                     headers: map<string, string>, length: nat)
    requires IsGap(gap) && forall i :: 0 <= i < |lines| ==> LineOk(lines[i])
    ensures ScanHeaders(BlockText(lines, gap) + post, SeekHeader, header, value, headers, length)
         == HeaderScan(true, StoredHeaders(lines, headers), StoredLength(lines, length), |BlockText(lines, gap)|)
    decreases |lines|
  {
    if lines == [] {
      assert gap + "\r" + post == gap + ("\r" + post);
      GapRead(gap, "\r" + post, header, value, headers, length);
      assert ("\r" + post)[0] == '\r';
    } else {
      var l, later := lines[0], BlockText(lines[1..], gap);
      assert LineText(l) + later + post == LineText(l) + (later + post);
      LineRead(l, later + post, header, value, headers, length);
      BlockRead(lines[1..], gap, post, l.name, l.value, StoreHeader(headers, l.name, l.value),
                StoreLength(length, l.name, l.value));
    }
  }

  // ---------------------------------------------------------------- and nothing else is

  lemma {:induction false} GapFound(s: string, header: string, value: string, headers: map<string, string>, length: nat)
    returns (n: nat)
    requires ScanHeaders(s, SeekHeader, header, value, headers, length).ok
    ensures n < |s| && IsGap(s[..n])
    ensures s[n] == '\r' || (IsPrint(s[n]) && !IsSpace(s[n])
                             && ScanHeaders(s[n + 1..], ReadHeader, [s[n]], value, headers, length).ok)
    decreases |s|
  {
    n := 0;
    if IsSpace(s[0]) && s[0] != '\r' {
      var k := GapFound(s[1..], header, value, headers, length);
      n := k + 1;
      assert s[..n] == [s[0]] + s[1..][..k] && s[1..][k] == s[n] && s[1..][k + 1..] == s[n + 1..];
    }
  }

  lemma {:induction false} NameFound(s: string, header: string, value: string,
                                     headers: map<string, string>, length: nat)
    returns (n: nat)
    requires ScanHeaders(s, ReadHeader, header, value, headers, length).ok
    ensures n < |s| && AllValidBut(s[..n], ':') && s[n] == ':'
    ensures ScanHeaders(s[n + 1..], SeekVal, header + s[..n], value, headers, length).ok
    decreases |s|
  {
    n := 0;
    if s[0] == ':' {
      assert header + s[..0] == header;
    } else {
      var k := NameFound(s[1..], header + [s[0]], value, headers, length);
      n := k + 1;
      assert s[..n] == [s[0]] + s[1..][..k] && s[1..][k] == s[n] && s[1..][k + 1..] == s[n + 1..];
      assert header + [s[0]] + s[1..][..k] == header + s[..n];
    }
  }

  lemma {:induction false} PadFound(s: string, header: string, value: string, headers: map<string, string>, length: nat)
    returns (n: nat)
    requires ScanHeaders(s, SeekVal, header, value, headers, length).ok
    ensures n < |s| && IsPad(s[..n]) && IsPrint(s[n]) && !IsSpace(s[n])
    ensures ScanHeaders(s[n + 1..], ReadVal, header, [s[n]], headers, length).ok
    decreases |s|
  {
    n := 0;
    if IsSpace(s[0]) {
      var k := PadFound(s[1..], header, value, headers, length);
      n := k + 1;
      assert s[..n] == [s[0]] + s[1..][..k] && s[1..][k] == s[n] && s[1..][k + 1..] == s[n + 1..];
    }
  }

  lemma {:induction false} ValueFound(s: string, header: string, value: string,
                                      headers: map<string, string>, length: nat)
    returns (n: nat)
    requires ScanHeaders(s, ReadVal, header, value, headers, length).ok
    ensures n + 2 <= |s| && AllValidBut(s[..n], '\r') && s[n] == '\r' && s[n + 1] == '\n'
    decreases |s|
  {
    n := 0;
    if s[0] == '\r' {
      assert Head(s[1..]) == '\n';
    } else {
      var k := ValueFound(s[1..], header, value + [s[0]], headers, length);
      n := k + 1;
      assert s[..n] == [s[0]] + s[1..][..k] && s[1..][k] == s[n] && s[1..][k + 1] == s[n + 1];
    }
  }

  lemma CutOne(s: string, n: nat)
    requires n < |s|
    ensures s == s[..n] + ([s[n]] + s[n + 1..])
  {
  }

  lemma CutBreak(s: string, n: nat)
    requires n + 2 <= |s| && s[n] == '\r' && s[n + 1] == '\n'
    ensures s == s[..n] + (CRLF + s[n + 2..])
  {
  }

  lemma FirstJoined(c: char, a: string, b: string)
    ensures [c] + (a + b) == [c] + a + b && ([c] + a)[0] == c && ([c] + a)[1..] == a
  {
  }

  /** The value that is read, behind the white space before it. */
  lemma WholeValueFound(s: string, header: string, value: string, headers: map<string, string>, length: nat)
    returns (pad: string, v: string, post: string)
    requires ScanHeaders(s, SeekVal, header, value, headers, length).ok
    ensures IsPad(pad) && v != "" && IsPrint(v[0]) && !IsSpace(v[0]) && AllValidBut(v[1..], '\r')
    ensures s == pad + (v + (CRLF + post))
  {
    var p := PadFound(s, header, value, headers, length);
    var c, rest := s[p], s[p + 1..];
    var m := ValueFound(rest, header, [c], headers, length);
    pad, v, post := s[..p], [c] + rest[..m], rest[m + 2..];
    CutOne(s, p);
    CutBreak(rest, m);
    FirstJoined(c, rest[..m], CRLF + post);
  }

  /** The name that is read. */
  lemma WholeNameFound(s: string, value: string, headers: map<string, string>, length: nat)
    returns (name: string, post: string)
    requires s != "" && IsPrint(s[0]) && !IsSpace(s[0])
    requires ScanHeaders(s[1..], ReadHeader, [s[0]], value, headers, length).ok
    ensures name != "" && IsPrint(name[0]) && !IsSpace(name[0]) && AllValidBut(name[1..], ':')
    ensures s == name + (":" + post) && ScanHeaders(post, SeekVal, name, value, headers, length).ok
  {
    var c, rest := s[0], s[1..];
    var n := NameFound(rest, [c], value, headers, length);
    name, post := [c] + rest[..n], rest[n + 1..];
    CutOne(rest, n);
    FirstJoined(c, rest[..n], ":" + post);
    assert s == [c] + rest;
  }

  /** The first header line of a text that is read, behind the white space before it. */
  lemma LineFound(s: string, value: string, headers: map<string, string>, length: nat)
    returns (name: string, pad: string, v: string, post: string)
    requires s != "" && IsPrint(s[0]) && !IsSpace(s[0])
    requires ScanHeaders(s[1..], ReadHeader, [s[0]], value, headers, length).ok
    ensures LineOk(HeaderLine("", name, pad, v))
    ensures s == name + (":" + (pad + (v + (CRLF + post))))
  {
    var rest: string;
    name, rest := WholeNameFound(s, value, headers, length);
    pad, v, post := WholeValueFound(rest, name, value, headers, length);
  }

  lemma Together(gap: string, name: string, pad: string, v: string, post: string, s: string)
    requires s == gap + (name + (":" + (pad + (v + (CRLF + post)))))
    ensures s == LineText(HeaderLine(gap, name, pad, v)) + post
  {
    LineApart(HeaderLine(gap, name, pad, v), post);
  }

  lemma {:induction false} BlockFound(s: string, header: string, value: string,
                                      headers: map<string, string>, length: nat)
    returns (block: Block)
    requires ScanHeaders(s, SeekHeader, header, value, headers, length).ok
    ensures BlockOk(block) && BlockText(block.lines, block.gap) <= s
    decreases |s|
  {
    var g := GapFound(s, header, value, headers, length);
    var gap, rest := s[..g], s[g..];
    assert s == gap + rest;
    if s[g] == '\r' {
      block := Block([], gap);
      assert s[..g + 1] == gap + "\r";
    } else {
      assert rest[0] == s[g] && rest[1..] == s[g + 1..];
      var name, pad, v, post := LineFound(rest, value, headers, length);
      var l := HeaderLine(gap, name, pad, v);
      Together(gap, name, pad, v, post, s);
      LineRead(l, post, header, value, headers, length);
      var later := BlockFound(post, name, v, StoreHeader(headers, name, v), StoreLength(length, name, v));
      block := Block([l] + later.lines, later.gap);
      assert block.lines[1..] == later.lines;
      var text := BlockText(later.lines, later.gap);
      assert post == text + post[|text|..];
      assert s == LineText(l) + text + post[|text|..];
    }
  }

  // ---------------------------------------------------------------- heads

  /** A command line of some length, and a header block. */
  datatype RequestHead = RequestHead(n: nat, block: Block)

  /** The sixteen-bit counter starts again after 65535 characters. */
  lemma {:induction false} CounterWraps(n: nat)
    ensures Counter16(n) == n % 0x1_0000
  {
    if n > 0 {
      CounterWraps(n - 1);
    }
  }

  /** What is left behind a command line: the counter of its characters is sixteen bits wide. */
  function BehindCommand(b: string, n: nat): string
    requires CommandAt(b, n)
  {
    b[n % 0x1_0000 + 2..]
  }

  /** And behind a header block, whose line feed is looked for where that counter says. */
  function LineFeedPlace(block: Block): nat {
    |BlockText(block.lines, block.gap)| % 0x1_0000
  }

  /** The text begins with a head of the grammar. */
  predicate HeadAt(b: string, h: RequestHead) {
    && CommandAt(b, h.n) && BlockOk(h.block)
    && var t := BehindCommand(b, h.n);
       && BlockText(h.block.lines, h.block.gap) <= t
       && LineFeedPlace(h.block) < |t| && t[LineFeedPlace(h.block)] == '\n'
  }

  function BehindHead(b: string, h: RequestHead): (r: string)
    requires HeadAt(b, h)
    ensures |r| < |b|
  {
    BehindCommand(b, h.n)[LineFeedPlace(h.block) + 1..]
  }

  /** The body's length that the head gives: that of its last such header, as a 32-bit number. */
  function BodyLength(h: RequestHead): nat {
    StoredLength(h.block.lines, 0)
  }

  ghost predicate HasHead(b: string) {
    exists h: RequestHead :: HeadAt(b, h)
  }

  // ---------------------------------------------------------------- one request

  lemma SplitAt(s: string, n: nat, line: string)
    requires n <= |s| && line == s[..n]
    ensures s == line + s[n..]
  {
  }

  lemma WholeCommandRead(b: string, n: nat)
    requires CommandAt(b, n)
    ensures ScanCommand(b, false, "", "") == CommandScan(true, CommandWord(b[..n]), ResourceText(b[..n]), n)
  {
    CommandRead(b, n, false, "", "");
    NoneBefore(CommandWord(b[..n]));
    NoneBefore(ResourceText(b[..n]));
  }

  lemma CommandCounted(b: string, n: nat)
    requires CommandAt(b, n)
    ensures Counter16(n) + 2 <= |b| && b[Counter16(n) + 2..] == BehindCommand(b, n)
  {
    CounterWraps(n);
  }

  /** What parseCommand makes of a command line. */
  lemma CommandParsed(s: ParserState, n: nat)
    requires CommandAt(s.inBuffer, n)
    ensures var line := s.inBuffer[..n];
            ParseCommandResult(s)
            == (s.(inBuffer := BehindCommand(s.inBuffer, n),
                   current := s.current.(command := CommandWord(line), resource := ResourceText(line))), true)
  {
    WholeCommandRead(s.inBuffer, n);
    CommandCounted(s.inBuffer, n);
  }

  /** And parseHeaders of a header block. */
  lemma HeadersParsed(s: ParserState, block: Block)
    requires BlockOk(block) && BlockText(block.lines, block.gap) <= s.inBuffer
    ensures var place := LineFeedPlace(block);
            var s' := s.(current := s.current.(headers := StoredHeaders(block.lines, s.current.headers),
                                               appendedLength := StoredLength(block.lines, s.current.appendedLength)));
            ParseHeadersResult(s)
            == if place < |s.inBuffer| && s.inBuffer[place] == '\n' then
                 (s'.(inBuffer := s.inBuffer[place + 1..]), true)
               else
                 (s'.(inBuffer := s.inBuffer[place..]), false)
  {
    var text := BlockText(block.lines, block.gap);
    BlockRead(block.lines, block.gap, s.inBuffer[|text|..], "", "", s.current.headers, s.current.appendedLength);
    SplitAt(s.inBuffer, |text|, text);
    CounterWraps(|text|);
    var place := LineFeedPlace(block);
    assert place <= |s.inBuffer|;
    if place < |s.inBuffer| {
      assert s.inBuffer[place..][0] == s.inBuffer[place] && s.inBuffer[place..][1..] == s.inBuffer[place + 1..];
    }
  }

  /** The state once a head has been read. */
  function WithHead(s: ParserState, h: RequestHead): ParserState
    requires HeadAt(s.inBuffer, h)
  {
    var line := s.inBuffer[..h.n];
    s.(inBuffer := BehindHead(s.inBuffer, h),
       current := Request(CommandWord(line), ResourceText(line), StoredHeaders(h.block.lines, s.current.headers),
                          s.current.appendedData, BodyLength(h)))
  }

  lemma BothParsed(s0: ParserState, h: RequestHead)
    requires HeadAt(s0.inBuffer, h) && s0.current.appendedLength == 0
    ensures ParseCommandResult(s0).1
    ensures ParseHeadersResult(ParseCommandResult(s0).0) == (WithHead(s0, h), true)
  {
    CommandParsed(s0, h.n);
    HeadersParsed(ParseCommandResult(s0).0, h.block);
  }

  /**
   * Of every buffer that begins with a head, parseRequest takes that head: command, resource, headers and the body's
   * length are those of its lines.
   */
  lemma HeadTaken(s: ParserState, h: RequestHead)
    requires s.current.command == "" && HasBlankLine(s.inBuffer) && HeadAt(s.inBuffer, h)
    ensures var s2 := WithHead(s, h);
            ParseRequestResult(s)
            == if BodyLength(h) == 0 then (s2.(requests := s2.requests + [s2.current]), true) else FinishRequest(s2)
  {
    BothParsed(s.(current := s.current.(appendedLength := 0)), h);
  }

  /** And every buffer that parseRequest takes something off begins with a head. */
  lemma HeadFound(s: ParserState)
    requires s.current.command == "" && HasBlankLine(s.inBuffer) && !s.malformed
    requires !ParseRequestResult(s).0.malformed
    ensures HasHead(s.inBuffer)
  {
    var s0 := s.(current := s.current.(appendedLength := 0));
    CommandFound(s.inBuffer, false, "", "");
    var n := ScanCommand(s.inBuffer, false, "", "").used;
    CommandParsed(s0, n);
    var s1 := ParseCommandResult(s0).0;
    var block := BlockFound(s1.inBuffer, "", "", s1.current.headers, s1.current.appendedLength);
    HeadersParsed(s1, block);
    assert HeadAt(s.inBuffer, RequestHead(n, block));
  }

  // ---------------------------------------------------------------- streams

  /** A text that holds a blank line and has no head, at its begin or behind a whole request. */
  ghost predicate Breaks(b: string)
    decreases |b|
  {
    && HasBlankLine(b)
    && (!HasHead(b)
        || exists h: RequestHead :: HeadAt(b, h) && BodyLength(h) <= |BehindHead(b, h)|
                                    && Breaks(BehindHead(b, h)[BodyLength(h)..]))
  }

  /** What is still to be read breaks the grammar; a body that is awaited is skipped first. */
  ghost predicate StateBreaks(s: ParserState) {
    if s.current.command == "" then Breaks(s.inBuffer)
    else s.current.appendedLength <= |s.inBuffer| && Breaks(s.inBuffer[s.current.appendedLength..])
  }

  lemma OneCommand(b: string, n: nat, m: nat)
    requires CommandAt(b, n) && CommandAt(b, m)
    ensures n == m
  {
    assert !IsPrint('\r');
  }

  lemma OneBlock(t: string, g: Block, h: Block)
    requires BlockOk(g) && BlockText(g.lines, g.gap) <= t && BlockOk(h) && BlockText(h.lines, h.gap) <= t
    ensures |BlockText(g.lines, g.gap)| == |BlockText(h.lines, h.gap)|
    ensures StoredLength(g.lines, 0) == StoredLength(h.lines, 0)
  {
    var text, text' := BlockText(g.lines, g.gap), BlockText(h.lines, h.gap);
    BlockRead(g.lines, g.gap, t[|text|..], "", "", map[], 0);
    BlockRead(h.lines, h.gap, t[|text'|..], "", "", map[], 0);
    SplitAt(t, |text|, text);
    SplitAt(t, |text'|, text');
  }

  /** All heads of a text leave the same behind them. */
  lemma OneHead(b: string, g: RequestHead, h: RequestHead)
    requires HeadAt(b, g) && HeadAt(b, h)
    ensures BehindHead(b, g) == BehindHead(b, h) && BodyLength(g) == BodyLength(h)
  {
    OneCommand(b, g.n, h.n);
    OneBlock(BehindCommand(b, g.n), g.block, h.block);
  }

  lemma BreaksBehind(b: string, h: RequestHead)
    requires HasBlankLine(b) && HeadAt(b, h)
    ensures Breaks(b) <==> BodyLength(h) <= |BehindHead(b, h)| && Breaks(BehindHead(b, h)[BodyLength(h)..])
  {
    if Breaks(b) {
      var g: RequestHead :| HeadAt(b, g) && BodyLength(g) <= |BehindHead(b, g)|
                            && Breaks(BehindHead(b, g)[BodyLength(g)..]);
      OneHead(b, g, h);
    }
  }

  /** The parse loop ends with a malformed stream if and only if what it reads breaks the grammar. */
  lemma {:induction false} DrainBreaks(s: ParserState)
    requires !s.malformed
    ensures Drain(s).malformed <==> StateBreaks(s)
    decreases Work(s)
  {
    var b := s.inBuffer;
    ParseRequestProgress(s);
    var (s', more) := ParseRequestResult(s);
    if s.current.command == "" && HasBlankLine(b) {
      if HasHead(b) {
        var h: RequestHead :| HeadAt(b, h);
        HeadTaken(s, h);
        BreaksBehind(b, h);
        assert BehindHead(b, h)[0..] == BehindHead(b, h);
      } else if !s'.malformed {
        HeadFound(s);
      }
    } else {
      assert b[0..] == b;
    }
    if more {
      DrainBreaks(s');
    }
  }

  /**
   * For every state and every chunk: parseData reports a malformed stream if and only if what it reads breaks the
   * grammar of command lines and header blocks.
   */
  lemma MalformedIff(s: ParserState, data: string)
    ensures ParseDataResult(s, data).malformed <==> StateBreaks(s.(inBuffer := s.inBuffer + data))
  {
    DrainBreaks(s.(inBuffer := s.inBuffer + data, malformed := false));
  }

  /** A tab, a character that cannot be printed or a lone line feed before the first carriage return breaks it. */
  lemma UnprintableBreaks(b: string, i: nat)
    requires HasBlankLine(b) && i < |b| && !IsPrint(b[i]) && b[i] != '\r'
    requires forall j :: 0 <= j < i ==> b[j] != '\r'
    ensures Breaks(b)
  {
    assert forall n: nat :: !CommandAt(b, n);
  }

  /** A tab in a command line. */
  lemma TabExample(s: ParserState)
    requires s.current.command == "" && s.inBuffer == ""
    ensures ParseDataResult(s, "A\tB\r\n\r\n").malformed
  {
    var b := "A\tB\r\n\r\n";
    assert BlankLineAt(b, 3);
    UnprintableBreaks(b, 1);
    NoneBefore(b);
    MalformedIff(s, b);
  }
}
