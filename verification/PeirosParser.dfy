/** The Peiros request parser and printer: the class, and the functions it is proved against. */
module PeirosParser {
  import opened Chars

  const CRLF := "\r\n"
  const BLANK_LINE := "\r\n\r\n"
  const CONTENT_LENGTH := "Content-length"

  datatype Request = Request(
    command: string,
    resource: string,
    headers: map<string, string>,
    appendedData: string,
    appendedLength: nat)

  /** The parser's fields as one value. */
  datatype ParserState = ParserState(
    inBuffer: string,
    malformed: bool,
    requests: seq<Request>,
    current: Request)

  // ---------------------------------------------------------------- what the character loops compute

  datatype CommandScan = CommandScan(ok: bool, command: string, resource: string, used: nat) {
    function Shift(k: nat): CommandScan {
      this.(used := used + k)
    }
  }

  /** The command line loop from text s on; used counts the characters before the carriage return. */
  function ScanCommand(s: string, inResource: bool, command: string, resource: string): CommandScan {
    var c := Head(s);
    if c == '\r' then CommandScan(Head(s[1..]) == '\n', command, resource, 0)
    else if c == ' ' then ScanCommand(s[1..], true, command, resource).Shift(1)
    else if c == '\n' || c == '\t' || !IsPrint(c) then CommandScan(false, command, resource, 0)
    else if inResource then ScanCommand(s[1..], true, command, resource + [c]).Shift(1)
    else ScanCommand(s[1..], false, command + [c], resource).Shift(1)
  }

  datatype HeaderStatus = SeekHeader | ReadHeader | SeekVal | ReadVal | SeekNewline

  datatype HeaderScan = HeaderScan(ok: bool, headers: map<string, string>, length: nat, used: nat) {
    function Shift(k: nat): HeaderScan {
      this.(used := used + k)
    }
  }

  /** A Content-length header sets the length, any other one is entered in the map. */
  function StoreHeader(headers: map<string, string>, header: string, value: string): map<string, string> {
    if header == CONTENT_LENGTH then headers else headers[header := value]
  }

  function StoreLength(length: nat, header: string, value: string): nat {
    if header == CONTENT_LENGTH then Atoi(value) % 0x1_0000_0000 else length
  }

  /** What one character does to the header loop. */
  datatype HeaderMove =
    | Malformed
    | Done
    | Next(status: HeaderStatus, header: string, value: string, headers: map<string, string>, length: nat)

  function MoveHeader(c: char, status: HeaderStatus, header: string, value: string,
                      headers: map<string, string>, length: nat): HeaderMove
  {
    if !IsPrint(c) && !IsSpace(c) then Malformed
    else match status
      case SeekHeader =>
        if c == '\r' then Done
        else if IsSpace(c) then Next(SeekHeader, header, value, headers, length)
        else Next(ReadHeader, [c], value, headers, length)
      case ReadHeader =>
        if c == ':' then Next(SeekVal, header, value, headers, length)
        else Next(ReadHeader, header + [c], value, headers, length)
      case SeekVal =>
        if IsSpace(c) then Next(SeekVal, header, value, headers, length)
        else Next(ReadVal, header, [c], headers, length)
      case ReadVal =>
        if c == '\r' then Next(SeekNewline, header, value, headers, length)
        else Next(ReadVal, header, value + [c], headers, length)
      case SeekNewline =>
        if c != '\n' then Malformed
        else Next(SeekHeader, header, value, StoreHeader(headers, header, value), StoreLength(length, header, value))
  }

  /** The header loop from text s on; used counts the characters up to and including the final carriage return. */
  function ScanHeaders(s: string, status: HeaderStatus, header: string, value: string,
                       headers: map<string, string>, length: nat): HeaderScan
  {
    match MoveHeader(Head(s), status, header, value, headers, length)
    case Malformed => HeaderScan(false, headers, length, 0)
    case Done => HeaderScan(true, headers, length, 1)
    case Next(status', header', value', headers', length') =>
      ScanHeaders(s[1..], status', header', value', headers', length').Shift(1)
  }

  /** One round of the loop over a command line. */
  lemma CommandStep(data: string, c: nat, inResource: bool, command: string, resource: string)
    requires c <= |data| && Head(data[c..]) != '\r'
    ensures var ch, scan := Head(data[c..]), ScanCommand(data[c..], inResource, command, resource).Shift(c);
            if ch == '\n' || ch == '\t' || !IsPrint(ch) then scan == CommandScan(false, command, resource, c)
            else
              c < |data| && scan ==
                ScanCommand(data[c + 1..], inResource || ch == ' ',
                            if inResource || ch == ' ' then command else command + [ch],
                            if inResource && ch != ' ' then resource + [ch] else resource).Shift(c + 1)
  {
    if c < |data| {
      Advance(data, c);
    }
  }

  lemma {:induction false} ScanCommandBound(s: string, inResource: bool, command: string, resource: string)
    ensures var r := ScanCommand(s, inResource, command, resource);
            r.ok ==> r.used + 2 <= |s|
  {
    var c := Head(s);
    if c != '\r' && c != '\n' && c != '\t' && IsPrint(c) {
      ScanCommandBound(s[1..], inResource || c == ' ',
                       if inResource || c == ' ' then command else command + [c],
                       if inResource && c != ' ' then resource + [c] else resource);
    }
  }

  lemma {:induction false} ScanHeadersBound(s: string, status: HeaderStatus, header: string, value: string,
                         headers: map<string, string>, length: nat)
    ensures var r := ScanHeaders(s, status, header, value, headers, length);
            r.ok ==> 1 <= r.used <= |s|
    decreases |s|
  {
    var move := MoveHeader(Head(s), status, header, value, headers, length);
    if move.Next? {
      ScanHeadersBound(s[1..], move.status, move.header, move.value, move.headers, move.length);
    }
  }

  // ---------------------------------------------------------------- what the methods compute

  predicate BlankLineAt(s: string, i: nat) {
    i + 4 <= |s| && s[i..i+4] == BLANK_LINE
  }

  predicate HasBlankLine(s: string) {
    exists i :: 0 <= i < |s| && BlankLineAt(s, i)
  }

  /** One increment of a counter that is sixteen bits wide. */
  function Inc16(n: nat): nat {
    if n == 0xffff then 0 else n + 1
  }

  /** What such a counter of consumed characters shows after n of them. */
  function Counter16(n: nat): (cnt: nat)
    ensures cnt <= n && cnt <= 0xffff
  {
    if n == 0 then 0 else Inc16(Counter16(n - 1))
  }

  function ParseCommandResult(s: ParserState): (r: (ParserState, bool))
    ensures r.1 ==> |r.0.inBuffer| + 2 <= |s.inBuffer|
    ensures |r.0.inBuffer| <= |s.inBuffer|
  {
    ScanCommandBound(s.inBuffer, false, "", "");
    var scan := ScanCommand(s.inBuffer, false, "", "");
    var s' := s.(current := s.current.(command := scan.command, resource := scan.resource));
    if scan.ok then (s'.(inBuffer := s.inBuffer[Counter16(scan.used) + 2..]), true)
    else (s', false)
  }

  function ParseHeadersResult(s: ParserState): (r: (ParserState, bool))
    ensures |r.0.inBuffer| <= |s.inBuffer|
  {
    ScanHeadersBound(s.inBuffer, SeekHeader, "", "", s.current.headers, s.current.appendedLength);
    var scan := ScanHeaders(s.inBuffer, SeekHeader, "", "", s.current.headers, s.current.appendedLength);
    var s' := s.(current := s.current.(headers := scan.headers, appendedLength := scan.length));
    if !scan.ok then (s', false)
    else
      var rest := s.inBuffer[Counter16(scan.used)..];
      if rest == "" || rest[0] != '\n' then (s'.(inBuffer := rest), false)
      else (s'.(inBuffer := rest[1..]), true)
  }

  /** The second half of parseRequest: take the body, then forget the finished command. */
  function FinishRequest(s: ParserState): (ParserState, bool) {
    var length := s.current.appendedLength;
    if length != 0 && |s.inBuffer| < length then (s, false)
    else
      var s' := if length == 0 then s else
        var full := s.current.(appendedData := s.inBuffer[..length]);
        s.(current := full, requests := s.requests + [full], inBuffer := s.inBuffer[length..]);
      (s'.(current := s'.current.(command := "", headers := map[])), true)
  }

  function ParseRequestResult(s: ParserState): (ParserState, bool) {
    if s.current.command != "" then FinishRequest(s)
    else if !HasBlankLine(s.inBuffer) then (s, false)
    else
      var s0 := s.(current := s.current.(appendedLength := 0));
      var (s1, okCommand) := ParseCommandResult(s0);
      if !okCommand then (s1.(malformed := true), false)
      else
        var (s2, okHeaders) := ParseHeadersResult(s1);
        if !okHeaders then (s2.(malformed := true), false)
        else if s2.current.appendedLength == 0 then (s2.(requests := s2.requests + [s2.current]), true)
        else FinishRequest(s2)
  }

  /** Every successful call uses up input, or the finished command it found. */
  function Work(s: ParserState): nat {
    2 * |s.inBuffer| + if s.current.command == "" then 0 else 1
  }

  lemma ParseRequestProgress(s: ParserState)
    ensures var (s', more) := ParseRequestResult(s); more ==> Work(s') < Work(s)
  {
  }

  /** The parse loop of parseData. */
  function Drain(s: ParserState): ParserState
    decreases Work(s)
  {
    ParseRequestProgress(s);
    if s.malformed then s
    else
      var (s', more) := ParseRequestResult(s);
      if more then Drain(s') else s'
  }

  function ParseDataResult(s: ParserState, data: string): ParserState {
    Drain(s.(inBuffer := s.inBuffer + data, malformed := false))
  }

  // ---------------------------------------------------------------- the printer

  predicate StrLess(a: string, b: string) {
    b != "" && (a == "" || a[0] < b[0] || (a[0] == b[0] && StrLess(a[1..], b[1..])))
  }

  predicate IsLeast(k: string, keys: set<string>) {
    k in keys && forall k' :: k' in keys ==> k == k' || StrLess(k, k')
  }

  lemma {:induction false} StrLessTotal(a: string, b: string)
    ensures a == b || StrLess(a, b) || StrLess(b, a)
    ensures !(StrLess(a, b) && StrLess(b, a)) && !StrLess(a, a)
  {
    if a != "" && b != "" {
      StrLessTotal(a[1..], b[1..]);
      assert a == [a[0]] + a[1..] && b == [b[0]] + b[1..];
    }
    if a != "" {
      StrLessIrreflexive(a);
    }
  }

  lemma {:induction false} StrLessIrreflexive(a: string)
    ensures !StrLess(a, a)
  {
    if a != "" {
      StrLessIrreflexive(a[1..]);
    }
  }

  lemma {:induction false} StrLessTransitive(a: string, b: string, c: string)
    requires StrLess(a, b) && StrLess(b, c)
    ensures StrLess(a, c)
  {
    if a != "" && a[0] == b[0] == c[0] {
      StrLessTransitive(a[1..], b[1..], c[1..]);
    }
  }

  lemma {:induction false} LeastExists(keys: set<string>)
    requires keys != {}
    ensures exists k :: IsLeast(k, keys)
  {
    var x :| x in keys;
    var rest := keys - {x};
    if rest == {} {
      assert keys == {x};
      assert IsLeast(x, keys);
    } else {
      LeastExists(rest);
      var y :| IsLeast(y, rest);
      StrLessTotal(x, y);
      if StrLess(x, y) {
        forall k | k in keys ensures x == k || StrLess(x, k) {
          if k != x && k != y {
            StrLessTransitive(x, y, k);
          }
        }
        assert IsLeast(x, keys);
      } else {
        assert IsLeast(y, keys);
      }
    }
  }

  /** The order in which the printer's header map hands out its keys. */
  ghost function MapOrder(keys: set<string>): (order: seq<string>)
    ensures forall k :: k in keys <==> k in order
  {
    if keys == {} then []
    else
      LeastExists(keys);
      var k :| IsLeast(k, keys);
      [k] + MapOrder(keys - {k})
  }

  function HeaderLine(name: string, value: string): string {
    name + ": " + value
  }

  function CommandLine(r: Request): string {
    if r.resource == "" then r.command else r.command + " " + r.resource
  }

  function HeaderLines(order: seq<string>, headers: map<string, string>): seq<string>
    requires forall k :: k in order ==> k in headers
  {
    if order == [] then []
    else [HeaderLine(order[0], headers[order[0]])] + HeaderLines(order[1..], headers)
  }

  function LengthLines(data: string): seq<string> {
    if data == "" then [] else [HeaderLine(CONTENT_LENGTH, Decimal(|data|))]
  }

  /** The lines of a request's head, first the command line. */
  ghost function HeadLines(r: Request): seq<string> {
    [CommandLine(r)] + HeaderLines(MapOrder(r.headers.Keys), r.headers) + LengthLines(r.appendedData)
  }

  /** Each line ended by a line break, and an empty line at the end. */
  function Block(lines: seq<string>): string {
    if lines == [] then CRLF else lines[0] + CRLF + Block(lines[1..])
  }

  ghost function Render(r: Request): string {
    Block(HeadLines(r)) + r.appendedData
  }

  function Joined(lines: seq<string>): string {
    if lines == [] then "" else Joined(lines[..|lines|-1]) + lines[|lines|-1] + CRLF
  }

  lemma {:induction false} JoinedSplit(line: string, lines: seq<string>)
    ensures Joined([line] + lines) == line + CRLF + Joined(lines)
  {
    var all := [line] + lines;
    if lines == [] {
      assert all[..|all|-1] == [];
    } else {
      var front := lines[..|lines|-1];
      JoinedSplit(line, front);
      assert all[..|all|-1] == [line] + front && all[|all|-1] == lines[|lines|-1];
    }
  }

  lemma {:induction false} BlockJoined(lines: seq<string>)
    ensures Block(lines) == Joined(lines) + CRLF
  {
    if lines != [] {
      BlockJoined(lines[1..]);
      JoinedSplit(lines[0], lines[1..]);
      assert lines == [lines[0]] + lines[1..];
    }
  }

  lemma {:induction false} HeaderLinesAppend(order: seq<string>, k: string, headers: map<string, string>)
    requires k in headers && forall k' :: k' in order ==> k' in headers
    ensures HeaderLines(order + [k], headers) == HeaderLines(order, headers) + [HeaderLine(k, headers[k])]
  {
    if order != [] {
      assert (order + [k])[1..] == order[1..] + [k];
      HeaderLinesAppend(order[1..], k, headers);
    } else {
      assert (order + [k])[1..] == [];
    }
  }

  /** Whichever least key a loop finds, it is the one the map's order starts with. */
  lemma {:induction false} MapOrderStep(k: string, keys: set<string>)
    requires IsLeast(k, keys)
    ensures MapOrder(keys) == [k] + MapOrder(keys - {k})
  {
    LeastExists(keys);
    var k' :| IsLeast(k', keys) && MapOrder(keys) == [k'] + MapOrder(keys - {k'});
    StrLessTotal(k, k');
  }

  /** A walk over the map of all keys that has handed out order and has the keys left to go. */
  ghost predicate Walked(order: seq<string>, left: set<string>, all: set<string>) {
    && order + MapOrder(left) == MapOrder(all)
    && (forall k :: k in order ==> k in all)
    && left <= all
  }

  lemma WalkStep(order: seq<string>, k: string, left: set<string>, all: set<string>)
    requires Walked(order, left, all) && IsLeast(k, left)
    ensures Walked(order + [k], left - {k}, all)
  {
    MapOrderStep(k, left);
    assert order + [k] + MapOrder(left - {k}) == order + MapOrder(left);
  }

  lemma WalkEnds(order: seq<string>, all: set<string>)
    requires Walked(order, {}, all)
    ensures order == MapOrder(all)
  {
    assert order + [] == order;
  }

  /** The printer's output after the command line and the headers named in order. */
  function Printed(r: Request, order: seq<string>): string
    requires forall k :: k in order ==> k in r.headers
  {
    Joined([CommandLine(r)] + HeaderLines(order, r.headers))
  }

  lemma JoinedAppend(lines: seq<string>, line: string)
    ensures Joined(lines + [line]) == Joined(lines) + line + CRLF
  {
    assert (lines + [line])[..|lines|] == lines;
  }

  lemma PrintCommand(r: Request)
    ensures Printed(r, []) == CommandLine(r) + CRLF
  {
    JoinedAppend([], CommandLine(r));
    assert [CommandLine(r)] + HeaderLines([], r.headers) == [] + [CommandLine(r)];
  }

  lemma PrintHeader(r: Request, order: seq<string>, k: string)
    requires k in r.headers && forall k' :: k' in order ==> k' in r.headers
    ensures Printed(r, order + [k]) == Printed(r, order) + (k + ": " + r.headers[k] + CRLF)
  {
    HeaderLinesAppend(order, k, r.headers);
    var lines := [CommandLine(r)] + HeaderLines(order, r.headers);
    JoinedAppend(lines, HeaderLine(k, r.headers[k]));
    assert [CommandLine(r)] + HeaderLines(order + [k], r.headers) == lines + [HeaderLine(k, r.headers[k])];
  }

  lemma PrintHead(r: Request)
    ensures Render(r) == Printed(r, MapOrder(r.headers.Keys))
                       + (if r.appendedData == "" then ""
                          else CONTENT_LENGTH + ": " + Decimal(|r.appendedData|) + CRLF)
                       + CRLF + r.appendedData
  {
    BlockJoined(HeadLines(r));
    var lines := [CommandLine(r)] + HeaderLines(MapOrder(r.headers.Keys), r.headers);
    if r.appendedData != "" {
      JoinedAppend(lines, HeaderLine(CONTENT_LENGTH, Decimal(|r.appendedData|)));
    } else {
      assert HeadLines(r) == lines;
    }
  }

  class Parser {
    var m_inBuffer: string
    var m_malformed: bool
    var m_requests: seq<Request>
    var m_current: Request

    constructor ()
      ensures State() == ParserState("", false, [], Request("", "", map[], "", 0))
    {
      m_inBuffer, m_malformed, m_requests := "", false, [];
      m_current := Request("", "", map[], "", 0);
    }

    ghost function State(): ParserState
      reads this
    {
      ParserState(m_inBuffer, m_malformed, m_requests, m_current)
    }

    method ParseData(data: string) returns (ok: bool)
      modifies this
      ensures State() == ParseDataResult(old(State()), data)
      ensures ok == !m_malformed
    {
      m_inBuffer := m_inBuffer + data;
      m_malformed := false;
      var more := true;
      while !m_malformed && more
        invariant if more then Drain(State()) == ParseDataResult(old(State()), data)
                  else State() == ParseDataResult(old(State()), data)
        decreases more, Work(State())
      {
        ParseRequestProgress(State());
        more := ParseRequest();
      }
      ok := !m_malformed;
    }

    method ParseRequest() returns (more: bool)
      modifies this
      ensures (State(), more) == ParseRequestResult(old(State()))
    {
      if m_current.command == "" {
        if !HasBlankLine(m_inBuffer) {
          return false;
        }
        m_current := m_current.(appendedLength := 0);
        var ok := ParseCommand();
        if ok {
          ok := ParseHeaders();
        }
        if !ok {
          m_malformed := true;
          return false;
        }
        if m_current.appendedLength == 0 {
          m_requests := m_requests + [m_current];
          return true;
        }
      }
      if m_current.appendedLength != 0 {
        if |m_inBuffer| < m_current.appendedLength {
          return false;
        }
        m_current := m_current.(appendedData := m_inBuffer[..m_current.appendedLength]);
        m_requests := m_requests + [m_current];
        m_inBuffer := m_inBuffer[m_current.appendedLength..];
      }
      m_current := m_current.(command := "", headers := map[]);
      return true;
    }

    method ParseCommand() returns (ok: bool)
      modifies this
      ensures (State(), ok) == ParseCommandResult(old(State()))
    {
      ghost var before := State();
      ghost var whole := ScanCommand(m_inBuffer, false, "", "");
      ScanCommandBound(m_inBuffer, false, "", "");
      var data, c, cnt, inResource := m_inBuffer, 0, 0, false;
      m_current := m_current.(command := "", resource := "");
      assert data[0..] == data;
      while Head(data[c..]) != '\r'
        invariant 0 <= c <= |data| && cnt == Counter16(c)
        invariant m_inBuffer == data && m_malformed == before.malformed && m_requests == before.requests
        invariant m_current == before.current.(command := m_current.command, resource := m_current.resource)
        invariant whole == ScanCommand(data[c..], inResource, m_current.command, m_current.resource).Shift(c)
        decreases |data| - c
      {
        var ch := Head(data[c..]);
        CommandStep(data, c, inResource, m_current.command, m_current.resource);
        if ch == ' ' {
          inResource := true;
        } else if ch == '\n' || ch == '\t' || !IsPrint(ch) {
          return false;
        } else if inResource {
          m_current := m_current.(resource := m_current.resource + [ch]);
        } else {
          m_current := m_current.(command := m_current.command + [ch]);
        }
        c, cnt := c + 1, Inc16(cnt);
      }
      Advance(data, c);
      c := c + 1;
      if Head(data[c..]) != '\n' {
        return false;
      }
      m_inBuffer := m_inBuffer[cnt + 2..];
      return true;
    }

    /** The switch over the states of the header loop. */
    method HeaderChar(ch: char, status: HeaderStatus, header: string, value: string)
      returns (ok: bool, loop: bool, status': HeaderStatus, header': string, value': string)
      modifies this`m_current
      ensures m_current == old(m_current).(headers := m_current.headers, appendedLength := m_current.appendedLength)
      ensures var move := MoveHeader(ch, status, header, value, old(m_current).headers, old(m_current).appendedLength);
              && ok == !move.Malformed? && (ok ==> loop == move.Next?)
              && (move.Next? ==> move == Next(status', header', value', m_current.headers, m_current.appendedLength))
              && (!move.Next? ==> m_current == old(m_current))
    {
      ok, loop, status', header', value' := true, true, status, header, value;
      if !IsPrint(ch) && !IsSpace(ch) {
        ok := false;
        return;
      }
      match status
      case SeekHeader =>
        if ch == '\r' {
          loop := false;
        } else if !IsSpace(ch) {
          header', status' := [ch], ReadHeader;
        }
      case ReadHeader =>
        if ch == ':' {
          status' := SeekVal;
        } else {
          header' := header + [ch];
        }
      case SeekVal =>
        if !IsSpace(ch) {
          value', status' := [ch], ReadVal;
        }
      case ReadVal =>
        if ch == '\r' {
          status' := SeekNewline;
        } else {
          value' := value + [ch];
        }
      case SeekNewline =>
        if ch != '\n' {
          ok := false;
          return;
        }
        status' := SeekHeader;
        if header == CONTENT_LENGTH {
          m_current := m_current.(appendedLength := Atoi(value) % 0x1_0000_0000);
        } else {
          m_current := m_current.(headers := m_current.headers[header := value]);
        }
    }

    method ParseHeaders() returns (ok: bool)
      modifies this
      ensures (State(), ok) == ParseHeadersResult(old(State()))
    {
      ghost var before := State();
      ghost var whole := ScanHeaders(m_inBuffer, SeekHeader, "", "", m_current.headers, m_current.appendedLength);
      ScanHeadersBound(m_inBuffer, SeekHeader, "", "", m_current.headers, m_current.appendedLength);
      var data, c, cnt, loop := m_inBuffer, 0, 0, true;
      var header, value, status := "", "", SeekHeader;
      assert data[0..] == data;
      while loop
        invariant 0 <= c <= |data| && cnt == Counter16(c)
        invariant m_inBuffer == data && m_malformed == before.malformed && m_requests == before.requests
        invariant m_current == before.current.(headers := m_current.headers, appendedLength := m_current.appendedLength)
        invariant loop ==>
          whole == ScanHeaders(data[c..], status, header, value, m_current.headers, m_current.appendedLength).Shift(c)
        invariant !loop ==> whole == HeaderScan(true, m_current.headers, m_current.appendedLength, c)
        decreases loop, |data| - c
      {
        var ch := Head(data[c..]);
        ok, loop, status, header, value := HeaderChar(ch, status, header, value);
        if !ok {
          return;
        }
        Advance(data, c);
        c, cnt := c + 1, Inc16(cnt);
      }
      m_inBuffer := m_inBuffer[cnt..];
      if m_inBuffer == "" || m_inBuffer[0] != '\n' {
        return false;
      }
      m_inBuffer := m_inBuffer[1..];
      return true;
    }

    method GetRequest() returns (r: Request)
      requires m_requests != []
      modifies this
      ensures r == old(m_requests)[0]
      ensures State() == old(State()).(requests := old(m_requests)[1..])
    {
      r := m_requests[0];
      m_requests := m_requests[1..];
    }

    method RenderRequest(request: Request) returns (result: string)
      ensures result == Render(request)
    {
      result := request.command;
      if request.resource != "" {
        result := result + " " + request.resource;
      }
      result := result + CRLF;
      var left := request.headers.Keys;
      ghost var order := [];
      PrintCommand(request);
      assert Walked(order, left, request.headers.Keys);
      while left != {}
        invariant Walked(order, left, request.headers.Keys)
        invariant result == Printed(request, order)
        decreases left
      {
        LeastExists(left);
        var k :| IsLeast(k, left);
        WalkStep(order, k, left, request.headers.Keys);
        PrintHeader(request, order, k);
        result := result + (k + ": " + request.headers[k] + CRLF);
        left, order := left - {k}, order + [k];
      }
      WalkEnds(order, request.headers.Keys);
      PrintHead(request);
      if request.appendedData != "" {
        result := result + (CONTENT_LENGTH + ": " + Decimal(|request.appendedData|) + CRLF);
      }
      result := result + CRLF;
      if request.appendedData != "" {
        result := result + request.appendedData;
      }
    }
  }
}
