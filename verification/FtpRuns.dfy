/** The FTP client over whole conversations: how the server's bytes are cut does not matter, and it never goes back. */
module FtpRuns {
  import opened Chars
  import opened Ftp
  import opened Options
  import opened Sequences

  // ---------------------------------------------------------------- cutting the stream

  function Feed(d: Dialogue, chunks: seq<string>, bound: Option<Bound>): Dialogue
    decreases |chunks|
  {
    if chunks == [] then d else Feed(Incoming(d, chunks[0], bound), chunks[1..], bound)
  }

  lemma {:induction false} ScanForward(p: Progress, line: string, text: string,
                                       d: Option<Download>, bound: Option<Bound>)
    requires Rank(p.state) < 6 ==> d.Some?
    ensures Rank(p.state) <= Rank(Scan(p, line, text, d, bound).0.state)
    ensures Scan(p, line, text, d, bound).0.dropped ==> Scan(p, line, text, d, bound).1 == ""
    decreases |text|
  {
    if !p.dropped && text != "" {
      if text[0] == '\n' {
        ScanForward(Line(p, line, d, bound), "", text[1..], d, bound);
      } else {
        ScanForward(p, line + [text[0]], text[1..], d, bound);
      }
    }
  }

  lemma {:induction false} ScanAppend(p: Progress, line: string, a: string, b: string,
                                      d: Option<Download>, bound: Option<Bound>)
    requires Rank(p.state) < 6 ==> d.Some?
    ensures Rank(Scan(p, line, a, d, bound).0.state) < 6 ==> d.Some?
    ensures Scan(p, line, a + b, d, bound)
         == var (q, rest) := Scan(p, line, a, d, bound); Scan(q, rest, b, d, bound)
    decreases |a|
  {
    ScanForward(p, line, a, d, bound);
    if a == "" {
      assert a + b == b;
    } else if !p.dropped {
      assert (a + b)[0] == a[0] && (a + b)[1..] == a[1..] + b;
      if a[0] == '\n' {
        ScanAppend(Line(p, line, d, bound), "", a[1..], b, d, bound);
      } else {
        ScanAppend(p, line + [a[0]], a[1..], b, d, bound);
      }
    }
  }

  lemma IncomingTwice(d: Dialogue, a: string, b: string, bound: Option<Bound>)
    ensures Incoming(Incoming(d, a, bound), b, bound) == Incoming(d, a + b, bound)
  {
    if !d.progress.dropped && !Broken(d) {
      ScanForward(d.progress, d.buffer, a, d.download, bound);
      ScanAppend(d.progress, d.buffer, a, b, d.download, bound);
    }
  }

  /** However the server's bytes are cut into messages, the outcome is that of one message with all of them. */
  lemma {:induction false} ChunksDoNotMatter(d: Dialogue, chunks: seq<string>, bound: Option<Bound>)
    requires chunks != []
    ensures Feed(d, chunks, bound) == Incoming(d, Flatten(chunks), bound)
    decreases |chunks|
  {
    if |chunks| == 1 {
      assert Feed(Incoming(d, chunks[0], bound), chunks[1..], bound) == Incoming(d, chunks[0], bound);
      assert Flatten(chunks[1..]) == "" && chunks[0] + "" == chunks[0];
    } else {
      var once := Incoming(d, chunks[0], bound);
      ChunksDoNotMatter(once, chunks[1..], bound);
      IncomingTwice(d, chunks[0], Flatten(chunks[1..]), bound);
    }
  }

  // ---------------------------------------------------------------- runs

  datatype Event = Data(text: string, bound: Option<Bound>) | TimedOut | TakenOver(down: Option<Download>)

  function Step(d: Dialogue, e: Event): Dialogue {
    match e
    case Data(text, bound) => Incoming(d, text, bound)
    case TimedOut => Timeout(d)
    case TakenOver(down) => d.(download := down)
  }

  function Run(d: Dialogue, events: seq<Event>): Dialogue
    decreases |events|
  {
    if events == [] then d else Run(Step(d, events[0]), events[1..])
  }

  /** A command's place in the order USER, PASS, TYPE, CWD, PORT, RETR, QUIT: the rank of the state it leads to. */
  function Place(c: Command): nat {
    match c
    case USER(_) => 1
    case PASS(_) => 2
    case TYPE => 3
    case CWD(_) => 4
    case PORT(_, _) => 5
    case RETR(_) => 6
    case QUIT => 7
  }

  /** The commands are in order, none is repeated, and none is ahead of the state. */
  predicate InOrder(p: Progress) {
    && (forall i, j :: 0 <= i < j < |p.sent| ==> Place(p.sent[i]) < Place(p.sent[j]))
    && (forall i :: 0 <= i < |p.sent| ==> Place(p.sent[i]) <= Rank(p.state))
  }

  /** q comes after p. */
  predicate Later(p: Progress, q: Progress) {
    Rank(p.state) <= Rank(q.state) && p.sent <= q.sent && (InOrder(p) ==> InOrder(q))
  }

  /** A command of a higher place, together with its state. */
  lemma Sends(p: Progress, c: Command, state: State)
    requires Rank(p.state) < Place(c) == Rank(state)
    ensures Later(p, Progress(state, p.sent + [c], false))
  {
  }

  lemma PortLater(p: Progress, bound: Option<Bound>)
    requires Rank(p.state) < 5
    ensures Later(p, Progress(FTP_PORT, p.sent + PortOf(bound), false))
  {
    if bound.Some? {
      Sends(p, PORT(bound.value.ip, bound.value.port), FTP_PORT);
    }
  }

  lemma ToFileLater(p: Progress, d: Download, bound: Option<Bound>)
    requires Rank(p.state) < 4
    ensures Later(p, ToFile(p, d, bound))
  {
    PortLater(p, bound);
    Sends(p, CWD(d.dir), FTP_CWD);
  }

  lemma LineLater(p: Progress, line: string, d: Option<Download>, bound: Option<Bound>)
    requires Rank(p.state) < 6 ==> d.Some?
    ensures Later(p, Line(p, line, d, bound))
    ensures |Line(p, line, d, bound).sent| <= |p.sent| + 1
  {
    match p.state
    case FTP_CONNECTED => Sends(p, USER(d.value.user), FTP_USER); Sends(p, PASS(d.value.pass), FTP_PASS);
    case FTP_USER => Sends(p, PASS(d.value.pass), FTP_PASS);
    case FTP_PASS => Sends(p, TYPE, FTP_TYPE); ToFileLater(p, d.value, bound);
    case FTP_TYPE => ToFileLater(p, d.value, bound);
    case FTP_CWD => PortLater(p, bound); Sends(p, RETR(d.value.file), FTP_RETR);
    case FTP_PORT => Sends(p, RETR(d.value.file), FTP_RETR);
    case FTP_RETR => Sends(p, QUIT, FTP_QUIT);
    case FTP_QUIT =>
  }

  lemma {:induction false} ScanLater(p: Progress, line: string, text: string, d: Option<Download>, bound: Option<Bound>)
    requires Rank(p.state) < 6 ==> d.Some?
    ensures Later(p, Scan(p, line, text, d, bound).0)
    decreases |text|
  {
    if !p.dropped && text != "" {
      if text[0] == '\n' {
        LineLater(p, line, d, bound);
        ScanLater(Line(p, line, d, bound), "", text[1..], d, bound);
      } else {
        ScanLater(p, line + [text[0]], text[1..], d, bound);
      }
    }
  }

  lemma StepLater(d: Dialogue, e: Event)
    ensures Later(d.progress, Step(d, e).progress)
  {
    match e
    case Data(text, bound) =>
      if !d.progress.dropped && !Broken(d) {
        ScanLater(d.progress, d.buffer, text, d.download, bound);
      }
    case TimedOut =>
    case TakenOver(_) =>
  }

  /** Whatever happens, the state does not go back, and what was sent stays sent. */
  lemma {:induction false} NeverBack(d: Dialogue, events: seq<Event>)
    ensures Later(d.progress, Run(d, events).progress)
    decreases |events|
  {
    if events != [] {
      StepLater(d, events[0]);
      NeverBack(Step(d, events[0]), events[1..]);
    }
  }

  function Start(down: Option<Download>): Dialogue {
    Dialogue(Progress(FTP_CONNECTED, [], false), "", down)
  }

  /** From the start on, the commands are a subsequence of USER, PASS, TYPE, CWD, PORT, RETR, QUIT. */
  lemma CommandsInOrder(down: Option<Download>, events: seq<Event>)
    ensures InOrder(Run(Start(down), events).progress)
  {
    NeverBack(Start(down), events);
  }

  // ---------------------------------------------------------------- states that can be passed over

  /** The two cases without break pass over a state: USER's at a 331 for a greeting, PORT's at a 200 for CWD. */
  lemma PassedOver(p: Progress, line: string, d: Option<Download>, bound: Option<Bound>)
    requires Rank(p.state) < 6 && d.Some?
    ensures var q := Line(p, line, d, bound);
            && (Rank(p.state) < 1 ==> (Rank(q.state) > 1 <==> Replies(line, "331")))
            && (Rank(p.state) < 5 ==> (Rank(q.state) > 5 <==> p.state == FTP_CWD && Replies(line, "200")))
  {
  }

  // ---------------------------------------------------------------- what PORT says

  /** A server's reading of numbers between commas. */
  function Numbers(s: string, number: nat): seq<nat> {
    if s == "" then [number]
    else if IsDigit(s[0]) then Numbers(s[1..], 10 * number + (s[0] as int - '0' as int))
    else [number] + Numbers(s[1..], 0)
  }

  lemma {:induction false} NumbersDigits(digits: string, rest: string, number: nat)
    requires forall i :: 0 <= i < |digits| ==> IsDigit(digits[i])
    ensures Numbers(digits + rest, number) == Numbers(rest, AtoiDigits(digits, number))
    decreases |digits|
  {
    if digits == "" {
      assert digits + rest == rest;
    } else {
      var s := digits + rest;
      assert s[0] == digits[0] && s[1..] == digits[1..] + rest;
      NumbersDigits(digits[1..], rest, 10 * number + (digits[0] as int - '0' as int));
    }
  }

  lemma NumbersDecimal(n: nat, rest: string)
    ensures Numbers(Decimal(n) + rest, 0) == Numbers(rest, n)
    ensures Numbers(Decimal(n) + ("," + rest), 0) == [n] + Numbers(rest, 0)
  {
    DecimalDigits(n);
    AtoiDigitsDecimal(n);
    NumbersDigits(Decimal(n), rest, 0);
    NumbersDigits(Decimal(n), "," + rest, 0);
    assert ("," + rest)[1..] == rest;
  }

  lemma {:induction false} NumbersJoined(ip: seq<nat>, rest: string)
    ensures Numbers(Joined(ip) + rest, 0) == ip + Numbers(rest, 0)
    decreases |ip|
  {
    if ip == [] {
      assert Joined(ip) + rest == rest && ip + Numbers(rest, 0) == Numbers(rest, 0);
    } else {
      FirstNumber(ip, rest, Numbers(rest, 0));
      NumbersDecimal(ip[0], Joined(ip[1..]) + rest);
      NumbersJoined(ip[1..], rest);
    }
  }

  lemma FirstNumber(ip: seq<nat>, rest: string, numbers: seq<nat>)
    requires ip != []
    ensures Joined(ip) + rest == Decimal(ip[0]) + ("," + (Joined(ip[1..]) + rest))
    ensures [ip[0]] + (ip[1..] + numbers) == ip + numbers
  {
    var number, later := Decimal(ip[0]), Joined(ip[1..]);
    Regroup(number + ",", later, rest);
    Regroup(number, ",", later + rest);
    assert [ip[0]] + ip[1..] == ip;
    Regroup([ip[0]], ip[1..], numbers);
  }

  /** A server reads the client's address and both bytes of its port between the command's name and the line break. */
  lemma PortReads(ip: seq<nat>, port: nat)
    ensures var t := Text(PORT(ip, port));
            && |t| >= 7 && t[..5] == "PORT " && t[|t|-2..] == "\r\n"
            && Numbers(t[5..|t|-2], 0) == ip + [port / 0x100, port % 0x100]
  {
    var t, low := Text(PORT(ip, port)), Decimal(port % 0x100);
    var high := Decimal(port / 0x100) + ("," + low);
    assert t == "PORT " + (Joined(ip) + high) + "\r\n";
    assert t[5..|t|-2] == Joined(ip) + high;
    NumbersJoined(ip, high);
    NumbersDecimal(port / 0x100, low);
    NumbersDecimal(port % 0x100, "");
    assert low + "" == low;
  }

  // ---------------------------------------------------------------- a transfer

  function AllLines(p: Progress, lines: seq<string>, d: Download, bound: Option<Bound>): Progress
    decreases |lines|
  {
    if lines == [] || p.dropped then p else AllLines(Line(p, lines[0], Some(d), bound), lines[1..], d, bound)
  }

  function Stream(lines: seq<string>): string {
    if lines == [] then "" else lines[0] + "\n" + Stream(lines[1..])
  }

  lemma {:induction false} ScanLines(p: Progress, lines: seq<string>, d: Download, bound: Option<Bound>)
    requires forall i :: 0 <= i < |lines| ==> '\n' !in lines[i]
    ensures Scan(p, "", Stream(lines), Some(d), bound) == (AllLines(p, lines, d, bound), "")
    decreases |lines|
  {
    if lines != [] && !p.dropped {
      var text := "\n" + Stream(lines[1..]);
      assert Stream(lines) == lines[0] + text && "" + lines[0] == lines[0];
      ScanPrefix(p, "", lines[0], text, Some(d), bound);
      assert text[1..] == Stream(lines[1..]);
      ScanLines(Line(p, lines[0], Some(d), bound), lines[1..], d, bound);
    }
  }

  /** What a server that agrees to everything says, reply by reply; the texts do not matter. */
  predicate Agrees(lines: seq<string>, codes: seq<string>) {
    |lines| == |codes| && forall i :: 0 <= i < |lines| ==> Replies(lines[i], codes[i]) && '\n' !in lines[i]
  }

  function CodesToFile(d: Download): seq<string> {
    (if d.dir != "" then ["250"] else []) + ["200", "226", "221"]
  }

  function Codes(d: Download): seq<string> {
    ["220", "331", "230"] + (if d.flags != 0 then ["200"] else []) + CodesToFile(d)
  }

  function CommandsToFile(d: Download, bound: Option<Bound>): seq<Command> {
    (if d.dir != "" then [CWD(d.dir)] else []) + PortOf(bound) + [RETR(d.file), QUIT]
  }

  function Commands(d: Download, bound: Option<Bound>): seq<Command> {
    [USER(d.user), PASS(d.pass)] + (if d.flags != 0 then [TYPE] else []) + CommandsToFile(d, bound)
  }

  lemma TransferToFile(p: Progress, lines: seq<string>, d: Download, bound: Option<Bound>)
    requires (p.state == FTP_PASS && d.flags == 0) || p.state == FTP_TYPE
    requires !p.dropped && |lines| > 0 && Replies(lines[0], if p.state == FTP_PASS then "230" else "200")
    requires Agrees(lines[1..], CodesToFile(d))
    ensures AllLines(p, lines, d, bound) == Progress(FTP_QUIT, p.sent + CommandsToFile(d, bound), true)
  {
    var p1, rest := ToFile(p, d, bound), lines[1..];
    if d.dir != "" {
      var p2 := Line(p1, rest[0], Some(d), bound);
      assert CodesToFile(d)[0] == "250" && CodesToFile(d)[1..] == ["200", "226", "221"];
      assert p2 == Progress(FTP_PORT, p.sent + [CWD(d.dir)] + PortOf(bound), false);
      TransferFile(p2, rest[1..], d, bound);
    } else {
      TransferFile(p1, rest, d, bound);
    }
  }

  lemma TransferFile(p: Progress, lines: seq<string>, d: Download, bound: Option<Bound>)
    requires p.state == FTP_PORT && !p.dropped && Agrees(lines, ["200", "226", "221"])
    ensures AllLines(p, lines, d, bound) == Progress(FTP_QUIT, p.sent + [RETR(d.file), QUIT], true)
  {
    var p1 := Line(p, lines[0], Some(d), bound);
    var p2 := Line(p1, lines[1], Some(d), bound);
    assert lines[1..][1..] == [lines[2]] && lines[1..][0] == lines[1];
    assert AllLines(p2, [lines[2]], d, bound) == Line(p2, lines[2], Some(d), bound);
  }

  /** A server that agrees to everything is asked for the file with all the commands that the download calls for. */
  lemma Transfers(d: Download, bound: Option<Bound>, lines: seq<string>, chunks: seq<string>)
    requires d.flags == 0 || d.flags % 2 == DF_TYPE_BINARY
    requires Agrees(lines, Codes(d)) && Flatten(chunks) == Stream(lines)
    ensures Feed(Start(Some(d)), chunks, bound)
         == Dialogue(Progress(FTP_QUIT, Commands(d, bound), true), "", Some(d))
  {
    var p := Start(Some(d)).progress;
    assert chunks != [];
    ChunksDoNotMatter(Start(Some(d)), chunks, bound);
    ScanLines(p, lines, d, bound);
    var p1 := Progress(FTP_USER, [USER(d.user)], false);
    var p2 := Progress(FTP_PASS, [USER(d.user), PASS(d.pass)], false);
    assert Codes(d)[0] == "220" && Codes(d)[1] == "331" && Codes(d)[2] == "230";
    var l1, l2, l3 := lines[1..], lines[1..][1..], lines[1..][1..][1..];
    assert Line(p, lines[0], Some(d), bound) == p1 && Line(p1, l1[0], Some(d), bound) == p2;
    assert AllLines(p, lines, d, bound) == AllLines(p1, l1, d, bound) == AllLines(p2, l2, d, bound);
    if d.flags == 0 {
      assert Codes(d)[3..] == CodesToFile(d) && l3 == lines[3..];
      TransferToFile(p2, l2, d, bound);
    } else {
      var p3 := Progress(FTP_TYPE, p2.sent + [TYPE], false);
      assert Codes(d)[3] == "200" && Codes(d)[4..] == CodesToFile(d) && l3[1..] == lines[4..];
      TransferToFile(p3, l3, d, bound);
    }
  }

  /** Flags without the binary one make the dialogue ignore that the password was accepted. */
  lemma {:induction false} OtherFlagsStuck(d: Download, bound: Option<Bound>, p: Progress, line: string, text: string)
    requires d.flags != 0 && p.state == FTP_PASS && !p.dropped
    ensures (exists l :: Line(p, l, Some(d), bound).state != FTP_PASS) <==> d.flags % 2 == DF_TYPE_BINARY
    ensures d.flags % 2 != DF_TYPE_BINARY ==> Scan(p, line, text, Some(d), bound).0 == p
    decreases |text|
  {
    if d.flags % 2 == DF_TYPE_BINARY {
      assert Line(p, "230", Some(d), bound).state == FTP_TYPE;
    } else if text != "" {
      OtherFlagsStuck(d, bound, p, if text[0] == '\n' then "" else line + [text[0]], text[1..]);
    }
  }
}
