/** What a server reads in the client's commands, and when a timeout ends the dialogue. */
module FtpCommands {
  import opened Chars
  import opened Ftp
  import opened FtpRuns
  import opened Options

  // ---------------------------------------------------------------- commands

  /** The text before the first c. */
  function UpTo(s: string, c: char): (r: string)
    ensures r <= s
  {
    if s == "" || s[0] == c then "" else [s[0]] + UpTo(s[1..], c)
  }

  lemma {:induction false} VerbRead(verb: string, arg: string)
    requires ' ' !in verb
    ensures UpTo(verb + (" " + arg), ' ') == verb
  {
    var all := verb + (" " + arg);
    if verb != "" {
      assert all[0] == verb[0] && all[1..] == verb[1..] + (" " + arg);
      VerbRead(verb[1..], arg);
    }
  }

  /** A server's reading of a line: section 5.3.1 of RFC 959, as far as the client needs it. */
  function Parsed(line: string): Option<Command> {
    var verb := UpTo(line, ' ');
    if |verb| == |line| then if line == "QUIT" then Some(QUIT) else None
    else WithArgument(verb, line[|verb| + 1..])
  }

  function WithArgument(verb: string, arg: string): Option<Command> {
    if verb == "USER" then Some(USER(arg))
    else if verb == "PASS" then Some(PASS(arg))
    else if verb == "TYPE" then if arg == "I" then Some(TYPE) else None
    else if verb == "CWD" then Some(CWD(arg))
    else if verb == "RETR" then Some(RETR(arg))
    else if verb == "PORT" then
      var numbers := Numbers(arg, 0);
      if |numbers| == 6 then Some(PORT(numbers[..4], 0x100 * numbers[4] + numbers[5])) else None
    else None
  }

  lemma VerbAndArgument(verb: string, arg: string)
    requires ' ' !in verb
    ensures Parsed(verb + (" " + arg)) == WithArgument(verb, arg)
  {
    var line := verb + (" " + arg);
    VerbRead(verb, arg);
    assert line[|verb| + 1..] == arg;
  }

  /** The text of a command without its line break. */
  function Body(c: Command): string {
    var t := Text(c);
    if |t| >= 2 then t[..|t| - 2] else t
  }

  lemma Chopped(body: string, t: string)
    requires t == body + "\r\n"
    ensures |t| >= 2 && t[..|t| - 2] == body && t[|t| - 2..] == "\r\n"
  {
  }

  lemma ArgumentRead(c: Command, verb: string, arg: string)
    requires ' ' !in verb && Text(c) == verb + " " + arg + "\r\n"
    ensures |Text(c)| >= 2 && Text(c)[|Text(c)| - 2..] == "\r\n"
    ensures Parsed(Body(c)) == WithArgument(verb, arg)
  {
    var body := verb + (" " + arg);
    assert body == verb + " " + arg;
    Chopped(body, Text(c));
    VerbAndArgument(verb, arg);
  }

  lemma PortNumbers(ip: seq<nat>, port: nat, arg: string)
    requires |ip| == 4 && port < 0x1_0000 && Numbers(arg, 0) == ip + [port / 0x100, port % 0x100]
    ensures WithArgument("PORT", arg) == Some(PORT(ip, port))
  {
    var numbers := Numbers(arg, 0);
    assert numbers[..4] == ip && numbers[4] == port / 0x100 && numbers[5] == port % 0x100;
  }

  lemma PortRead(ip: seq<nat>, port: nat)
    requires |ip| == 4 && port < 0x1_0000
    ensures var c := PORT(ip, port);
            |Text(c)| >= 2 && Text(c)[|Text(c)| - 2..] == "\r\n" && Parsed(Body(c)) == Some(c)
  {
    var t := Text(PORT(ip, port));
    PortReads(ip, port);
    var arg := t[5..|t| - 2];
    assert t == t[..5] + arg + t[|t| - 2..];
    assert "PORT " == "PORT" + " ";
    ArgumentRead(PORT(ip, port), "PORT", arg);
    PortNumbers(ip, port, arg);
  }

  /** Every command is sent on a line of its own, from which a server reads just that command. */
  lemma CommandRead(c: Command)
    requires c.PORT? ==> |c.ip| == 4 && c.port < 0x1_0000
    ensures |Text(c)| >= 2 && Text(c)[|Text(c)| - 2..] == "\r\n" && Parsed(Body(c)) == Some(c)
  {
    match c
    case USER(name) => assert "USER " == "USER" + " "; ArgumentRead(c, "USER", name);
    case PASS(password) => assert "PASS " == "PASS" + " "; ArgumentRead(c, "PASS", password);
    case TYPE => TypeRead();
    case CWD(dir) => assert "CWD " == "CWD" + " "; ArgumentRead(c, "CWD", dir);
    case PORT(ip, port) => PortRead(ip, port);
    case RETR(file) => assert "RETR " == "RETR" + " "; ArgumentRead(c, "RETR", file);
    case QUIT => QuitRead();
  }

  lemma TypeRead()
    ensures Text(TYPE) == "TYPE I\r\n" && Parsed(Body(TYPE)) == Some(TYPE)
  {
    assert "TYPE I\r\n" == "TYPE" + " " + "I" + "\r\n";
    ArgumentRead(TYPE, "TYPE", "I");
  }

  lemma QuitRead()
    ensures Body(QUIT) == "QUIT" && Parsed("QUIT") == Some(QUIT)
  {
    var q := "QUIT";
    assert q[1..] == "UIT" && q[1..][1..] == "IT" && q[1..][1..][1..] == "T" && q[1..][1..][1..][1..] == "";
    assert UpTo("T", ' ') == "T" && UpTo("IT", ' ') == "IT" && UpTo("UIT", ' ') == "UIT";
  }

  // ---------------------------------------------------------------- timeouts

  /** During the transfer RETR is the newest command, and at its end QUIT. */
  predicate TailOk(p: Progress) {
    && (p.state == FTP_RETR ==> p.sent != [] && p.sent[|p.sent| - 1].RETR?)
    && (p.state == FTP_QUIT ==> p.sent != [] && p.sent[|p.sent| - 1].QUIT?)
  }

  lemma {:induction false} ScanTail(p: Progress, line: string, text: string, d: Option<Download>, bound: Option<Bound>)
    requires (Rank(p.state) < 6 ==> d.Some?) && TailOk(p)
    ensures TailOk(Scan(p, line, text, d, bound).0)
    decreases |text|
  {
    ScanForward(p, line, text, d, bound);
    if text != "" && !p.dropped {
      if text[0] == '\n' {
        var q := Line(p, line, d, bound);
        LineLater(p, line, d, bound);
        assert TailOk(q);
        ScanTail(q, "", text[1..], d, bound);
      } else {
        ScanTail(p, line + [text[0]], text[1..], d, bound);
      }
    }
  }

  lemma {:induction false} RunTail(d: Dialogue, events: seq<Event>)
    requires TailOk(d.progress)
    ensures TailOk(Run(d, events).progress)
    decreases |events|
  {
    if events != [] {
      var e := events[0];
      if e.Data? && !d.progress.dropped && !Broken(d) {
        ScanTail(d.progress, d.buffer, e.text, d.download, e.bound);
      }
      RunTail(Step(d, e), events[1..]);
    }
  }

  /**
   * Over every run: the first timeout of a transfer, when RETR is the newest command, is answered by QUIT; every other
   * timeout, and so the second one in any case, ends the dialogue without a command.
   */
  lemma TimeoutEnds(down: Option<Download>, events: seq<Event>)
    ensures var d := Run(Start(down), events);
            var once, sent := Step(d, TimedOut), d.progress.sent;
            var transfer := sent != [] && sent[|sent| - 1].RETR?;
            !d.progress.dropped ==>
              && (once.progress.dropped <==> !transfer)
              && once.progress.sent == sent + (if transfer then [QUIT] else [])
              && Step(once, TimedOut).progress.dropped && Step(once, TimedOut).progress.sent == once.progress.sent
  {
    var d := Run(Start(down), events);
    RunTail(Start(down), events);
    CommandsInOrder(down, events);
    assert d.progress.sent + [] == d.progress.sent;
  }

  /**
   * Over every run: a message that comes when the download was given up ends the dialogue without a command, unless
   * RETR or QUIT is the newest command, in which case the download is not needed any more.
   */
  lemma GivenUpEnds(down: Option<Download>, events: seq<Event>, text: string, bound: Option<Bound>)
    ensures var d := Run(Start(down), events);
            var next, sent := Step(d, Data(text, bound)), d.progress.sent;
            var begun := sent != [] && (sent[|sent| - 1].RETR? || sent[|sent| - 1].QUIT?);
            !d.progress.dropped && d.download.None? && !begun ==> next.progress.dropped && next.progress.sent == sent
  {
    var d := Run(Start(down), events);
    RunTail(Start(down), events);
    CommandsInOrder(down, events);
  }
}
