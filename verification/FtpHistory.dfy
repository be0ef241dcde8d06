/** Which lines of the server make the FTP client leave a command out. */
module FtpHistory {
  import opened Ftp
  import opened FtpRuns
  import opened Options

  /** A line as it was handled: in which state, for which download, and with the port that could be bound. */
  datatype Turn = Turn(state: State, line: string, download: Option<Download>, bound: Option<Bound>)

  /** The lines that one message completes. */
  function Turns(p: Progress, line: string, text: string, d: Option<Download>, bound: Option<Bound>): seq<Turn>
    requires Rank(p.state) < 6 ==> d.Some?
    decreases |text|
  {
    if p.dropped || text == "" then []
    else if text[0] == '\n' then
      [Turn(p.state, line, d, bound)] + Turns(Line(p, line, d, bound), "", text[1..], d, bound)
    else Turns(p, line + [text[0]], text[1..], d, bound)
  }

  function EventTurns(d: Dialogue, e: Event): seq<Turn> {
    if e.Data? && !d.progress.dropped && !Broken(d) then Turns(d.progress, d.buffer, e.text, d.download, e.bound)
    else []
  }

  function RunTurns(d: Dialogue, events: seq<Event>): seq<Turn>
    decreases |events|
  {
    if events == [] then [] else EventTurns(d, events[0]) + RunTurns(Step(d, events[0]), events[1..])
  }

  // ---------------------------------------------------------------- causes

  datatype Cause = Greeted331 | Cwd200 | Unbound

  /** The line that is answered by PORT, if a port can be bound. */
  predicate CallsForPort(t: Turn) {
    t.download.Some? &&
    var d := t.download.value;
    || (t.state == FTP_PASS && Replies(t.line, "230") && d.flags == 0 && d.dir == "")
    || (t.state == FTP_TYPE && Replies(t.line, "200") && d.dir == "")
    || (t.state == FTP_CWD && Replies(t.line, "250"))
  }

  predicate IsCause(c: Cause, t: Turn) {
    match c
    case Greeted331 => t.state == FTP_CONNECTED && Replies(t.line, "331")
    case Cwd200 => t.state == FTP_CWD && Replies(t.line, "200")
    case Unbound => CallsForPort(t) && t.bound.None?
  }

  predicate Happened(c: Cause, turns: seq<Turn>) {
    exists i :: 0 <= i < |turns| && IsCause(c, turns[i])
  }

  /** The places of the commands that matter here, as Place gives them. */
  const AT_USER := 1
  const AT_PASS := 2
  const AT_PORT := 5
  const AT_RETR := 6

  /** The command of that place was sent. */
  predicate WasSent(place: nat, sent: seq<Command>) {
    exists i :: 0 <= i < |sent| && Place(sent[i]) == place
  }

  lemma OneMoreTurn(c: Cause, turns: seq<Turn>, t: Turn)
    ensures Happened(c, turns + [t]) <==> Happened(c, turns) || IsCause(c, t)
  {
    var all := turns + [t];
    if Happened(c, turns) {
      var i :| 0 <= i < |turns| && IsCause(c, turns[i]);
      assert IsCause(c, all[i]);
    }
    if IsCause(c, t) {
      assert IsCause(c, all[|turns|]);
    }
  }

  lemma OneMoreSent(place: nat, sent: seq<Command>, c: Command)
    ensures WasSent(place, sent + [c]) <==> WasSent(place, sent) || Place(c) == place
  {
    var all := sent + [c];
    if WasSent(place, sent) {
      var i :| 0 <= i < |sent| && Place(sent[i]) == place;
      assert Place(all[i]) == place;
    }
    if Place(c) == place {
      assert Place(all[|sent|]) == place;
    }
  }

  // ---------------------------------------------------------------- the history of USER and PASS

  predicate LoginHistory(p: Progress, turns: seq<Turn>) {
    && (WasSent(AT_PASS, p.sent) <==> Rank(p.state) >= 2)
    && (Rank(p.state) < 2 ==> !Happened(Greeted331, turns) && (WasSent(AT_USER, p.sent) <==> Rank(p.state) == 1))
    && (Rank(p.state) >= 2 ==> (WasSent(AT_USER, p.sent) <==> !Happened(Greeted331, turns)))
  }

  /** What a line may send: nothing, or one command. */
  lemma LineSends(p: Progress, line: string, d: Option<Download>, bound: Option<Bound>)
    requires Rank(p.state) < 6 ==> d.Some?
    ensures var q := Line(p, line, d, bound);
            q.sent == p.sent || (|q.sent| == |p.sent| + 1 && q.sent[..|p.sent|] == p.sent)
  {
  }

  lemma LineSent(place: nat, p: Progress, line: string, d: Option<Download>, bound: Option<Bound>)
    requires Rank(p.state) < 6 ==> d.Some?
    ensures var q := Line(p, line, d, bound);
            WasSent(place, q.sent) <==>
              WasSent(place, p.sent) || (|q.sent| > |p.sent| && Place(q.sent[|p.sent|]) == place)
  {
    var q := Line(p, line, d, bound);
    LineSends(p, line, d, bound);
    if |q.sent| > |p.sent| {
      assert q.sent == p.sent + [q.sent[|p.sent|]];
      OneMoreSent(place, p.sent, q.sent[|p.sent|]);
    }
  }

  lemma LineLogin(p: Progress, turns: seq<Turn>, line: string, d: Option<Download>, bound: Option<Bound>)
    requires (Rank(p.state) < 6 ==> d.Some?) && LoginHistory(p, turns)
    ensures LoginHistory(Line(p, line, d, bound), turns + [Turn(p.state, line, d, bound)])
  {
    OneMoreTurn(Greeted331, turns, Turn(p.state, line, d, bound));
    LineSent(AT_USER, p, line, d, bound);
    LineSent(AT_PASS, p, line, d, bound);
  }

  // ---------------------------------------------------------------- the history of PORT and RETR

  predicate PortSkipped(turns: seq<Turn>) {
    Happened(Cwd200, turns) || Happened(Unbound, turns)
  }

  predicate PortHistory(p: Progress, turns: seq<Turn>) {
    && (WasSent(AT_RETR, p.sent) <==> Rank(p.state) >= 6)
    && (Rank(p.state) < 5 ==> !PortSkipped(turns) && !WasSent(AT_PORT, p.sent))
    && (Rank(p.state) >= 5 ==> (WasSent(AT_PORT, p.sent) <==> !PortSkipped(turns)))
  }

  lemma LinePort(p: Progress, turns: seq<Turn>, line: string, d: Option<Download>, bound: Option<Bound>)
    requires (Rank(p.state) < 6 ==> d.Some?) && PortHistory(p, turns)
    ensures PortHistory(Line(p, line, d, bound), turns + [Turn(p.state, line, d, bound)])
  {
    OneMoreTurn(Cwd200, turns, Turn(p.state, line, d, bound));
    OneMoreTurn(Unbound, turns, Turn(p.state, line, d, bound));
    LineSent(AT_PORT, p, line, d, bound);
    LineSent(AT_RETR, p, line, d, bound);
  }

  // ---------------------------------------------------------------- whole runs

  predicate History(p: Progress, turns: seq<Turn>) {
    LoginHistory(p, turns) && PortHistory(p, turns)
  }

  lemma {:induction false} ScanHistory(p: Progress, turns: seq<Turn>, line: string, text: string,
                                       d: Option<Download>, bound: Option<Bound>)
    requires (Rank(p.state) < 6 ==> d.Some?) && History(p, turns)
    ensures History(Scan(p, line, text, d, bound).0, turns + Turns(p, line, text, d, bound))
    decreases |text|
  {
    if p.dropped || text == "" {
      assert turns + [] == turns;
    } else if text[0] == '\n' {
      var t, q := Turn(p.state, line, d, bound), Line(p, line, d, bound);
      var later := Turns(q, "", text[1..], d, bound);
      assert turns + ([t] + later) == turns + [t] + later;
      LineLogin(p, turns, line, d, bound);
      LinePort(p, turns, line, d, bound);
      ScanHistory(q, turns + [t], "", text[1..], d, bound);
    } else {
      ScanHistory(p, turns, line + [text[0]], text[1..], d, bound);
    }
  }

  lemma StepHistory(d: Dialogue, turns: seq<Turn>, e: Event)
    requires History(d.progress, turns)
    ensures History(Step(d, e).progress, turns + EventTurns(d, e))
  {
    assert turns + [] == turns;
    match e
    case Data(text, bound) =>
      if !d.progress.dropped && !Broken(d) {
        ScanHistory(d.progress, turns, d.buffer, text, d.download, bound);
      }
    case TimedOut =>
      forall place ensures WasSent(place, d.progress.sent + [QUIT]) <==> WasSent(place, d.progress.sent) || place == 7 {
        OneMoreSent(place, d.progress.sent, QUIT);
      }
    case TakenOver(_) =>
  }

  lemma {:induction false} RunHistory(d: Dialogue, turns: seq<Turn>, events: seq<Event>)
    requires History(d.progress, turns)
    ensures History(Run(d, events).progress, turns + RunTurns(d, events))
    decreases |events|
  {
    if events == [] {
      assert turns + [] == turns;
    } else {
      var now, d' := EventTurns(d, events[0]), Step(d, events[0]);
      StepHistory(d, turns, events[0]);
      RunHistory(d', turns + now, events[1..]);
      assert turns + (now + RunTurns(d', events[1..])) == turns + now + RunTurns(d', events[1..]);
    }
  }

  lemma HistoryOf(down: Option<Download>, events: seq<Event>)
    ensures History(Run(Start(down), events).progress, RunTurns(Start(down), events))
  {
    RunHistory(Start(down), [], events);
    assert [] + RunTurns(Start(down), events) == RunTurns(Start(down), events);
  }

  /** In every run, RETR goes out without PORT exactly if CWD was answered by 200, or no port could be bound. */
  lemma RetrWithoutPort(down: Option<Download>, events: seq<Event>)
    ensures var p, turns := Run(Start(down), events).progress, RunTurns(Start(down), events);
            WasSent(AT_RETR, p.sent) ==>
              (!WasSent(AT_PORT, p.sent) <==> Happened(Cwd200, turns) || Happened(Unbound, turns))
  {
    HistoryOf(down, events);
  }

  /** In every run, PASS goes out without USER exactly if a 331 came instead of the greeting. */
  lemma PassWithoutUser(down: Option<Download>, events: seq<Event>)
    ensures var p, turns := Run(Start(down), events).progress, RunTurns(Start(down), events);
            WasSent(AT_PASS, p.sent) ==> (!WasSent(AT_USER, p.sent) <==> Happened(Greeted331, turns))
  {
    HistoryOf(down, events);
  }

  // ---------------------------------------------------------------- such runs

  /** Whole lines that arrive at once before the transfer. */
  lemma LinesAtOnce(d: Download, bound: Option<Bound>, lines: seq<string>)
    requires forall i :: 0 <= i < |lines| ==> '\n' !in lines[i]
    ensures Run(Start(Some(d)), [Data(Stream(lines), bound)]).progress
         == AllLines(Start(Some(d)).progress, lines, d, bound)
  {
    ScanLines(Start(Some(d)).progress, lines, d, bound);
    var s := Step(Start(Some(d)), Data(Stream(lines), bound));
    assert Run(s, []) == s;
  }

  lemma FirstOfLines(p: Progress, line: string, later: seq<string>, d: Download, bound: Option<Bound>)
    requires !p.dropped
    ensures AllLines(p, [line] + later, d, bound) == AllLines(Line(p, line, Some(d), bound), later, d, bound)
  {
    assert ([line] + later)[1..] == later;
  }

  lemma PassWithoutUserExample(d: Download, bound: Option<Bound>)
    ensures Run(Start(Some(d)), [Data(Stream(["331"]), bound)]).progress.sent == [PASS(d.pass)]
  {
    LinesAtOnce(d, bound, ["331"]);
    FirstOfLines(Start(Some(d)).progress, "331", [], d, bound);
    assert ["331"] + [] == ["331"] && Replies("331", "331");
  }

  function LoginLines(later: seq<string>): seq<string> {
    ["220"] + (["331"] + (["230"] + later))
  }

  lemma LoggedIn(d: Download, bound: Option<Bound>, later: seq<string>)
    ensures AllLines(Start(Some(d)).progress, LoginLines(later), d, bound)
         == AllLines(Line(Progress(FTP_PASS, [USER(d.user), PASS(d.pass)], false), "230", Some(d), bound),
                     later, d, bound)
  {
    var p0 := Start(Some(d)).progress;
    var p1, p2 := Progress(FTP_USER, [USER(d.user)], false), Progress(FTP_PASS, [USER(d.user), PASS(d.pass)], false);
    FirstOfLines(p0, "220", ["331"] + (["230"] + later), d, bound);
    assert Line(p0, "220", Some(d), bound) == p1;
    FirstOfLines(p1, "331", ["230"] + later, d, bound);
    assert Line(p1, "331", Some(d), bound) == p2;
    FirstOfLines(p2, "230", later, d, bound);
  }

  /** A server that answers CWD by 200 is asked for the file although it was told no port. */
  lemma RetrAfterCwdExample(d: Download, bound: Option<Bound>)
    requires d.flags == 0 && d.dir != ""
    ensures Run(Start(Some(d)), [Data(Stream(LoginLines(["200"])), bound)]).progress.sent
         == [USER(d.user), PASS(d.pass), CWD(d.dir), RETR(d.file)]
  {
    LinesAtOnce(d, bound, LoginLines(["200"]));
    LoggedIn(d, bound, ["200"]);
    var p := Progress(FTP_CWD, [USER(d.user), PASS(d.pass), CWD(d.dir)], false);
    FirstOfLines(p, "200", [], d, bound);
    assert ["200"] + [] == ["200"] && Replies("200", "200");
  }

  /** And so is one that just consents while no port can be bound. */
  lemma RetrUnboundExample(d: Download)
    requires d.flags == 0 && d.dir == ""
    ensures Run(Start(Some(d)), [Data(Stream(LoginLines(["200"])), None)]).progress.sent
         == [USER(d.user), PASS(d.pass), RETR(d.file)]
  {
    LinesAtOnce(d, None, LoginLines(["200"]));
    LoggedIn(d, None, ["200"]);
    var p := Progress(FTP_PORT, [USER(d.user), PASS(d.pass)], false);
    FirstOfLines(p, "200", [], d, None);
    assert ["200"] + [] == ["200"] && [USER(d.user), PASS(d.pass)] + [] == [USER(d.user), PASS(d.pass)];
  }
}
