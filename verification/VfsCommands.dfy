/** What single commands do when their text stands in the input. */
module VfsCommands {
  import opened Chars
  import opened VfsText
  import opened VfsShell
  import opened VfsScript

  predicate PlainWords(words: seq<string>) {
    forall i :: 0 <= i < |words| ==> PlainWord(words[i])
  }

  // ---------------------------------------------------------------- where the words of a line end

  /** Nothing but characters that are not visible. */
  predicate Invisible(t: string) {
    forall i :: 0 <= i < |t| ==> t[i] == ' ' || t[i] == '\0'
  }

  lemma {:induction false} NoWords(t: string)
    requires Invisible(t)
    ensures Words(t, "") == []
  {
    if t != "" {
      NoWords(t[1..]);
    }
  }

  /** The words, each followed by a space. */
  lemma {:induction false} WordsOfSpaced(words: seq<string>, post: string)
    requires PlainWords(words) && Invisible(post)
    ensures Words(Spaced(words) + post, "") == words
  {
    if words == [] {
      assert Spaced(words) + post == post;
      NoWords(post);
    } else {
      var w, rest := words[0], Spaced(words[1..]) + post;
      assert Spaced(words) + post == w + (" " + rest);
      WordsOfSpaced(words[1..], post);
      WordsStep(w, " " + rest, "");
      assert (" " + rest)[1..] == rest && "" + w == w && [w] + words[1..] == words;
    }
  }

  predicate Nuls(t: string) {
    t != "" && forall i :: 0 <= i < |t| ==> t[i] == '\0'
  }

  lemma LastWord(w: string, nuls: string)
    requires PlainWord(w) && Nuls(nuls)
    ensures Words(w + nuls, "") == [w]
  {
    WordsStep(w, nuls, "");
    NoWords(nuls[1..]);
    assert "" + w == w;
  }

  /** The words, each behind a space, before NULs. */
  lemma {:induction false} WordsBeforeNul(words: seq<string>, nuls: string)
    requires PlainWords(words) && words != [] && Nuls(nuls)
    ensures Words((Tail(words) + nuls)[1..], "") == words && Words(Tail(words) + nuls, "") == words
  {
    var w, later := words[0], words[1..];
    var rest := Tail(later) + nuls;
    assert (Tail(words) + nuls)[1..] == w + rest;
    if later == [] {
      assert rest == nuls;
      LastWord(w, nuls);
      assert words == [w];
    } else {
      WordsBeforeNul(later, nuls);
      WordsStep(w, rest, "");
      assert "" + w == w && words == [w] + later;
    }
  }

  // ---------------------------------------------------------------- lines that a line break ends

  predicate IsBreak(e: string) {
    e == "\n" || e == "\r\n"
  }

  /** What stands in a line break's place when the line is read. */
  function Cleared(e: string): string {
    if e == "\n" then "\0" else "\0\0"
  }

  lemma QuietBreak(t: string, e: string)
    requires Quiet(t) && IsBreak(e)
    ensures ClearBreaks(t + e) == t + Cleared(e) && Nuls(Cleared(e))
  {
    QuietClear(t, e);
    assert ("\r\n")[1..] == "\n" && ("\n")[1..] == "" && "\0" + "" == "\0" && ["\0"[0]] + "\0" == "\0\0";
    assert ClearBreaks("\n") == "\0" && ClearBreaks("\r\n") == "\0\0";
  }

  lemma {:induction false} CStrEnds(t: string, nuls: string)
    requires Quiet(t) && Nuls(nuls)
    ensures CStr(t + nuls) == t
  {
    if t == "" {
      assert t + nuls == nuls;
    } else {
      assert (t + nuls)[1..] == t[1..] + nuls;
      CStrEnds(t[1..], nuls);
    }
  }

  lemma BreakStop(e: string, haschar: bool)
    requires IsBreak(e)
    ensures CommandStop(e, haschar, false) == |e|
  {
    assert ("\r\n")[1..] == "\n" && ("\n")[1..] == "";
  }

  lemma {:induction false} StopAtBreak(w: string, e: string, haschar: bool)
    requires Quiet(w) && ' ' !in w && IsBreak(e)
    ensures CommandStop(w + e, haschar, false) == |w| + |e|
  {
    if w == "" {
      assert w + e == e;
      BreakStop(e, haschar);
    } else {
      assert (w + e)[1..] == w[1..] + e;
      StopAtBreak(w[1..], e, true);
    }
  }

  /** A command without parameters. */
  lemma LoneCommand(w: string, e: string)
    requires PlainWord(w) && IsBreak(e)
    ensures Command(w + e) == w && Params(w + e) == []
  {
    var line := w + e;
    StopAtBreak(w, e, false);
    assert line[..|line|] == line == line[0..|line|] && line[|line|..] == "";
    QuietBreak(w, e);
    CStrEnds(w, Cleared(e));
  }

  lemma WordAndTail(w: string, tail: string)
    requires PlainWord(w) && tail != "" && tail[0] == ' '
    ensures Command(w + tail) == w && Params(w + tail) == Words(ClearBreaks(tail), "")
  {
    var line := w + tail;
    StopAfterWord(w, tail, false);
    assert line[..|w|] == w == line[0..|w|] && line[|w|..] == tail;
    QuietIsKept(w);
    QuietCStr(w);
  }

  lemma CommandBeforeBreak(w: string, words: seq<string>, e: string)
    requires PlainWord(w) && PlainWords(words) && IsBreak(e)
    ensures Command(w + Tail(words) + e) == w && Params(w + Tail(words) + e) == words
  {
    var tail := Tail(words);
    if words == [] {
      assert w + tail + e == w + e;
      LoneCommand(w, e);
    } else {
      assert w + tail + e == w + (tail + e);
      WordAndTail(w, tail + e);
      QuietTail(words);
      QuietBreak(tail, e);
      WordsBeforeNul(words, Cleared(e));
    }
  }

  lemma BreakLength(e: string, post: string, haschar: bool)
    requires IsBreak(e)
    ensures LineLength(e + post, false, false, haschar) == |e|
  {
    assert "\r\n" + post == "\r" + ("\n" + post) && ("\r" + ("\n" + post))[1..] == "\n" + post;
  }

  lemma QuietLine(line: string, e: string, post: string)
    requires Quiet(line) && IsBreak(e)
    ensures LineLength(line + e + post, false, false, false) == |line + e|
    ensures FirstLine(line + e + post) == line + e
  {
    var stdin, whole := line + e + post, line + e;
    assert stdin == line + (e + post);
    QuietLength(line, e + post, false, false);
    BreakLength(e, post, line != "");
    assert stdin[..|whole|] == whole;
    QuietWhole(line, e, whole);
    LineUnchanged(stdin, whole);
  }

  lemma QuietWhole(line: string, e: string, whole: string)
    requires Quiet(line) && IsBreak(e) && whole == line + e
    ensures whole != "" && whole[|whole| - 1] == '\n' && forall i :: 0 <= i < |whole| ==> whole[i] != '^'
  {
  }

  lemma LineUnchanged(stdin: string, whole: string)
    requires whole != "" && LineLength(stdin, false, false, false) == |whole| && stdin[..|whole|] == whole
    requires whole[|whole| - 1] == '\n' && forall i :: 0 <= i < |whole| ==> whole[i] != '^'
    ensures FirstLine(stdin) == whole
  {
    QuietUnescape(whole, "");
    assert whole + "" == whole;
  }

  /** A plain command on a line of its own, ended by a line feed or by both, is dispatched with its words. */
  lemma RoundOfCommand(s: Shell, w: string, words: seq<string>, e: string, post: string)
    requires PlainWord(w) && PlainWords(words) && IsBreak(e) && s.stdin == w + Tail(words) + e + post
    ensures Round(s) == Dispatch(s.(stdin := post), w, words)
  {
    var line := w + Tail(words);
    QuietTail(words);
    QuietLine(line, e, post);
    CommandBeforeBreak(w, words, e);
    RoundOfLine(s, line + e, post, w, words);
  }

  /** Spaces before a command. */
  predicate Blank(t: string) {
    forall i :: 0 <= i < |t| ==> t[i] == ' '
  }

  lemma {:induction false} BlankSkipped(t: string, w: string, tail: string)
    requires Blank(t) && PlainWord(w) && (tail == "" || tail[0] == ' ')
    ensures CommandStop(t + (w + tail), false, false) == |t| + |w|
  {
    if t == "" {
      assert t + (w + tail) == w + tail;
      StopAfterWord(w, tail, false);
    } else {
      assert (t + (w + tail))[1..] == t[1..] + (w + tail);
      BlankSkipped(t[1..], w, tail);
    }
  }

  lemma {:induction false} BlankLeads(t: string, w: string)
    requires Blank(t) && PlainWord(w)
    ensures Leading(t + w) == |t|
  {
    if t == "" {
      assert t + w == w;
    } else {
      assert (t + w)[1..] == t[1..] + w;
      BlankLeads(t[1..], w);
    }
  }

  /** Spaces before a command do not change how it is read. */
  lemma CommandBehindBlank(t: string, w: string, words: seq<string>)
    requires Blank(t) && PlainWord(w) && PlainWords(words)
    ensures Command(t + (w + Tail(words))) == w && Params(t + (w + Tail(words))) == words
  {
    var tail := Tail(words);
    var line := t + (w + tail);
    BlankSkipped(t, w, tail);
    BlankLeads(t, w);
    var n := |t| + |w|;
    assert line[..n] == t + w && line[|t|..n] == w && line[n..] == tail;
    QuietIsKept(w);
    QuietCStr(w);
    QuietTail(words);
    QuietIsKept(tail);
    WordsOfTail(words);
  }

  // ---------------------------------------------------------------- names in capital letters

  function ToUpper(c: char): char {
    if 'a' <= c <= 'z' then (c as int - 32) as char else c
  }

  /** Names are the same if and only if they are so in capital letters. */
  lemma SameNameIff(a: string, b: string)
    ensures SameName(a, b) <==> |a| == |b| && forall i :: 0 <= i < |a| ==> ToUpper(a[i]) == ToUpper(b[i])
  {
    forall c: char, d: char ensures ToLower(c) == ToLower(d) <==> ToUpper(c) == ToUpper(d) {
    }
  }

  /** The switches of cmd, in small or capital letters. */
  lemma SwitchIff(param: string)
    ensures IsSwitch(param) <==> |param| >= 2 && param[0] == '/' && param[1] in {'c', 'C', 'k', 'K'}
  {
    if |param| >= 2 {
      assert param[..2][0] == param[0] && param[..2][1] == param[1];
      SwitchLetters(param[0], param[1]);
      assert SameName(param[..2], "/c") <==> ToLower(param[0]) == '/' && ToLower(param[1]) == 'c';
      assert SameName(param[..2], "/k") <==> ToLower(param[0]) == '/' && ToLower(param[1]) == 'k';
    }
  }

  lemma SwitchLetters(c: char, d: char)
    ensures ToLower(c) == '/' <==> c == '/'
    ensures ToLower(d) == 'c' <==> d in {'c', 'C'}
    ensures ToLower(d) == 'k' <==> d in {'k', 'K'}
  {
  }

  // ---------------------------------------------------------------- lines that cmd and start put back

  lemma {:induction false} QuietSpaced(words: seq<string>)
    requires PlainWords(words)
    ensures Quiet(Spaced(words))
  {
    if words != [] {
      QuietSpaced(words[1..]);
    }
  }

  lemma {:induction false} GluedWords(words: seq<string>)
    requires PlainWords(words)
    ensures words != [] ==> PlainWord(Glued(words)) && words[0] <= Glued(words)
    ensures |Glued(words)| >= |words|
    ensures |words| > 1 ==> |Glued(words)| > |words[0]|
  {
    if words != [] {
      GluedWords(words[1..]);
    }
  }

  /** A line that a separator ends is read with a NUL in the separator's place. */
  lemma SeparatedLine(line: string, post: string)
    requires Quiet(line)
    ensures LineLength(line + "&" + post, false, false, false) == |line| + 1
    ensures FirstLine(line + "&" + post) == line + "\0"
  {
    var stdin, whole := line + "&" + post, line + "&";
    assert stdin == line + ("&" + post);
    QuietLength(line, "&" + post, false, false);
    assert stdin[..|whole|] == whole && whole[|line| := '\0'] == line + "\0";
    QuietUnescape(line + "\0", "");
    assert line + "\0" + "" == line + "\0";
  }

  /** What stands behind a command word that is put back, up to the separator. */
  lemma PutBackWords(w: string, words: seq<string>)
    requires PlainWord(w) && PlainWords(words)
    ensures var line := Spaced([w] + words) + " " + "\0"; Command(line) == w && Params(line) == words
  {
    var tail := " " + (Spaced(words) + " \0");
    assert ([w] + words)[1..] == words;
    assert Spaced([w] + words) + " " + "\0" == w + tail;
    WordAndTail(w, tail);
    QuietSpaced(words);
    QuietClear(" " + Spaced(words) + " ", "\0");
    assert tail == (" " + Spaced(words) + " ") + "\0";
    assert ClearBreaks("\0") == "\0";
    WordsOfSpaced(words, " \0");
    assert tail[1..] == Spaced(words) + " \0";
  }

  lemma PutBackWord(w: string)
    requires PlainWord(w)
    ensures Command(w + " " + "\0") == w && Params(w + " " + "\0") == []
  {
    assert w + " " + "\0" == w + " \0";
    WordAndTail(w, " \0");
    NoWords(" \0");
    assert ClearBreaks(" \0") == " \0";
  }

  // ---------------------------------------------------------------- cmd

  /** The line that is put back, up to the separator, and what stands behind that. */
  lemma SplitPutBack(text: string, post: string)
    requires Quiet(text)
    ensures var stdin := text + " & " + post;
            && stdin == text + " " + "&" + (" " + post)
            && LineLength(stdin, false, false, false) == |text| + 2 && stdin[|text| + 2..] == " " + post
            && FirstLine(stdin) == text + " " + "\0"
  {
    var stdin := text + " & " + post;
    assert stdin == text + " " + "&" + (" " + post);
    SeparatedLine(text + " ", " " + post);
  }

  /** The command and the parameters that the first line of the input is read as. */
  predicate Reads(stdin: string, command: string, params: seq<string>) {
    stdin != "" && Command(FirstLine(stdin)) == command && Params(FirstLine(stdin)) == params
  }

  lemma SpacedReads(words: seq<string>, post: string)
    requires words != [] && PlainWords(words)
    ensures Reads(Spaced(words) + " & " + post, words[0], words[1..])
  {
    QuietSpaced(words);
    SplitPutBack(Spaced(words), post);
    PutBackWords(words[0], words[1..]);
    assert [words[0]] + words[1..] == words;
  }

  lemma GluedReads(words: seq<string>, post: string)
    requires words != [] && PlainWords(words)
    ensures Reads(Glued(words) + " & " + post, Glued(words), [])
  {
    GluedWords(words);
    SplitPutBack(Glued(words), post);
    PutBackWord(Glued(words));
  }

  /** Glued words are read as they were only if there is one. */
  lemma GluedReadsIff(words: seq<string>, post: string)
    requires words != [] && PlainWords(words)
    ensures Reads(Glued(words) + " & " + post, words[0], words[1..]) <==> |words| == 1
  {
    GluedReads(words, post);
    if |words| == 1 {
      assert Glued(words) == words[0] + "" == words[0];
    }
  }

  /**
   * The words behind the switch of cmd come back as a command with its parameters if and only if the last of several
   * words is not the switch once more; otherwise they are glued together.
   */
  lemma CmdKeepsWords(switch: string, words: seq<string>, post: string)
    requires words != [] && PlainWords(words)
    ensures Reads(CmdLine([switch] + words) + post, words[0], words[1..])
       <==> |words| == 1 || words[|words| - 1] != switch
  {
    var params, last := [switch] + words, words[|words| - 1];
    assert params[1..] == words && params[|params| - 1] == last;
    if last == switch {
      GluedReadsIff(words, post);
    } else {
      SpacedReads(words, post);
    }
  }

  /** The words of start but for titles and options. */
  function Kept(params: seq<string>): seq<string> {
    if params == [] then []
    else (if Head(params[0]) == '\"' || Head(params[0]) == '/' then [] else [params[0]]) + Kept(params[1..])
  }

  lemma {:induction false} StartGlues(params: seq<string>)
    ensures StartLine(params) == Glued(Kept(params)) + " & "
  {
    if params != [] {
      StartGlues(params[1..]);
      var later := Kept(params[1..]);
      if Head(params[0]) == '\"' || Head(params[0]) == '/' {
        assert [] + later == later && "" + StartLine(params[1..]) == StartLine(params[1..]);
      } else {
        assert ([params[0]] + later)[1..] == later;
        assert params[0] + (Glued(later) + " & ") == params[0] + Glued(later) + " & ";
      }
    }
  }

  /** start puts a command back with its parameters if and only if it has none: it glues its words together. */
  lemma StartKeepsWords(params: seq<string>, post: string)
    requires Kept(params) != [] && PlainWords(Kept(params))
    ensures Reads(StartLine(params) + post, Kept(params)[0], Kept(params)[1..]) <==> |Kept(params)| == 1
  {
    StartGlues(params);
    GluedReadsIff(Kept(params), post);
  }

  lemma {:induction false} FromSwitchFinds(before: seq<string>, switch: string, words: seq<string>)
    requires forall i :: 0 <= i < |before| ==> !IsSwitch(before[i])
    requires IsSwitch(switch)
    ensures FromSwitch(before + ([switch] + words)) == [switch] + words
  {
    var all := before + ([switch] + words);
    if before == [] {
      assert all == [switch] + words;
    } else {
      assert all[0] == before[0] && all[1..] == before[1..] + ([switch] + words);
      FromSwitchFinds(before[1..], switch, words);
    }
  }

  predicate Called(p: Program, command: string) {
    Runs(ProgramName(p), command, ".exe")
  }

  lemma OtherNames()
    ensures forall p: Program :: p in {Dir, Echo, Redir, RRedir, Tftp, Ftp} ==> !Called(p, "cmd")
    ensures forall p: Program :: p in {Dir, Echo, Redir, RRedir} ==> !Called(p, "tftp")
    ensures forall p: Program :: p in {Dir, Echo} ==> !Called(p, ">")
  {
    assert ToLower("dir"[0]) != ToLower("cmd"[0]) && ToLower("ftp.exe"[0]) != ToLower("cmd.exe"[0]);
    assert ToLower("echo"[0]) != ToLower("tftp"[0]);
    assert |"cmd" + ".exe"| == 7 && |"tftp" + ".exe"| == 8 && |">" + ".exe"| == 5;
  }

  lemma OwnNames()
    ensures Called(Cmd, "cmd") && Called(Tftp, "tftp") && Called(Redir, ">")
  {
    assert "cmd" + ".exe" == "cmd.exe" && "tftp" + ".exe" == "tftp.exe";
  }

  lemma FindAt(nodes: seq<Node>, n: nat, command: string)
    requires Stocked(nodes) && n < |PROGRAMS| && Called(PROGRAMS[n].program, command)
    requires forall j :: 0 <= j < n ==> !Called(PROGRAMS[j].program, command)
    ensures FindExe(nodes, command) == n && nodes[n] == PROGRAMS[n]
  {
    assert forall j :: 0 <= j < |PROGRAMS| ==> nodes[j] == nodes[..|PROGRAMS|][j] == PROGRAMS[j];
    FirstExe(nodes, command, n);
    var i := FindExe(nodes, command);
    assert nodes[i] == PROGRAMS[i];
  }

  lemma FindCmd(nodes: seq<Node>)
    requires Stocked(nodes)
    ensures FindExe(nodes, "cmd") == 6 && nodes[6] == Exe(Cmd)
  {
    OtherNames();
    OwnNames();
    FindAt(nodes, 6, "cmd");
  }

  lemma FindTftp(nodes: seq<Node>)
    requires Stocked(nodes)
    ensures FindExe(nodes, "tftp") == 4 && nodes[4] == Exe(Tftp)
  {
    OtherNames();
    OwnNames();
    FindAt(nodes, 4, "tftp");
  }

  lemma FindStart(nodes: seq<Node>)
    requires Stocked(nodes)
    ensures FindExe(nodes, "start") == 7 && nodes[7] == Exe(Start)
  {
    assert |"start" + ".exe"| == 9 && "start" + ".exe" == "start.exe";
    FindAt(nodes, 7, "start");
  }

  lemma FindRedir(nodes: seq<Node>)
    requires Stocked(nodes)
    ensures FindExe(nodes, ">") == 2 && nodes[2] == Exe(Redir)
  {
    OtherNames();
    OwnNames();
    FindAt(nodes, 2, ">");
  }

  lemma BeforeRedirection(w: string, words: seq<string>, rest: string)
    requires PlainWord(w) && PlainWords(words) && rest != "" && rest[0] == '>'
    ensures LineLength(w + Tail(words) + rest, false, false, false) == |w + Tail(words)|
    ensures FirstLine(w + Tail(words) + rest) == w + Tail(words)
  {
    var line := w + Tail(words);
    QuietTail(words);
    QuietLength(line, rest, false, false);
    assert (line + rest)[..|line|] == line;
    QuietUnescape(line, "");
    assert line + "" == line;
  }

  lemma CmdDispatched(s: Shell, before: seq<string>, switch: string, words: seq<string>)
    requires Stocked(s.nodes) && IsSwitch(switch) && forall i :: 0 <= i < |before| ==> !IsSwitch(before[i])
    ensures Dispatch(s, "cmd", before + ([switch] + words)) == s.(stdin := CmdLine([switch] + words) + s.stdin)
  {
    FindCmd(s.nodes);
    FromSwitchFinds(before, switch, words);
  }

  /** A plain command before a redirection is dispatched with its words. */
  lemma RoundBefore(s: Shell, w: string, words: seq<string>, rest: string)
    requires PlainWord(w) && PlainWords(words) && rest != "" && rest[0] == '>'
    requires s.stdin == w + Tail(words) + rest
    ensures Round(s) == Dispatch(s.(stdin := rest), w, words)
  {
    BeforeRedirection(w, words, rest);
    CommandAndWords(w, words);
    RoundOfLine(s, w + Tail(words), rest, w, words);
  }

  lemma CmdIsPlain()
    ensures PlainWord("cmd")
  {
  }

  /** cmd puts its command line in front of the redirection that stands behind it. */
  lemma CmdRound(s: Shell, before: seq<string>, switch: string, words: seq<string>, params: seq<string>, rest: string)
    requires Stocked(s.nodes) && IsSwitch(switch) && forall i :: 0 <= i < |before| ==> !IsSwitch(before[i])
    requires params == before + ([switch] + words) && PlainWords(params) && rest != "" && rest[0] == '>'
    requires s.stdin == "cmd" + Tail(params) + rest
    ensures Round(s) == s.(stdin := CmdLine([switch] + words) + rest)
  {
    CmdIsPlain();
    RoundBefore(s, "cmd", params, rest);
    CmdDispatched(s.(stdin := rest), before, switch, words);
  }

  /** A command that was put back is dispatched; a space is left in front of what follows. */
  lemma PutBackRound(s: Shell, w: string, words: seq<string>, post: string)
    requires PlainWord(w) && PlainWords(words) && s.stdin == Spaced([w] + words) + " & " + post
    ensures Round(s) == Dispatch(s.(stdin := " " + post), w, words)
  {
    var all := [w] + words;
    assert all[1..] == words && PlainWords(all);
    SpacedReads(all, post);
    QuietSpaced(all);
    SplitPutBack(Spaced(all), post);
  }

  lemma NoBlankProgram(p: Program)
    ensures !Called(p, " ")
  {
    assert " " + ".exe" == " .exe" && ToLower(">"[0]) != ToLower(" "[0]);
  }

  /** No file's name begins with a space. */
  predicate NamesBegin(nodes: seq<Node>) {
    forall i :: 0 <= i < |nodes| && nodes[i].File? && nodes[i].name != "" ==> nodes[i].name[0] != ' '
  }

  lemma NoBlankBatch(nodes: seq<Node>)
    requires NamesBegin(nodes)
    ensures FindBatch(nodes, " ") == |nodes|
  {
    var i := FindBatch(nodes, " ");
    if i < |nodes| {
      BatchNamed(nodes, " ");
      BeginsWithSpace(nodes[i].name);
    }
  }

  lemma BeginsWithSpace(name: string)
    requires Runs(name, " ", ".bat")
    ensures name != "" && name[0] == ' '
  {
    var called := if SameName(name, " ") then " " else " " + ".bat";
    assert ToLower(name[0]) == ToLower(called[0]) == ' ';
  }

  lemma {:induction false} BatchNamed(nodes: seq<Node>, command: string)
    requires FindBatch(nodes, command) < |nodes|
    ensures Runs(nodes[FindBatch(nodes, command)].name, command, ".bat")
  {
    if FindBatch(nodes, command) > 0 {
      BatchNamed(nodes[1..], command);
    }
  }

  lemma WriteNames(nodes: seq<Node>, name: string, data: string, truncate: bool)
    requires NamesBegin(nodes) && ' ' !in name
    ensures NamesBegin(WriteFile(nodes, name, data, truncate))
  {
  }

  /** Every round keeps such names, since no parameter holds a space. */
  lemma RoundNames(s: Shell)
    requires s.stdin != "" && NamesBegin(s.nodes)
    ensures NamesBegin(Round(s).nodes)
  {
    var line := FirstLine(s.stdin);
    var command, params := Command(line), Params(line);
    var i := FindExe(s.nodes, command);
    ParamsHoldNoSpace(line);
    if i < |s.nodes| && params != [] {
      WriteNames(s.nodes, params[0], s.stdout + "\n", s.nodes[i].program == Redir);
    }
  }

  lemma {:induction false} ExecuteNames(s: Shell)
    requires NamesBegin(s.nodes)
    ensures NamesBegin(Execute(s).nodes)
    decreases Bytes(s)
  {
    if s.stdin != "" {
      RoundShrinks(s);
      RoundNames(s);
      ExecuteNames(Round(s));
    }
  }

  lemma BlankCommand()
    ensures Command(" ") == " "
  {
    assert (" ")[1..] == "" && (" ")[..1] == " " && (" ")[0..1] == " ";
    assert CommandStop(" ", false, false) == 1 && Leading(" ") == 1;
    QuietIsKept(" ");
    QuietCStr(" ");
  }

  /** A space before a redirection is a line of its own, which calls nothing. */
  lemma BlankRound(s: Shell, rest: string)
    requires s.stdin == " " + rest && rest != "" && rest[0] == '>' && NamesBegin(s.nodes)
    ensures Round(s) == s.(stdin := rest)
  {
    QuietLength(" ", rest, false, false);
    assert s.stdin[..1] == " " && s.stdin[1..] == rest;
    QuietUnescape(" ", "");
    assert " " + "" == " ";
    BlankCommand();
    NoBlankBatch(s.nodes);
    var i := FindExe(s.nodes, " ");
    if i < |s.nodes| {
      NoBlankProgram(s.nodes[i].program);
    }
  }

  lemma SwitchBegins(switch: string)
    requires IsSwitch(switch)
    ensures switch != "" && switch[0] == '/'
  {
    var prefix := if StartsWith(switch, "/c") then "/c" else "/k";
    assert SameName(switch[..2], prefix) && ToLower(switch[..2][0]) == ToLower(prefix[0]);
  }

  lemma CmdEchoLine(switch: string, words: seq<string>, all: seq<string>)
    requires IsSwitch(switch) && (words == [] || words[|words| - 1] != switch) && all == ["echo"] + words
    ensures CmdLine([switch] + all) == Spaced(all) + " & "
  {
    var params := [switch] + all;
    assert params[1..] == all && params[|params| - 1] == all[|all| - 1];
    SwitchBegins(switch);
    assert "echo"[0] == 'e';
    if words == [] {
      assert params[|params| - 1] == "echo";
    }
  }

  /** What an echo line that was put back does, up to the redirection that is left. */
  lemma PutBackEcho(s: Shell, words: seq<string>, all: seq<string>, rest: string)
    requires Stocked(s.nodes) && NamesBegin(s.nodes) && PlainLine(words) && all == ["echo"] + words
    requires rest != "" && rest[0] == '>' && s.stdin == Spaced(all) + " & " + rest
    ensures Execute(s) == Execute(s.(stdin := rest, stdout := Spaced(words)))
  {
    EchoIsPlain();
    PutBackRound(s, "echo", words, rest);
    EchoDispatched(s.(stdin := " " + rest), words);
    BlankRound(s.(stdin := " " + rest, stdout := Spaced(words)), rest);
  }

  /** cmd with an echo line behind its switch writes the same as the echo line does. */
  lemma CmdEchoes(s: Shell, before: seq<string>, switch: string, words: seq<string>, params: seq<string>,
                  f: string, post: string)
    requires Stocked(s.nodes) && NamesBegin(s.nodes) && PlainWord(f) && PlainLine(words)
    requires IsSwitch(switch) && forall i :: 0 <= i < |before| ==> !IsSwitch(before[i])
    requires params == before + ([switch] + (["echo"] + words)) && PlainWords(params)
    requires words == [] || words[|words| - 1] != switch
    requires s.stdin == "cmd" + Tail(params) + (">>" + f + "\n" + post)
    ensures Execute(s) == Execute(s.(stdin := EchoLine(words, f) + post))
  {
    var all, rest := ["echo"] + words, ">>" + f + "\n" + post;
    CmdRound(s, before, switch, all, params, rest);
    CmdEchoLine(switch, words, all);
    PutBackEcho(s.(stdin := Spaced(all) + " & " + rest), words, all, rest);
    AppendRound(s.(stdin := rest, stdout := Spaced(words)), f, post);
    LineRounds(s.(stdin := EchoLine(words, f) + post), words, f, post);
  }

  // ---------------------------------------------------------------- a redirection that truncates

  lemma RedirLine(f: string, post: string)
    requires PlainWord(f)
    ensures LineLength(">" + f + "\n" + post, false, false, false) == |f| + 2
    ensures FirstLine(">" + f + "\n" + post) == ">" + f + "\n"
  {
    var stdin, line := ">" + f + "\n" + post, ">" + f + "\n";
    assert stdin[1..] == f + ("\n" + post);
    QuietLength(f, "\n" + post, true, false);
    assert stdin[..|f| + 2] == line;
    QuietUnescape(line, "");
    assert line + "" == line;
  }

  lemma RedirCommand(f: string)
    requires PlainWord(f)
    ensures Command(">" + f + "\n") == ">" && Params(">" + f + "\n") == [f]
  {
    var line := ">" + f + "\n";
    assert line[1..] == f + "\n" && line[0..1] == ">" == line[..1];
    assert !IsSpecial((f + "\n")[0]) && CommandStop(f + "\n", true, true) == 0;
    assert ClearBreaks(">") == ">" && CStr(">") == ">" by {
      assert (">")[1..] == "";
    }
    QuietBreak(f, "\n");
    WordsStep(f, "\0", "");
    assert ("\0")[1..] == "" && "" + f == f;
  }

  lemma RedirRound(s: Shell, f: string, post: string)
    requires Stocked(s.nodes) && PlainWord(f) && s.stdin == ">" + f + "\n" + post
    ensures Round(s) == s.(stdin := post, stdout := "", nodes := WriteFile(s.nodes, f, s.stdout + "\n", true))
  {
    RedirLine(f, post);
    RedirCommand(f);
    FindRedir(s.nodes);
    RoundOfLine(s, ">" + f + "\n", post, ">", [f]);
  }

  lemma TruncatedFile(nodes: seq<Node>, f: string, data: string)
    ensures var nodes' := WriteFile(nodes, f, data, true);
            && FileContent(nodes', f) == data && |nodes| <= |nodes'|
            && forall i :: 0 <= i < |nodes| && i != FindFile(nodes, f) ==> nodes'[i] == nodes[i]
  {
    var i := FindFile(nodes, f);
    assert "" + data == data;
    if i < |nodes| {
      FindUpdated(nodes, i, File(nodes[i].name, data), f);
    } else {
      FindAppended(nodes, File(f, data), f);
    }
  }

  lemma LastRound(s: Shell)
    requires s.stdin != "" && Round(s).stdin == ""
    ensures Execute(s) == Round(s)
  {
  }

  lemma TruncateRuns(s: Shell, words: seq<string>, f: string, rest: string)
    requires Stocked(s.nodes) && PlainLine(words) && PlainWord(f) && rest == ">" + f + "\n"
    requires s.stdin == "echo" + Tail(words) + rest
    ensures Execute(s)
         == s.(stdin := "", stdout := "", nodes := WriteFile(s.nodes, f, Spaced(words) + "\n", true))
  {
    EchoRound(s, words, rest);
    var s1 := s.(stdin := rest, stdout := Spaced(words));
    assert rest + "" == rest;
    RedirRound(s1, f, "");
    LastRound(s1);
  }

  /** An echo line with a truncating redirection leaves nothing of the file's content but its own words. */
  lemma EchoTruncates(s: Shell, words: seq<string>, f: string)
    requires Stocked(s.nodes) && PlainLine(words) && PlainWord(f)
    requires s.stdin == "echo" + Tail(words) + (">" + f + "\n")
    ensures var r := Execute(s);
            && r.stdin == "" && r.stdout == "" && r.downloads == s.downloads && |s.nodes| <= |r.nodes|
            && FileContent(r.nodes, f) == Spaced(words) + "\n"
            && forall i :: 0 <= i < |s.nodes| && i != FindFile(s.nodes, f) ==> r.nodes[i] == s.nodes[i]
  {
    TruncateRuns(s, words, f, ">" + f + "\n");
    TruncatedFile(s.nodes, f, Spaced(words) + "\n");
  }

  /** The words on and off alone are a setting, not an output. */
  lemma EmptyEchoIff(words: seq<string>)
    ensures EchoOutput(words) == "" <==> words in {[], ["on"], ["off"]}
  {
  }

  // ---------------------------------------------------------------- start

  lemma StartIsPlain()
    ensures PlainWord("start")
  {
  }

  lemma StartDispatched(s: Shell, params: seq<string>)
    requires Stocked(s.nodes)
    ensures Dispatch(s, "start", params) == s.(stdin := StartLine(params) + s.stdin)
  {
    FindStart(s.nodes);
  }

  /** start with one word besides titles and options runs that word as a command, in two rounds. */
  lemma StartRuns(s: Shell, params: seq<string>, w: string, post: string)
    requires Stocked(s.nodes) && PlainWords(params) && Kept(params) == [w] && PlainWord(w)
    requires s.stdin == "start" + Tail(params) + "\n" + post
    ensures Execute(s) == Execute(Dispatch(s.(stdin := " " + post), w, []))
  {
    StartIsPlain();
    RoundOfCommand(s, "start", params, "\n", post);
    StartDispatched(s.(stdin := post), params);
    StartGlues(params);
    GluedOne(w);
    SplitPutBack(w, post);
    PutBackWord(w);
  }

  lemma GluedOne(w: string)
    ensures Glued([w]) == w
  {
    assert w + "" == w;
  }

  // ---------------------------------------------------------------- downloads and batch files

  lemma TftpIsPlain()
    ensures PlainWord("tftp")
  {
  }

  /** tftp notes the address made of its second and its fourth word. */
  lemma TftpRound(s: Shell, option: string, host: string, verb: string, file: string, post: string)
    requires Stocked(s.nodes) && PlainWords([option, host, verb, file])
    requires s.stdin == "tftp" + Tail([option, host, verb, file]) + "\n" + post
    ensures Round(s) == s.(stdin := post, downloads := s.downloads + ["tftp://" + host + "/" + file])
  {
    TftpIsPlain();
    RoundOfCommand(s, "tftp", [option, host, verb, file], "\n", post);
    FindTftp(s.nodes);
  }

  lemma {:induction false} ScriptsJoin(first: seq<seq<string>>, second: seq<seq<string>>, f: string)
    ensures Script(first + second, f) == Script(first, f) + Script(second, f)
    ensures Content(first + second) == Content(first) + Content(second)
  {
    if first == [] {
      assert first + second == second;
      assert Script(first, f) + Script(second, f) == Script(second, f);
      assert Content(first) + Content(second) == Content(second);
    } else {
      assert (first + second)[0] == first[0] && (first + second)[1..] == first[1..] + second;
      ScriptsJoin(first[1..], second, f);
      var line, data := EchoLine(first[0], f), Spaced(first[0]) + "\n";
      assert line + (Script(first[1..], f) + Script(second, f)) == line + Script(first[1..], f) + Script(second, f);
      assert data + (Content(first[1..]) + Content(second)) == data + Content(first[1..]) + Content(second);
    }
  }

  lemma BatchRound(s: Shell, name: string, post: string)
    requires PlainWord(name) && s.stdin == name + "\n" + post
    requires FindExe(s.nodes, name) == |s.nodes| && FindBatch(s.nodes, name) < |s.nodes|
    ensures Round(s) == RunBatch(s.(stdin := post), FindBatch(s.nodes, name))
  {
    assert name + Tail([]) == name;
    RoundOfCommand(s, name, [], "\n", post);
  }

  /**
   * A batch file is run when the input that stands behind its name is used up: the lines of that input come first, and
   * then those of the batch file, which is left empty.
   */
  lemma BatchLast(s: Shell, name: string, first: seq<seq<string>>, second: seq<seq<string>>, f: string)
    requires Stocked(s.nodes) && PlainWord(f) && PlainWord(name) && first + second != []
    requires forall i :: 0 <= i < |first + second| ==> PlainLine((first + second)[i])
    requires FindExe(s.nodes, name) == |s.nodes| && FindBatch(s.nodes, name) < |s.nodes|
    requires FindBatch(s.nodes, name) != FindFile(s.nodes, f)
    requires s.nodes[FindBatch(s.nodes, name)].data == Script(second, f)
    requires s.stdin == name + "\n" + Script(first, f)
    ensures var r, i := Execute(s), FindBatch(s.nodes, name);
            && r.stdin == "" && i < |r.nodes| && r.nodes[i] == File(s.nodes[i].name, "")
            && FileContent(r.nodes, f) == FileContent(s.nodes, f) + (Content(first) + Content(second))
  {
    var i := FindBatch(s.nodes, name);
    BatchRound(s, name, Script(first, f));
    ScriptsJoin(first, second, f);
    EmptiedFound(s.nodes, i, f);
    BatchStocked(s.nodes, i);
    EchoScript(Round(s), first + second, f);
  }

  lemma BatchStocked(nodes: seq<Node>, i: nat)
    requires Stocked(nodes) && i < |nodes| && nodes[i].File?
    ensures Stocked(nodes[i := File(nodes[i].name, "")])
  {
    ProgramsInPlace(nodes);
  }

  /** Emptying a file does not change which file a name finds. */
  lemma {:induction false} EmptiedFound(nodes: seq<Node>, i: nat, f: string)
    requires i < |nodes| && nodes[i].File?
    ensures FindFile(nodes[i := File(nodes[i].name, "")], f) == FindFile(nodes, f)
    decreases i
  {
    if i > 0 {
      assert nodes[i := File(nodes[i].name, "")][1..] == nodes[1..][i - 1 := File(nodes[i].name, "")];
      EmptiedFound(nodes[1..], i - 1, f);
    }
  }

  // ---------------------------------------------------------------- commands that do nothing

  /** Without a switch among its words, cmd does nothing. */
  lemma CmdWithoutSwitch(s: Shell, words: seq<string>, post: string)
    requires Stocked(s.nodes) && PlainWords(words) && forall i :: 0 <= i < |words| ==> !IsSwitch(words[i])
    requires s.stdin == "cmd" + Tail(words) + "\n" + post
    ensures Round(s) == s.(stdin := post)
  {
    CmdIsPlain();
    RoundOfCommand(s, "cmd", words, "\n", post);
    FindCmd(s.nodes);
    NoSwitch(words);
  }

  lemma {:induction false} NoSwitch(words: seq<string>)
    requires forall i :: 0 <= i < |words| ==> !IsSwitch(words[i])
    ensures FromSwitch(words) == []
  {
    if words != [] {
      NoSwitch(words[1..]);
    }
  }

  /** With fewer than four words, tftp downloads nothing. */
  lemma TftpTooShort(s: Shell, words: seq<string>, post: string)
    requires Stocked(s.nodes) && PlainWords(words) && |words| < 4
    requires s.stdin == "tftp" + Tail(words) + "\n" + post
    ensures Round(s) == s.(stdin := post)
  {
    TftpIsPlain();
    RoundOfCommand(s, "tftp", words, "\n", post);
    FindTftp(s.nodes);
  }

  /** A redirection to nowhere leaves the output as it is. */
  lemma NamelessRedirection(s: Shell, post: string)
    requires Stocked(s.nodes) && s.stdin == ">" + "\n" + post
    ensures Round(s) == s.(stdin := post)
  {
    var line := ">" + "\n";
    NamelessLine(post);
    NamelessRead();
    FindRedir(s.nodes);
    RoundOfLine(s, line, post, ">", []);
  }

  lemma NamelessLine(post: string)
    ensures var stdin := ">" + "\n" + post;
            LineLength(stdin, false, false, false) == 2 && FirstLine(stdin) == ">" + "\n"
  {
    var stdin, line := ">" + "\n" + post, ">" + "\n";
    assert stdin[1..] == "\n" + post && LineLength("\n" + post, true, false, false) == 1;
    assert stdin[..2] == line && DropSeparator(line) == line;
    QuietUnescape(line, "");
    assert line + "" == line;
  }

  lemma NamelessRead()
    ensures Command(">" + "\n") == ">" && Params(">" + "\n") == []
  {
    var line := ">" + "\n";
    assert line[1..] == "\n" && line[0..1] == ">" == line[..1] && line[1..][1..] == "";
    assert CommandStop("\n", true, true) == 0;
    assert ClearBreaks(">") == ">" && CStr(">") == ">" by {
      assert (">")[1..] == "";
    }
    assert ClearBreaks("\n") == "\0";
    NoWords("\0");
  }
}
