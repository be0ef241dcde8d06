/** What a script of echo lines, each redirected into the same file, leaves behind. */
module VfsScript {
  import opened Chars
  import opened VfsText
  import opened VfsShell

  /** The programs of the directory System32, in the order they are installed. */
  const PROGRAMS: seq<Node> :=
    [Exe(Dir), Exe(Echo), Exe(Redir), Exe(RRedir), Exe(Tftp), Exe(Ftp), Exe(Cmd), Exe(Start), Exe(Rcp)]

  predicate Stocked(nodes: seq<Node>) {
    |PROGRAMS| <= |nodes| && nodes[..|PROGRAMS|] == PROGRAMS
  }

  predicate PlainWord(w: string) {
    w != "" && forall i :: 0 <= i < |w| ==> IsGraph(w[i]) && !IsSpecial(w[i])
  }

  predicate PlainLine(words: seq<string>) {
    (forall i :: 0 <= i < |words| ==> PlainWord(words[i])) && words != ["on"] && words != ["off"]
  }

  /** The words, each behind a space. */
  function Tail(words: seq<string>): string {
    if words == [] then "" else " " + words[0] + Tail(words[1..])
  }

  function EchoLine(words: seq<string>, f: string): string {
    "echo" + Tail(words) + (">>" + f + "\n")
  }

  function Script(lines: seq<seq<string>>, f: string): string {
    if lines == [] then "" else EchoLine(lines[0], f) + Script(lines[1..], f)
  }

  function Content(lines: seq<seq<string>>): string {
    if lines == [] then "" else Spaced(lines[0]) + "\n" + Content(lines[1..])
  }

  // ---------------------------------------------------------------- text that no pass changes

  predicate Quiet(t: string) {
    forall i :: 0 <= i < |t| ==> (IsGraph(t[i]) || t[i] == ' ') && !IsSpecial(t[i])
  }

  lemma {:induction false} QuietLength(t: string, post: string, hasredir: bool, haschar: bool)
    requires Quiet(t)
    ensures LineLength(t + post, hasredir, false, haschar)
         == |t| + LineLength(post, hasredir, false, haschar || t != "")
  {
    if t == "" {
      assert t + post == post;
    } else {
      assert (t + post)[1..] == t[1..] + post;
      QuietLength(t[1..], post, hasredir, true);
    }
  }

  lemma {:induction false} QuietUnescape(t: string, post: string)
    requires forall i :: 0 <= i < |t| ==> t[i] != '^'
    ensures Unescape(t + post, false) == t + Unescape(post, false)
  {
    if t == "" {
      assert t + post == post;
    } else {
      assert (t + post)[1..] == t[1..] + post;
      QuietUnescape(t[1..], post);
    }
  }

  lemma {:induction false} QuietClear(t: string, post: string)
    requires Quiet(t)
    ensures ClearBreaks(t + post) == t + ClearBreaks(post)
  {
    if t == "" {
      assert t + post == post;
    } else {
      assert (t + post)[1..] == t[1..] + post;
      QuietClear(t[1..], post);
    }
  }

  lemma {:induction false} QuietCStr(t: string)
    requires Quiet(t)
    ensures CStr(t) == t
  {
    if t != "" {
      QuietCStr(t[1..]);
    }
  }

  lemma {:induction false} QuietTail(words: seq<string>)
    requires forall i :: 0 <= i < |words| ==> PlainWord(words[i])
    ensures Quiet(Tail(words))
  {
    if words != [] {
      QuietTail(words[1..]);
    }
  }

  predicate EndsWord(post: string) {
    post == "" || post[0] == ' ' || post[0] == '\0'
  }

  lemma {:induction false} WordsStep(t: string, post: string, word: string)
    requires t != "" || word != ""
    requires forall i :: 0 <= i < |t| ==> IsGraph(t[i])
    requires EndsWord(post)
    ensures Words(t + post, word) == [word + t] + if post == "" then [] else Words(post[1..], "")
  {
    if t == "" {
      assert t + post == post && word + t == word;
    } else {
      assert (t + post)[1..] == t[1..] + post;
      WordsStep(t[1..], post, word + [t[0]]);
      assert word + [t[0]] + t[1..] == word + t;
    }
  }

  lemma {:induction false} WordsOfTail(words: seq<string>)
    requires forall i :: 0 <= i < |words| ==> PlainWord(words[i])
    ensures Words(Tail(words), "") == words
    ensures words != [] ==> Words(Tail(words)[1..], "") == words
  {
    if words != [] {
      var w, rest := words[0], Tail(words[1..]);
      assert Tail(words)[1..] == w + rest;
      WordsOfTail(words[1..]);
      WordsStep(w, rest, "");
      assert "" + w == w && words == [w] + words[1..];
    }
  }

  // ---------------------------------------------------------------- the two rounds for one line

  lemma {:induction false} StopAfterWord(w: string, tail: string, haschar: bool)
    requires haschar || w != ""
    requires Quiet(w) && ' ' !in w
    requires tail == "" || tail[0] == ' '
    ensures CommandStop(w + tail, haschar, false) == |w|
  {
    if w == "" {
      assert w + tail == tail;
    } else {
      assert (w + tail)[1..] == w[1..] + tail;
      StopAfterWord(w[1..], tail, true);
    }
  }

  lemma QuietIsKept(t: string)
    requires Quiet(t)
    ensures ClearBreaks(t) == t
  {
    QuietClear(t, "");
    assert t + "" == t;
  }

  /** A plain first word is the command, and the plain words behind it are the parameters. */
  lemma CommandAndWords(w: string, words: seq<string>)
    requires PlainWord(w) && forall i :: 0 <= i < |words| ==> PlainWord(words[i])
    ensures Command(w + Tail(words)) == w
    ensures Params(w + Tail(words)) == words
  {
    var tail := Tail(words);
    StopAfterWord(w, tail, false);
    var line := w + tail;
    assert line[..|w|] == w == line[0..|w|] && line[|w|..] == tail;
    QuietIsKept(w);
    QuietCStr(w);
    QuietTail(words);
    QuietIsKept(tail);
    WordsOfTail(words);
  }

  // ---------------------------------------------------------------- quotes

  /** No word holds a space, but for those that the first one began with. */
  lemma {:induction false} WordsHoldNoSpace(s: string, word: string)
    requires ' ' !in word
    ensures forall i :: 0 <= i < |Words(s, word)| ==> ' ' !in Words(s, word)[i]
    decreases |s|
  {
    if s != "" {
      WordsHoldNoSpace(s[1..], "");
      if s[0] != ' ' {
        WordsHoldNoSpace(s[1..], word + [s[0]]);
      }
    }
  }

  /** Whatever the line, quotes included, none of its parameters holds a space. */
  lemma ParamsHoldNoSpace(line: string)
    ensures forall i :: 0 <= i < |Params(line)| ==> ' ' !in Params(line)[i]
  {
    WordsHoldNoSpace(ClearBreaks(line[CommandStop(line, false, false)..]), "");
  }

  function Flat(words: seq<string>): string {
    if words == [] then "" else words[0] + Flat(words[1..])
  }

  lemma Prepended(word: string, c: char, rest: string)
    ensures word + [c] + rest == word + ([c] + rest) && word + ("" + rest) == word + rest && word + "" == word
  {
  }

  lemma {:induction false} WordsKeepAll(s: string, word: string)
    requires Quiet(s)
    ensures Flat(Words(s, word)) == word + WithoutSpaces(s)
    decreases |s|
  {
    if s == "" {
      Prepended(word, ' ', "");
    } else {
      Prepended(word, s[0], WithoutSpaces(s[1..]));
      if s[0] == ' ' {
        WordsKeepAll(s[1..], "");
      } else {
        WordsKeepAll(s[1..], word + [s[0]]);
      }
    }
  }

  /** Nothing but the spaces is taken away between the parameters: all quotes stay. */
  lemma ParamsKeepAll(w: string, t: string)
    requires PlainWord(w) && Quiet(t) && (t == "" || t[0] == ' ')
    ensures Flat(Params(w + t)) == WithoutSpaces(t)
  {
    StopAfterWord(w, t, false);
    assert (w + t)[|w|..] == t;
    QuietIsKept(t);
    WordsKeepAll(t, "");
  }

  function InQuotes(t: string): string {
    "\"" + t + "\""
  }

  function AllInQuotes(texts: seq<string>): (r: seq<string>)
    ensures |r| == |texts| && forall i :: 0 <= i < |texts| ==> r[i] == InQuotes(texts[i])
  {
    seq(|texts|, i requires 0 <= i < |texts| => InQuotes(texts[i]))
  }

  /**
   * Parameters in quotes are found in one piece, with the quotes about them, if and only if none of them holds a space:
   * quotes are characters like others.
   */
  lemma QuotesAreCharacters(w: string, texts: seq<string>)
    requires PlainWord(w) && forall i :: 0 <= i < |texts| ==> Quiet(texts[i])
    ensures Params(w + Tail(AllInQuotes(texts))) == AllInQuotes(texts)
       <==> forall i :: 0 <= i < |texts| ==> ' ' !in texts[i]
  {
    var quoted := AllInQuotes(texts);
    forall i | 0 <= i < |texts| ensures PlainWord(quoted[i]) <==> ' ' !in texts[i]
                             ensures ' ' in quoted[i] <==> ' ' in texts[i] {
      QuotedWord(texts[i]);
    }
    if forall i :: 0 <= i < |texts| ==> ' ' !in texts[i] {
      CommandAndWords(w, quoted);
    } else {
      ParamsHoldNoSpace(w + Tail(quoted));
    }
  }

  lemma QuotedWord(t: string)
    requires Quiet(t)
    ensures ' ' in InQuotes(t) <==> ' ' in t
    ensures PlainWord(InQuotes(t)) <==> ' ' !in t
  {
    var q := InQuotes(t);
    assert forall i :: 0 <= i < |t| ==> q[i + 1] == t[i];
    assert forall i :: 1 <= i <= |t| ==> q[i] == t[i - 1];
    if ' ' in t {
      var i :| 0 <= i < |t| && t[i] == ' ';
      assert q[i + 1] == ' ';
    }
  }

  /** A quoted parameter of two words becomes two parameters, each with one of the quotes. */
  lemma QuotesExample()
    ensures Params("echo" + " \"a b\"") == ["\"a", "b\""]
  {
    CommandAndWords("echo", ["\"a", "b\""]);
    assert Tail(["\"a", "b\""]) == " \"a" + (" b\"" + "");
    assert " \"a b\"" == " \"a" + (" b\"" + "");
  }

  lemma CommandOfAppend(f: string)
    requires PlainWord(f)
    ensures CommandStop(">>" + f + "\n", false, false) == 2
    ensures Command(">>" + f + "\n") == ">>"
    ensures Params(">>" + f + "\n") == [f]
  {
    var line := ">>" + f + "\n";
    assert line[1..][1..] == line[2..] == f + "\n";
    assert CommandStop(line[1..], true, true) == 1;
    assert line[0..2] == ">>" == line[..2];
    assert ClearBreaks(">>") == ">>" && CStr(">>") == ">>" by {
      assert (">>")[1..] == ">" && (">")[1..] == "";
    }
    QuietClear(f, "\n");
    assert ClearBreaks("\n") == "\0";
    WordsStep(f, "\0", "");
    assert ("\0")[1..] == "" && "" + f == f;
  }

  lemma FirstLineOfEcho(words: seq<string>, post: string)
    requires forall i :: 0 <= i < |words| ==> PlainWord(words[i])
    requires post != "" && post[0] == '>'
    ensures LineLength("echo" + Tail(words) + post, false, false, false) == |"echo" + Tail(words)|
    ensures FirstLine("echo" + Tail(words) + post) == "echo" + Tail(words)
  {
    var line := "echo" + Tail(words);
    QuietTail(words);
    assert Quiet(line);
    QuietLength(line, post, false, false);
    assert (line + post)[..|line|] == line;
    QuietUnescape(line, "");
    assert line + "" == line;
  }

  lemma LengthOfAppend(f: string, post: string)
    requires PlainWord(f)
    ensures LineLength(">>" + f + "\n" + post, false, false, false) == |f| + 3
  {
    var tail := f + ("\n" + post);
    var stdin := ">>" + f + "\n" + post;
    assert stdin[1..] == ">" + tail && (">" + tail)[1..] == tail;
    QuietLength(f, "\n" + post, true, false);
    assert LineLength(tail, true, false, false) == |f| + 1;
  }

  lemma FirstLineOfAppend(f: string, post: string)
    requires PlainWord(f)
    ensures LineLength(">>" + f + "\n" + post, false, false, false) == |f| + 3
    ensures FirstLine(">>" + f + "\n" + post) == ">>" + f + "\n"
  {
    var line := ">>" + f + "\n";
    LengthOfAppend(f, post);
    assert (line + post)[..|f| + 3] == line;
    QuietUnescape(line, "");
    assert line + "" == line;
  }

  lemma FindPrograms(nodes: seq<Node>)
    requires Stocked(nodes)
    ensures FindExe(nodes, "echo") == 1 && nodes[1] == Exe(Echo)
    ensures FindExe(nodes, ">>") == 3 && nodes[3] == Exe(RRedir)
  {
    assert nodes[0] == PROGRAMS[0] && nodes[1] == PROGRAMS[1] && nodes[2] == PROGRAMS[2] && nodes[3] == PROGRAMS[3];
    assert nodes[1..][1..] == nodes[2..] && nodes[2..][1..] == nodes[3..];
    assert FindExe(nodes[3..], ">>") == 0;
    assert FindExe(nodes[2..], ">>") == 1;
    assert FindExe(nodes[1..], ">>") == 2;
    assert FindExe(nodes[1..], "echo") == 0;
  }

  lemma EchoDispatched(s: Shell, words: seq<string>)
    requires Stocked(s.nodes) && PlainLine(words)
    ensures Dispatch(s, "echo", words) == s.(stdout := Spaced(words))
  {
    FindPrograms(s.nodes);
  }

  /** A round takes its line off and dispatches the command. */
  lemma RoundOfLine(s: Shell, line: string, post: string, command: string, params: seq<string>)
    requires line != "" && s.stdin == line + post && FirstLine(s.stdin) == line
    requires LineLength(s.stdin, false, false, false) == |line|
    requires Command(line) == command && Params(line) == params
    ensures Round(s) == Dispatch(s.(stdin := post), command, params)
  {
    assert (line + post)[|line|..] == post;
  }

  lemma EchoIsPlain()
    ensures PlainWord("echo")
  {
  }

  lemma EchoRound(s: Shell, words: seq<string>, post: string)
    requires Stocked(s.nodes) && PlainLine(words)
    requires post != "" && post[0] == '>'
    requires s.stdin == "echo" + Tail(words) + post
    ensures Round(s) == s.(stdin := post, stdout := Spaced(words))
  {
    var line := "echo" + Tail(words);
    FirstLineOfEcho(words, post);
    EchoIsPlain();
    CommandAndWords("echo", words);
    RoundOfLine(s, line, post, "echo", words);
    EchoDispatched(s.(stdin := post), words);
  }

  lemma AppendRound(s: Shell, f: string, post: string)
    requires Stocked(s.nodes) && PlainWord(f)
    requires s.stdin == ">>" + f + "\n" + post
    ensures Round(s) == s.(stdin := post, stdout := "", nodes := WriteFile(s.nodes, f, s.stdout + "\n", false))
  {
    FirstLineOfAppend(f, post);
    CommandOfAppend(f);
    FindPrograms(s.nodes);
    assert s.stdin[|f| + 3..] == post;
  }

  lemma LineRounds(s: Shell, words: seq<string>, f: string, post: string)
    requires Stocked(s.nodes) && PlainLine(words) && PlainWord(f)
    requires s.stdin == EchoLine(words, f) + post
    ensures Execute(s) == Execute(s.(stdin := post, stdout := "",
                                     nodes := WriteFile(s.nodes, f, Spaced(words) + "\n", false)))
  {
    var rest := ">>" + f + "\n" + post;
    assert s.stdin == "echo" + Tail(words) + rest;
    EchoRound(s, words, rest);
    AppendRound(Round(s), f, post);
  }

  // ---------------------------------------------------------------- the file

  lemma {:induction false} FindUpdated(nodes: seq<Node>, i: nat, node: Node, f: string)
    requires i == FindFile(nodes, f) < |nodes|
    requires node.File? && SameName(node.name, f)
    ensures FindFile(nodes[i := node], f) == i
  {
    if i > 0 {
      assert nodes[i := node][1..] == nodes[1..][i-1 := node];
      FindUpdated(nodes[1..], i - 1, node, f);
    }
  }

  lemma {:induction false} FindAppended(nodes: seq<Node>, node: Node, f: string)
    requires FindFile(nodes, f) == |nodes|
    requires node.File? && SameName(node.name, f)
    ensures FindFile(nodes + [node], f) == |nodes|
  {
    if nodes != [] {
      assert (nodes + [node])[1..] == nodes[1..] + [node];
      FindAppended(nodes[1..], node, f);
    }
  }

  lemma WriteTwice(nodes: seq<Node>, f: string, a: string, b: string)
    ensures WriteFile(WriteFile(nodes, f, a, false), f, b, false) == WriteFile(nodes, f, a + b, false)
  {
    var i := FindFile(nodes, f);
    if i < |nodes| {
      FindUpdated(nodes, i, File(nodes[i].name, nodes[i].data + a), f);
      assert nodes[i].data + a + b == nodes[i].data + (a + b);
    } else {
      FindAppended(nodes, File(f, a), f);
    }
  }

  lemma ProgramsInPlace(nodes: seq<Node>)
    requires Stocked(nodes)
    ensures forall i :: 0 <= i < |PROGRAMS| ==> nodes[i].Exe?
  {
    assert forall i :: 0 <= i < |PROGRAMS| ==> nodes[i] == nodes[..|PROGRAMS|][i];
  }

  lemma WriteStocked(nodes: seq<Node>, f: string, data: string, truncate: bool)
    requires Stocked(nodes)
    ensures Stocked(WriteFile(nodes, f, data, truncate))
  {
    ProgramsInPlace(nodes);
  }

  /** The content a lookup of the file finds, empty if there is no such file. */
  function FileContent(nodes: seq<Node>, f: string): string {
    var i := FindFile(nodes, f);
    if i < |nodes| then nodes[i].data else ""
  }

  lemma {:induction false} ScriptRuns(s: Shell, lines: seq<seq<string>>, f: string)
    requires Stocked(s.nodes) && PlainWord(f)
    requires forall i :: 0 <= i < |lines| ==> PlainLine(lines[i])
    requires s.stdin == Script(lines, f)
    ensures Execute(s) == if lines == [] then s
                          else s.(stdin := "", stdout := "", nodes := WriteFile(s.nodes, f, Content(lines), false))
    decreases |lines|
  {
    if lines != [] {
      var data := Spaced(lines[0]) + "\n";
      var nodes := WriteFile(s.nodes, f, data, false);
      LineRounds(s, lines[0], f, Script(lines[1..], f));
      WriteStocked(s.nodes, f, data, false);
      ScriptRuns(s.(stdin := Script(lines[1..], f), stdout := "", nodes := nodes), lines[1..], f);
      if lines[1..] == [] {
        assert data + "" == data;
      } else {
        WriteTwice(s.nodes, f, data, Content(lines[1..]));
      }
    }
  }

  /**
   * A script of echo lines appended to one file leaves it with its old content and, for each line, the words with a
   * space behind each and a line break; both streams are empty, and every other node is as before.
   */
  lemma EchoScript(s: Shell, lines: seq<seq<string>>, f: string)
    requires Stocked(s.nodes) && PlainWord(f) && lines != []
    requires forall i :: 0 <= i < |lines| ==> PlainLine(lines[i])
    requires s.stdin == Script(lines, f)
    ensures var r := Execute(s);
            && r.stdin == "" && r.stdout == "" && r.downloads == s.downloads
            && FileContent(r.nodes, f) == FileContent(s.nodes, f) + Content(lines)
            && |s.nodes| <= |r.nodes| <= |s.nodes| + 1
            && forall i :: 0 <= i < |s.nodes| && i != FindFile(s.nodes, f) ==> r.nodes[i] == s.nodes[i]
  {
    ScriptRuns(s, lines, f);
    var i := FindFile(s.nodes, f);
    if i < |s.nodes| {
      FindUpdated(s.nodes, i, File(s.nodes[i].name, s.nodes[i].data + Content(lines)), f);
    } else {
      FindAppended(s.nodes, File(f, Content(lines)), f);
    }
  }

  // ---------------------------------------------------------------- every shell keeps its programs

  lemma ProgramStocked(s: Shell, p: Program, params: seq<string>)
    requires Stocked(s.nodes)
    ensures Stocked(RunProgram(s, p, params).nodes)
  {
    if params != [] {
      WriteStocked(s.nodes, params[0], s.stdout + "\n", p == Redir);
    }
  }

  lemma DispatchStocked(s: Shell, command: string, params: seq<string>)
    requires Stocked(s.nodes)
    ensures Stocked(Dispatch(s, command, params).nodes)
  {
    var i := FindExe(s.nodes, command);
    if i < |s.nodes| {
      ProgramStocked(s, s.nodes[i].program, params);
    } else {
      ProgramsInPlace(s.nodes);
    }
  }

  lemma RoundStocked(s: Shell)
    requires s.stdin != "" && Stocked(s.nodes)
    ensures Stocked(Round(s).nodes)
  {
    var line := FirstLine(s.stdin);
    DispatchStocked(s.(stdin := s.stdin[LineLength(s.stdin, false, false, false)..]), Command(line), Params(line));
  }

  /** Whatever is executed, the programs stay where they are, so scripts can be run again and again. */
  lemma {:induction false} ExecuteStocked(s: Shell)
    requires Stocked(s.nodes)
    ensures Stocked(Execute(s).nodes)
    decreases Bytes(s)
  {
    if s.stdin != "" {
      RoundShrinks(s);
      RoundStocked(s);
      ExecuteStocked(Round(s));
    }
  }
}
