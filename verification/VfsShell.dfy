/** What one round of the emulated command prompt does to its streams and files, and why the rounds come to an end. */
module VfsShell {
  import opened Chars
  import opened VfsText

  datatype Program = Dir | Echo | Redir | RRedir | Tftp | Ftp | Cmd | Start | Rcp

  datatype Node = Directory(name: string) | Exe(program: Program) | File(name: string, data: string)

  /** Standard input and output, the nodes of the current directory, and the downloads started so far. */
  datatype Shell = Shell(stdin: string, stdout: string, nodes: seq<Node>, downloads: seq<string>)

  function ProgramName(p: Program): string {
    match p
    case Dir => "dir"
    case Echo => "echo"
    case Redir => ">"
    case RRedir => ">>"
    case Tftp => "tftp.exe"
    case Ftp => "ftp.exe"
    case Cmd => "cmd.exe"
    case Start => "start.exe"
    case Rcp => "rcp.exe"
  }

  function ToLower(c: char): char {
    if 'A' <= c <= 'Z' then (c as int + 32) as char else c
  }

  /** strcasecmp(a, b) == 0 */
  predicate SameName(a: string, b: string) {
    |a| == |b| && forall i :: 0 <= i < |a| ==> ToLower(a[i]) == ToLower(b[i])
  }

  /** strncasecmp(s, prefix, |prefix|) == 0 */
  predicate StartsWith(s: string, prefix: string) {
    |prefix| <= |s| && SameName(s[..|prefix|], prefix)
  }

  predicate Runs(name: string, command: string, extension: string) {
    SameName(name, command) || SameName(name, command + extension)
  }

  // ---------------------------------------------------------------- looking up nodes

  /** The place of the first file with that name, or the number of nodes if there is none. */
  function FindFile(nodes: seq<Node>, name: string): (i: nat)
    ensures i <= |nodes|
    ensures i < |nodes| ==> nodes[i].File? && SameName(nodes[i].name, name)
  {
    if nodes == [] || (nodes[0].File? && SameName(nodes[0].name, name)) then 0
    else 1 + FindFile(nodes[1..], name)
  }

  function FindBatch(nodes: seq<Node>, command: string): (i: nat)
    ensures i <= |nodes|
    ensures i < |nodes| ==> nodes[i].File? && Runs(nodes[i].name, command, ".bat")
  {
    if nodes == [] || (nodes[0].File? && Runs(nodes[0].name, command, ".bat")) then 0
    else 1 + FindBatch(nodes[1..], command)
  }

  function FindExe(nodes: seq<Node>, command: string): (i: nat)
    ensures i <= |nodes|
    ensures i < |nodes| ==> nodes[i].Exe? && Runs(ProgramName(nodes[i].program), command, ".exe")
  {
    if nodes == [] || (nodes[0].Exe? && Runs(ProgramName(nodes[0].program), command, ".exe")) then 0
    else 1 + FindExe(nodes[1..], command)
  }

  /** No file before the one that is found has the name, and none at all if none is found. */
  lemma {:induction false} FirstFile(nodes: seq<Node>, name: string, j: nat)
    requires j < |nodes| && nodes[j].File? && SameName(nodes[j].name, name)
    ensures FindFile(nodes, name) <= j
    decreases j
  {
    if j > 0 {
      FirstFile(nodes[1..], name, j - 1);
    }
  }

  lemma {:induction false} FirstBatch(nodes: seq<Node>, command: string, j: nat)
    requires j < |nodes| && nodes[j].File? && Runs(nodes[j].name, command, ".bat")
    ensures FindBatch(nodes, command) <= j
    decreases j
  {
    if j > 0 {
      FirstBatch(nodes[1..], command, j - 1);
    }
  }

  lemma {:induction false} FirstExe(nodes: seq<Node>, command: string, j: nat)
    requires j < |nodes| && nodes[j].Exe? && Runs(ProgramName(nodes[j].program), command, ".exe")
    ensures FindExe(nodes, command) <= j
    decreases j
  {
    if j > 0 {
      FirstExe(nodes[1..], command, j - 1);
    }
  }

  // ---------------------------------------------------------------- the programs

  /** The nodes after data is put behind the named file's content, or behind nothing if it is truncated first. */
  function WriteFile(nodes: seq<Node>, name: string, data: string, truncate: bool): seq<Node> {
    var i := FindFile(nodes, name);
    if i < |nodes| then nodes[i := File(nodes[i].name, (if truncate then "" else nodes[i].data) + data)]
    else nodes + [File(name, data)]
  }

  function Spaced(words: seq<string>): string {
    if words == [] then "" else words[0] + " " + Spaced(words[1..])
  }

  function Glued(words: seq<string>): string {
    if words == [] then "" else words[0] + Glued(words[1..])
  }

  lemma SpacedStep(words: seq<string>, i: nat, before: string)
    requires i < |words|
    ensures before + Spaced(words[i..]) == before + words[i] + " " + Spaced(words[i+1..])
    ensures before + Glued(words[i..]) == before + words[i] + Glued(words[i+1..])
  {
    assert words[i..][0] == words[i] && words[i..][1..] == words[i+1..];
  }

  function EchoOutput(params: seq<string>): string {
    if params == ["on"] || params == ["off"] then "" else Spaced(params)
  }

  predicate IsSwitch(param: string) {
    StartsWith(param, "/c") || StartsWith(param, "/k")
  }

  /** The parameters from the first /c or /k on. */
  function FromSwitch(params: seq<string>): seq<string> {
    if params == [] || IsSwitch(params[0]) then params else FromSwitch(params[1..])
  }

  /** The command line that cmd puts back: the spaces are left out if the last parameter equals the switch. */
  function CmdLine(params: seq<string>): string
    requires params != []
  {
    var words := params[1..];
    (if params[0] == params[|params|-1] then Glued(words) else Spaced(words)) + " & "
  }

  /** The command line that start puts back: its parameters but for titles and options, run together. */
  function StartLine(params: seq<string>): string {
    if params == [] then " & "
    else (if Head(params[0]) == '\"' || Head(params[0]) == '/' then "" else params[0]) + StartLine(params[1..])
  }

  lemma StartStep(words: seq<string>, i: nat, before: string)
    requires i < |words|
    ensures before + StartLine(words[i..])
         == (if Head(words[i]) == '\"' || Head(words[i]) == '/' then before else before + words[i])
            + StartLine(words[i+1..])
  {
    assert words[i..][0] == words[i] && words[i..][1..] == words[i+1..];
    var word := if Head(words[i]) == '\"' || Head(words[i]) == '/' then "" else words[i];
    var later := StartLine(words[i+1..]);
    assert before + (word + later) == before + word + later && before + "" == before;
  }

  function RunProgram(s: Shell, p: Program, params: seq<string>): Shell {
    match p
    case Echo => s.(stdout := EchoOutput(params))
    case Redir =>
      if params == [] then s
      else s.(nodes := WriteFile(s.nodes, params[0], s.stdout + "\n", true), stdout := "")
    case RRedir =>
      if params == [] then s
      else s.(nodes := WriteFile(s.nodes, params[0], s.stdout + "\n", false), stdout := "")
    case Tftp =>
      if |params| < 4 then s else s.(downloads := s.downloads + ["tftp://" + params[1] + "/" + params[3]])
    case Cmd =>
      var rest := FromSwitch(params);
      if rest == [] then s else s.(stdin := CmdLine(rest) + s.stdin)
    case Start => s.(stdin := StartLine(params) + s.stdin)
    case _ => s
  }

  /** A batch file's content goes behind the input, and leaves the file empty. */
  function RunBatch(s: Shell, i: nat): Shell
    requires i < |s.nodes| && s.nodes[i].File?
  {
    s.(stdin := s.stdin + s.nodes[i].data, nodes := s.nodes[i := File(s.nodes[i].name, "")])
  }

  function Dispatch(s: Shell, command: string, params: seq<string>): Shell {
    var i := FindExe(s.nodes, command);
    if i < |s.nodes| then RunProgram(s, s.nodes[i].program, params)
    else
      var j := FindBatch(s.nodes, command);
      if j < |s.nodes| then RunBatch(s, j) else s
  }

  /** One round: a line is taken off the input and obeyed. */
  function Round(s: Shell): Shell
    requires s.stdin != ""
  {
    var line := FirstLine(s.stdin);
    Dispatch(s.(stdin := s.stdin[LineLength(s.stdin, false, false, false)..]), Command(line), Params(line))
  }

  // ---------------------------------------------------------------- every round makes the shell smaller

  function FileBytes(nodes: seq<Node>): nat {
    if nodes == [] then 0 else (if nodes[0].File? then |nodes[0].data| else 0) + FileBytes(nodes[1..])
  }

  function Bytes(s: Shell): nat {
    |s.stdin| + |s.stdout| + FileBytes(s.nodes)
  }

  lemma {:induction false} FileBytesUpdate(nodes: seq<Node>, i: nat, name: string, data: string)
    requires i < |nodes| && nodes[i].File?
    ensures FileBytes(nodes[i := File(name, data)]) == FileBytes(nodes) - |nodes[i].data| + |data|
  {
    var nodes' := nodes[i := File(name, data)];
    if i == 0 {
      assert nodes'[1..] == nodes[1..];
    } else {
      assert nodes'[1..] == nodes[1..][i-1 := File(name, data)];
      FileBytesUpdate(nodes[1..], i - 1, name, data);
    }
  }

  lemma {:induction false} FileBytesAppend(nodes: seq<Node>, node: Node)
    ensures FileBytes(nodes + [node]) == FileBytes(nodes) + if node.File? then |node.data| else 0
  {
    if nodes == [] {
      assert (nodes + [node])[1..] == [];
    } else {
      assert (nodes + [node])[1..] == nodes[1..] + [node];
      FileBytesAppend(nodes[1..], node);
    }
  }

  lemma WriteFileBytes(nodes: seq<Node>, name: string, data: string, truncate: bool)
    ensures FileBytes(WriteFile(nodes, name, data, truncate)) <= FileBytes(nodes) + |data|
  {
    var i := FindFile(nodes, name);
    if i < |nodes| {
      FileBytesUpdate(nodes, i, nodes[i].name, (if truncate then "" else nodes[i].data) + data);
    } else {
      FileBytesAppend(nodes, File(name, data));
    }
  }

  lemma {:induction false} SpacedBytes(words: seq<string>)
    ensures |Spaced(words)| == WordBytes(words)
    ensures |Glued(words)| <= WordBytes(words)
    ensures |StartLine(words)| <= WordBytes(words) + 3
  {
    if words != [] {
      SpacedBytes(words[1..]);
    }
  }

  lemma {:induction false} FromSwitchBytes(params: seq<string>)
    ensures WordBytes(FromSwitch(params)) <= WordBytes(params)
    ensures FromSwitch(params) != [] ==> IsSwitch(FromSwitch(params)[0])
  {
    if params != [] && !IsSwitch(params[0]) {
      FromSwitchBytes(params[1..]);
    }
  }

  lemma CmdLineBytes(params: seq<string>)
    requires params != [] && IsSwitch(params[0])
    ensures |CmdLine(params)| <= WordBytes(params)
  {
    SpacedBytes(params[1..]);
  }

  lemma EchoNeedsItsName(command: string)
    ensures !SameName("echo", command + ".exe")
  {
    if command == "" {
      assert (command + ".exe")[0] == '.';
    }
  }

  /** A program is named by its own name, or by that without the extension. */
  lemma CommandSize(p: Program, command: string)
    requires Runs(ProgramName(p), command, ".exe")
    ensures |command| >= |ProgramName(p)| - 4
    ensures p == Echo ==> |command| == 4
    ensures p == Redir || p == RRedir ==> |command| >= 1
  {
    EchoNeedsItsName(command);
    assert |command + ".exe"| == |command| + 4;
  }

  lemma WriteShrinks(s: Shell, truncate: bool, params: seq<string>, size: nat)
    requires params != [] && params[0] != ""
    requires WordBytes(params) <= size
    ensures Bytes(s.(nodes := WriteFile(s.nodes, params[0], s.stdout + "\n", truncate), stdout := ""))
         <= Bytes(s) + size - 1
  {
    WriteFileBytes(s.nodes, params[0], s.stdout + "\n", truncate);
  }

  lemma CmdShrinks(s: Shell, params: seq<string>, size: nat)
    requires WordBytes(params) < size
    ensures Bytes(RunProgram(s, Cmd, params)) < Bytes(s) + size
  {
    var rest := FromSwitch(params);
    FromSwitchBytes(params);
    if rest != [] {
      CmdLineBytes(rest);
    }
  }

  /** The output and input a program adds are paid for by the line that called it. */
  lemma ProgramShrinks(s: Shell, p: Program, command: string, params: seq<string>, size: nat)
    requires Runs(ProgramName(p), command, ".exe")
    requires |command| + WordBytes(params) <= size + 1 && 1 <= size
    requires params != [] ==> params[0] != ""
    ensures Bytes(RunProgram(s, p, params)) < Bytes(s) + size
  {
    CommandSize(p, command);
    SpacedBytes(params);
    if (p == Redir || p == RRedir) && params != [] {
      WriteShrinks(s, p == Redir, params, size);
    } else if p == Cmd {
      CmdShrinks(s, params, size);
    }
  }

  /** Every round leaves fewer bytes in the streams and files, although commands and batch files refill the input. */
  lemma RoundShrinks(s: Shell)
    requires s.stdin != ""
    ensures Bytes(Round(s)) < Bytes(s)
  {
    var n := LineLength(s.stdin, false, false, false);
    LineNotEmpty(s.stdin);
    var line := FirstLine(s.stdin);
    LineFits(line);
    var command, params := Command(line), Params(line);
    var s0 := s.(stdin := s.stdin[n..]);
    var i := FindExe(s.nodes, command);
    if i < |s.nodes| {
      ProgramShrinks(s0, s.nodes[i].program, command, params, n);
    } else {
      var j := FindBatch(s.nodes, command);
      if j < |s.nodes| {
        FileBytesUpdate(s.nodes, j, s.nodes[j].name, "");
      }
    }
  }

  /** The loop of execute, which stops with the input used up. */
  function Execute(s: Shell): (r: Shell)
    ensures r.stdin == ""
    decreases Bytes(s)
  {
    if s.stdin == "" then s
    else
      RoundShrinks(s);
      Execute(Round(s))
  }

  /** The number of rounds execute makes. */
  function Rounds(s: Shell): nat
    decreases Bytes(s)
  {
    if s.stdin == "" then 0
    else
      RoundShrinks(s);
      1 + Rounds(Round(s))
  }

  /** No input makes execute run for more rounds than there are bytes in the streams and files. */
  lemma {:induction false} RoundsBounded(s: Shell)
    ensures Rounds(s) + Bytes(Execute(s)) <= Bytes(s)
    decreases Bytes(s)
  {
    if s.stdin != "" {
      RoundShrinks(s);
      RoundsBounded(Round(s));
    }
  }
}
