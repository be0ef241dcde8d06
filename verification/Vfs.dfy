/** The emulated command prompt: files, directories and the execute loop, proved against the functions of VfsShell. */
module Vfs {
  import opened Chars
  import opened VfsText
  import opened VfsShell
  import opened VfsScript

  datatype VFSNode = DirNode(name: string) | ExeNode(program: Program) | FileNode(file: VFSFile)

  class VFSFile {
    const m_Name: string
    var m_Buffer: string

    constructor (name: string, data: string)
      ensures m_Name == name && m_Buffer == data
    {
      m_Name, m_Buffer := name, data;
    }

    method AddData(data: string)
      modifies this
      ensures m_Buffer == old(m_Buffer) + data
    {
      m_Buffer := m_Buffer + data;
    }

    method TruncateFile()
      modifies this
      ensures m_Buffer == ""
    {
      m_Buffer := "";
    }
  }

  ghost function FilesOf(nodes: seq<VFSNode>): set<VFSFile> {
    set n | n in nodes && n.FileNode? :: n.file
  }

  ghost function View(n: VFSNode): Node
    reads if n.FileNode? then {n.file} else {}
  {
    match n
    case DirNode(name) => Directory(name)
    case ExeNode(program) => Exe(program)
    case FileNode(file) => File(file.m_Name, file.m_Buffer)
  }

  class VFSDir {
    const m_Name: string
    var m_Nodes: seq<VFSNode>

    constructor (name: string)
      ensures m_Name == name && m_Nodes == []
    {
      m_Name, m_Nodes := name, [];
    }

    /** No file object is entered twice. */
    ghost predicate Valid()
      reads this
    {
      forall i, j :: 0 <= i < j < |m_Nodes| && m_Nodes[i].FileNode? && m_Nodes[j].FileNode?
                     ==> m_Nodes[i].file != m_Nodes[j].file
    }

    ghost function Files(): set<VFSFile>
      reads this
    {
      FilesOf(m_Nodes)
    }

    ghost function Nodes(): (r: seq<Node>)
      reads this, Files()
      ensures |r| == |m_Nodes| && forall i :: 0 <= i < |r| ==> r[i] == View(m_Nodes[i])
    {
      seq(|m_Nodes|, i requires 0 <= i < |m_Nodes| reads this, Files() => View(m_Nodes[i]))
    }

    method CreateCommand(program: Program)
      modifies this
      ensures m_Nodes == old(m_Nodes) + [ExeNode(program)]
    {
      m_Nodes := m_Nodes + [ExeNode(program)];
    }

    method CreateDirectory(name: string)
      modifies this
      ensures m_Nodes == old(m_Nodes) + [DirNode(name)]
    {
      m_Nodes := m_Nodes + [DirNode(name)];
    }

    method CreateFile(name: string, data: string) returns (file: VFSFile)
      requires Valid()
      modifies this
      ensures Valid() && fresh(file)
      ensures m_Nodes == old(m_Nodes) + [FileNode(file)]
      ensures file.m_Name == name && file.m_Buffer == data
    {
      file := new VFSFile(name, data);
      m_Nodes := m_Nodes + [FileNode(file)];
    }

    method GetFile(filename: string) returns (file: VFSFile?)
      ensures var i := FindFile(Nodes(), filename);
              if i < |m_Nodes| then file != null && m_Nodes[i] == FileNode(file) else file == null
    {
      var i := 0;
      while i < |m_Nodes|
        invariant 0 <= i <= |m_Nodes|
        invariant FindFile(Nodes(), filename) == i + FindFile(Nodes()[i..], filename)
      {
        assert Nodes()[i..][0] == View(m_Nodes[i]) && Nodes()[i..][1..] == Nodes()[i+1..];
        if m_Nodes[i].FileNode? && SameName(m_Nodes[i].file.m_Name, filename) {
          return m_Nodes[i].file;
        }
        i := i + 1;
      }
      return null;
    }

    /** The search for a program among a directory's nodes. */
    method FindProgram(command: string) returns (found: bool, program: Program)
      ensures var i := FindExe(Nodes(), command);
              if i < |m_Nodes| then found && Nodes()[i] == Exe(program) else !found
    {
      found, program := false, Dir;
      var i := 0;
      while i < |m_Nodes|
        invariant 0 <= i <= |m_Nodes|
        invariant FindExe(Nodes(), command) == i + FindExe(Nodes()[i..], command)
        invariant !found
      {
        assert Nodes()[i..][0] == View(m_Nodes[i]) && Nodes()[i..][1..] == Nodes()[i+1..];
        if m_Nodes[i].ExeNode? && Runs(ProgramName(m_Nodes[i].program), command, ".exe") {
          return true, m_Nodes[i].program;
        }
        i := i + 1;
      }
    }

    /** The search for a batch file among a directory's nodes. */
    method FindBatchFile(command: string) returns (file: VFSFile?)
      ensures var i := FindBatch(Nodes(), command);
              if i < |m_Nodes| then file != null && m_Nodes[i] == FileNode(file) else file == null
    {
      var i := 0;
      while i < |m_Nodes|
        invariant 0 <= i <= |m_Nodes|
        invariant FindBatch(Nodes(), command) == i + FindBatch(Nodes()[i..], command)
      {
        assert Nodes()[i..][0] == View(m_Nodes[i]) && Nodes()[i..][1..] == Nodes()[i+1..];
        if m_Nodes[i].FileNode? && Runs(m_Nodes[i].file.m_Name, command, ".bat") {
          return m_Nodes[i].file;
        }
        i := i + 1;
      }
      return null;
    }
  }

  // ---------------------------------------------------------------- the scanning loops of execute

  method SplitLine(stdin: string) returns (i: nat)
    ensures i == LineLength(stdin, false, false, false)
  {
    i := 0;
    var hasredir, escaped, haschar := false, false, false;
    while i < |stdin|
      invariant 0 <= i <= |stdin|
      invariant LineLength(stdin, false, false, false) == i + LineLength(stdin[i..], hasredir, escaped, haschar)
    {
      Advance(stdin, i);
      if stdin[i] == '>' {
        if !escaped {
          if haschar {
            break;
          } else {
            hasredir := true;
          }
        } else {
          escaped := false;
        }
      } else if stdin[i] == '\n' {
        i := i + 1;
        return;
      } else if (stdin[i] == ';' && hasredir) || stdin[i] == '&' {
        if !escaped {
          i := i + 1;
          return;
        } else {
          escaped := false;
        }
      } else if stdin[i] == '^' {
        escaped := !escaped;
      } else {
        haschar := true;
        escaped := false;
      }
      i := i + 1;
    }
  }

  method UnescapeLine(line: string) returns (newline: string)
    ensures newline == Unescape(line, false)
  {
    newline := "";
    var i, escaped := 0, false;
    while i < |line|
      invariant 0 <= i <= |line|
      invariant newline + Unescape(line[i..], escaped) == Unescape(line, false)
    {
      Advance(line, i);
      if escaped {
        escaped := false;
        newline := newline + [line[i]];
      } else if line[i] == '^' {
        escaped := true;
      } else {
        newline := newline + [line[i]];
        escaped := false;
      }
      i := i + 1;
    }
  }

  lemma LeadingFound(s: string, k: nat, rest: string)
    requires k < |s| && IsGraph(s[k]) && forall j :: 0 <= j < k ==> !IsGraph(s[j])
    ensures Leading(s + rest) == k
  {
    if k > 0 {
      assert (s + rest)[1..] == s[1..] + rest;
      LeadingFound(s[1..], k - 1, rest);
    }
  }

  lemma LeadingNone(s: string)
    requires forall j :: 0 <= j < |s| ==> !IsGraph(s[j])
    ensures Leading(s) == |s|
  {
    if s != "" {
      LeadingNone(s[1..]);
    }
  }

  method FindCommandWord(line: string) returns (start: nat, stop: nat)
    ensures stop == CommandStop(line, false, false)
    ensures start == if Leading(line[..stop]) == stop then 0 else Leading(line[..stop])
  {
    var i, haschar, hasredir := 0, false, false;
    start := 0;
    while i < |line|
      invariant 0 <= i <= |line|
      invariant CommandStop(line, false, false) == i + CommandStop(line[i..], haschar, hasredir)
      invariant haschar ==> start < i && IsGraph(line[start]) && forall j :: 0 <= j < start ==> !IsGraph(line[j])
      invariant !haschar ==> start == 0 && forall j :: 0 <= j < i ==> !IsGraph(line[j])
    {
      Advance(line, i);
      if (line[i] == ' ' && haschar) || (hasredir && line[i] != '>') {
        break;
      }
      if IsGraph(line[i]) {
        if !haschar {
          start := i;
        }
        haschar := true;
      }
      if line[i] == '>' {
        hasredir := true;
      }
      i := i + 1;
    }
    stop := i;
    if haschar {
      LeadingFound(line[..stop], start, "");
      assert line[..stop] + "" == line[..stop];
    } else {
      LeadingNone(line[..stop]);
    }
  }

  method SplitParams(params: string) returns (paramlist: seq<string>)
    ensures paramlist == Words(params, "")
  {
    paramlist := [];
    var i, haschar, wordstart := 0, false, 0;
    ghost var word := "";
    while i <= |params|
      invariant 0 <= i <= |params| + 1
      invariant haschar == (word != "")
      invariant haschar ==> wordstart < i <= |params| && word == params[wordstart..i]
      invariant i <= |params| ==> Words(params, "") == paramlist + Words(params[i..], word)
      invariant i > |params| ==> Words(params, "") == paramlist
    {
      var c := Head(params[i..]);
      if i < |params| {
        Advance(params, i);
      }
      if (c == ' ' || c == '\0') && haschar {
        assert forall rest :: paramlist + ([word] + rest) == paramlist + [word] + rest;
        paramlist := paramlist + [params[wordstart..i]];
        haschar, word := false, "";
      } else if IsGraph(c) && !haschar {
        haschar := true;
        wordstart := i;
        word := word + [c];
      } else if haschar {
        word := word + [c];
      }
      i := i + 1;
    }
  }

  /** Tear off the first line, unescape it, and cut it into the command and its parameters. */
  method ReadCommand(stdin: string) returns (linelen: nat, command: string, params: seq<string>)
    requires stdin != ""
    ensures linelen == LineLength(stdin, false, false, false)
    ensures command == Command(FirstLine(stdin)) && params == Params(FirstLine(stdin))
  {
    LineNotEmpty(stdin);
    linelen := SplitLine(stdin);
    var line := stdin[..linelen];
    if IsSeparator(line[|line|-1]) {
      line := line[|line|-1 := '\0'];
    }
    line := UnescapeLine(line);
    var start, stop := FindCommandWord(line);
    command := CStr(ClearBreaks(line[start..stop]));
    params := SplitParams(ClearBreaks(line[stop..]));
  }

  /** The nodes with a file of that name, which is empty if there was none. */
  ghost function Opened(nodes: seq<Node>, name: string): (r: seq<Node>)
    ensures FindFile(nodes, name) < |r| && r[FindFile(nodes, name)].File?
  {
    if FindFile(nodes, name) < |nodes| then nodes else nodes + [File(name, "")]
  }

  /** The nodes with an empty file of that name. */
  ghost function Emptied(nodes: seq<Node>, name: string): (r: seq<Node>)
    ensures FindFile(nodes, name) < |r| && r[FindFile(nodes, name)].File? && r[FindFile(nodes, name)].data == ""
  {
    WriteFile(nodes, name, "", true)
  }

  lemma EmptiedWritten(nodes: seq<Node>, name: string, data: string)
    ensures var i, r := FindFile(nodes, name), Emptied(nodes, name);
            r[i := File(r[i].name, "" + data)] == WriteFile(nodes, name, data, true)
  {
    assert "" + data == data;
  }

  lemma LastOfRest(params: seq<string>, i: nat)
    requires i < |params|
    ensures var rest := params[i..];
            rest != [] && rest[0] == params[i] && rest[|rest|-1] == params[|params|-1] && rest[1..] == params[i+1..]
  {
  }

  ghost function Join(words: seq<string>, apart: bool): string {
    if apart then Spaced(words) else Glued(words)
  }

  lemma JoinStep(words: seq<string>, j: nat, before: string, apart: bool)
    requires j < |words|
    ensures before + Join(words[j..], apart)
         == before + words[j] + (if apart then " " else "") + Join(words[j+1..], apart)
  {
    SpacedStep(words, j, before);
    assert before + words[j] + "" == before + words[j];
  }

  lemma JoinNone(words: seq<string>, before: string, apart: bool)
    ensures words == [] ==> before + Join(words, apart) == before
    ensures before == "" ==> before + Join(words, apart) == Join(words, apart)
  {
  }

  lemma OpenedWritten(nodes: seq<Node>, name: string, data: string)
    ensures var i, r := FindFile(nodes, name), Opened(nodes, name);
            r[i := File(r[i].name, r[i].data + data)] == WriteFile(nodes, name, data, false)
  {
    assert "" + data == data;
  }

  class VFS {
    var m_StdIn: string
    var m_StdOut: string
    const m_WindowsDir: VFSDir
    const m_CurrentDir: VFSDir
    var m_Downloads: seq<string>

    /** The first directory searched for commands holds only the second one. */
    ghost predicate Valid()
      reads this, m_WindowsDir, m_CurrentDir
    {
      m_WindowsDir.m_Nodes == [DirNode("System32")] && m_WindowsDir != m_CurrentDir && m_CurrentDir.Valid()
    }

    ghost function State(): Shell
      reads this, m_CurrentDir, m_CurrentDir.Files()
    {
      Shell(m_StdIn, m_StdOut, m_CurrentDir.Nodes(), m_Downloads)
    }

    constructor Init()
      ensures Valid() && fresh(m_WindowsDir) && fresh(m_CurrentDir) && m_CurrentDir.Files() == {}
      ensures State() == Shell("", "", PROGRAMS, [])
    {
      m_StdIn, m_StdOut, m_Downloads := "", "", [];
      var wdir := new VFSDir("WINNT");
      wdir.CreateDirectory("System32");
      var sdir := new VFSDir("System32");
      InstallPrograms(sdir);
      m_WindowsDir, m_CurrentDir := wdir, sdir;
    }

    static method InstallPrograms(dir: VFSDir)
      requires dir.m_Nodes == []
      modifies dir
      ensures dir.Valid() && dir.Files() == {} && dir.Nodes() == PROGRAMS
    {
      dir.CreateCommand(Dir);
      dir.CreateCommand(Echo);
      dir.CreateCommand(Redir);
      dir.CreateCommand(RRedir);
      dir.CreateCommand(Tftp);
      dir.CreateCommand(Ftp);
      dir.CreateCommand(Cmd);
      dir.CreateCommand(Start);
      dir.CreateCommand(Rcp);
      assert dir.m_Nodes == [ExeNode(Dir), ExeNode(Echo), ExeNode(Redir), ExeNode(RRedir), ExeNode(Tftp),
                             ExeNode(Ftp), ExeNode(Cmd), ExeNode(Start), ExeNode(Rcp)];
    }

    method AddStdOut(s: string)
      modifies this`m_StdOut
      ensures m_StdOut == old(m_StdOut) + s
    {
      m_StdOut := m_StdOut + s;
    }

    method AddStdIn(s: string)
      modifies this`m_StdIn
      ensures m_StdIn == s + old(m_StdIn)
    {
      m_StdIn := s + m_StdIn;
    }

    method RunEcho(params: seq<string>)
      modifies this`m_StdOut
      ensures m_StdOut == EchoOutput(params)
    {
      m_StdOut := "";
      if |params| == 1 {
        if params[0] == "on" || params[0] == "off" {
          return;
        }
      }
      var i := 0;
      while i < |params|
        invariant 0 <= i <= |params|
        invariant m_StdOut + Spaced(params[i..]) == Spaced(params)
      {
        SpacedStep(params, i, m_StdOut);
        AddStdOut(params[i]);
        AddStdOut(" ");
        i := i + 1;
      }
      assert params[i..] == [];
    }

    method Truncate(file: VFSFile, ghost i: nat)
      requires Valid() && i < |m_CurrentDir.m_Nodes| && m_CurrentDir.m_Nodes[i] == FileNode(file)
      modifies file
      ensures Valid()
      ensures m_CurrentDir.Nodes() == old(m_CurrentDir.Nodes())[i := File(file.m_Name, "")]
    {
      ghost var before := m_CurrentDir.Nodes();
      file.TruncateFile();
      forall j | 0 <= j < |before| && j != i ensures m_CurrentDir.Nodes()[j] == before[j] {
        assert m_CurrentDir.m_Nodes[j].FileNode? ==> m_CurrentDir.m_Nodes[j].file != file;
      }
    }

    /** The end of both redirections: the output and a line break go into the file, and the output is emptied. */
    method MoveStdOut(file: VFSFile, ghost i: nat)
      requires Valid() && i < |m_CurrentDir.m_Nodes| && m_CurrentDir.m_Nodes[i] == FileNode(file)
      modifies this`m_StdOut, file
      ensures Valid() && m_StdOut == ""
      ensures m_CurrentDir.Nodes()
           == old(m_CurrentDir.Nodes())[i := File(file.m_Name, old(file.m_Buffer) + (old(m_StdOut) + "\n"))]
    {
      ghost var before := m_CurrentDir.Nodes();
      ghost var data := file.m_Buffer + (m_StdOut + "\n");
      file.AddData(m_StdOut);
      file.AddData("\n");
      m_StdOut := "";
      assert file.m_Buffer == data;
      forall j | 0 <= j < |before| && j != i ensures m_CurrentDir.Nodes()[j] == before[j] {
        assert m_CurrentDir.m_Nodes[j].FileNode? ==> m_CurrentDir.m_Nodes[j].file != file;
      }
      assert m_CurrentDir.Nodes() == before[i := File(file.m_Name, data)];
    }

    /** Both redirections begin with a look-up; where it fails, an empty file is made. */
    method OpenFile(name: string) returns (file: VFSFile, made: bool)
      requires Valid()
      modifies m_CurrentDir
      ensures Valid() && fresh(m_CurrentDir.Files() - old(m_CurrentDir.Files()))
      ensures m_CurrentDir.Nodes() == Opened(old(m_CurrentDir.Nodes()), name)
      ensures var i := FindFile(old(m_CurrentDir.Nodes()), name);
              && i < |m_CurrentDir.m_Nodes| && m_CurrentDir.m_Nodes[i] == FileNode(file)
              && made == (i == old(|m_CurrentDir.m_Nodes|))
              && m_CurrentDir.Nodes()[i] == File(file.m_Name, file.m_Buffer)
      ensures made ==> fresh(file)
      ensures !made ==> file in old(m_CurrentDir.Files())
    {
      ghost var before := m_CurrentDir.Nodes();
      var found := m_CurrentDir.GetFile(name);
      if found == null {
        made := true;
        file := m_CurrentDir.CreateFile(name, "");
        assert m_CurrentDir.Nodes() == before + [File(name, "")];
      } else {
        made, file := false, found;
      }
    }

    /** The file is truncated if it was there before. */
    method OpenEmpty(name: string) returns (file: VFSFile)
      requires Valid()
      modifies m_CurrentDir, m_CurrentDir.Files()
      ensures Valid() && fresh(m_CurrentDir.Files() - old(m_CurrentDir.Files()))
      ensures m_CurrentDir.Nodes() == Emptied(old(m_CurrentDir.Nodes()), name) && file.m_Buffer == ""
      ensures var i := FindFile(old(m_CurrentDir.Nodes()), name);
              i < |m_CurrentDir.m_Nodes| && m_CurrentDir.m_Nodes[i] == FileNode(file)
      ensures file in old(m_CurrentDir.Files()) || fresh(file)
    {
      ghost var before := m_CurrentDir.Nodes();
      var made;
      file, made := OpenFile(name);
      if !made {
        Truncate(file, FindFile(before, name));
      }
    }

    method RunRedir(params: seq<string>)
      requires Valid()
      modifies this, m_CurrentDir, m_CurrentDir.Files()
      ensures Valid() && fresh(m_CurrentDir.Files() - old(m_CurrentDir.Files()))
      ensures State() == RunProgram(old(State()), Redir, params)
    {
      if |params| == 0 {
        return;
      }
      ghost var before := m_CurrentDir.Nodes();
      ghost var i := FindFile(before, params[0]);
      EmptiedWritten(before, params[0], m_StdOut + "\n");
      var file := OpenEmpty(params[0]);
      MoveStdOut(file, i);
    }

    method AppendStdOut(name: string)
      requires Valid()
      modifies this`m_StdOut, m_CurrentDir, m_CurrentDir.Files()
      ensures Valid() && fresh(m_CurrentDir.Files() - old(m_CurrentDir.Files())) && m_StdOut == ""
      ensures m_CurrentDir.Nodes() == WriteFile(old(m_CurrentDir.Nodes()), name, old(m_StdOut) + "\n", false)
    {
      ghost var before := m_CurrentDir.Nodes();
      OpenedWritten(before, name, m_StdOut + "\n");
      var file, _ := OpenFile(name);
      MoveStdOut(file, FindFile(before, name));
    }

    method RunRRedir(params: seq<string>)
      requires Valid()
      modifies this, m_CurrentDir, m_CurrentDir.Files()
      ensures Valid() && fresh(m_CurrentDir.Files() - old(m_CurrentDir.Files()))
      ensures State() == RunProgram(old(State()), RRedir, params)
    {
      if |params| == 0 {
        return;
      }
      AppendStdOut(params[0]);
    }

    /** The inner loop of cmd: the parameters behind the switch at place i, and a separator. */
    static method JoinAfterSwitch(params: seq<string>, i: nat) returns (command: string)
      requires i < |params|
      ensures command == CmdLine(params[i..])
    {
      command := "";
      var j, apart := i + 1, params[i] != params[|params|-1];
      ghost var rest := params[i..];
      LastOfRest(params, i);
      JoinNone(params[j..], command, apart);
      while j < |params|
        invariant i < j <= |params|
        invariant command + Join(params[j..], apart) == Join(rest[1..], apart)
      {
        JoinStep(params, j, command, apart);
        command := command + params[j];
        if apart {
          command := command + " ";
        }
        j := j + 1;
      }
      JoinNone(params[j..], command, apart);
      command := command + " & ";
    }

    method RunCmd(params: seq<string>)
      modifies this`m_StdIn
      ensures m_StdIn == (if FromSwitch(params) == [] then "" else CmdLine(FromSwitch(params))) + old(m_StdIn)
    {
      var i := 0;
      while i < |params|
        invariant 0 <= i <= |params|
        invariant FromSwitch(params) == FromSwitch(params[i..])
        invariant m_StdIn == old(m_StdIn)
      {
        assert params[i..][0] == params[i] && params[i..][1..] == params[i+1..];
        if StartsWith(params[i], "/c") || StartsWith(params[i], "/k") {
          var command := JoinAfterSwitch(params, i);
          AddStdIn(command);
          return;
        }
        i := i + 1;
      }
      assert params[i..] == [];
    }

    method RunStart(params: seq<string>)
      modifies this`m_StdIn
      ensures m_StdIn == StartLine(params) + old(m_StdIn)
    {
      var i, command := 0, "";
      assert params[0..] == params && "" + StartLine(params) == StartLine(params);
      while i < |params|
        invariant 0 <= i <= |params|
        invariant command + StartLine(params[i..]) == StartLine(params) && m_StdIn == old(m_StdIn)
      {
        StartStep(params, i, command);
        if Head(params[i]) != '\"' && Head(params[i]) != '/' {
          command := command + params[i];
        }
        i := i + 1;
      }
      assert params[i..] == [] && StartLine(params[i..]) == " & ";
      command := command + " & ";
      AddStdIn(command);
    }

    method RunTftp(params: seq<string>)
      modifies this`m_Downloads
      ensures m_Downloads == old(m_Downloads)
                             + if |params| < 4 then [] else ["tftp://" + params[1] + "/" + params[3]]
    {
      if |params| < 4 {
        return;
      }
      m_Downloads := m_Downloads + ["tftp://" + params[1] + "/" + params[3]];
    }

    method RunProgramOn(program: Program, params: seq<string>)
      requires Valid()
      modifies this, m_CurrentDir, m_CurrentDir.Files()
      ensures Valid() && fresh(m_CurrentDir.Files() - old(m_CurrentDir.Files()))
      ensures State() == RunProgram(old(State()), program, params)
    {
      match program
      case Echo => RunEcho(params);
      case Redir => RunRedir(params);
      case RRedir => RunRRedir(params);
      case Tftp => RunTftp(params);
      case Cmd => RunCmd(params);
      case Start => RunStart(params);
      case _ =>
    }

    /** The batch file is emptied as its content is put behind the input. */
    method RunBatchFile(file: VFSFile, ghost i: nat)
      requires Valid() && i < |m_CurrentDir.m_Nodes| && m_CurrentDir.m_Nodes[i] == FileNode(file)
      modifies this`m_StdIn, file
      ensures Valid() && State() == RunBatch(old(State()), i)
    {
      m_StdIn := m_StdIn + file.m_Buffer;
      Truncate(file, i);
    }

    /** The program is looked up in the directory for commands, then in the current one. */
    method FindCommand(command: string) returns (found: bool, program: Program)
      requires Valid()
      ensures var nodes := m_CurrentDir.Nodes();
              && found == (FindExe(nodes, command) < |nodes|)
              && (found ==> program == nodes[FindExe(nodes, command)].program)
    {
      found, program := m_WindowsDir.FindProgram(command);
      if !found {
        found, program := m_CurrentDir.FindProgram(command);
      }
    }

    method RunCommand(command: string, params: seq<string>)
      requires Valid()
      modifies this, m_CurrentDir, m_CurrentDir.Files()
      ensures Valid() && fresh(m_CurrentDir.Files() - old(m_CurrentDir.Files()))
      ensures State() == Dispatch(old(State()), command, params)
    {
      var found, program := FindCommand(command);
      if found {
        RunProgramOn(program, params);
      } else {
        var file := m_CurrentDir.FindBatchFile(command);
        if file != null {
          RunBatchFile(file, FindBatch(m_CurrentDir.Nodes(), command));
        }
      }
    }

    /** One pass of the loop over the input. */
    method ExecuteLine()
      requires Valid() && m_StdIn != ""
      modifies this, m_CurrentDir, m_CurrentDir.Files()
      ensures Valid() && fresh(m_CurrentDir.Files() - old(m_CurrentDir.Files()))
      ensures State() == Round(old(State()))
    {
      var linelen, command, params := ReadCommand(m_StdIn);
      m_StdIn := m_StdIn[linelen..];
      RunCommand(command, params);
    }

    /** The empty input is answered with the current directory's name, which is a null pointer: there is no result. */
    method Execute(input: string) returns (ok: bool, output: string)
      requires Valid()
      modifies this, m_CurrentDir, m_CurrentDir.Files()
      ensures Valid() && fresh(m_CurrentDir.Files() - old(m_CurrentDir.Files()))
      ensures ok == (input != "")
      ensures ok ==> var s := old(State());
                     State() == VfsShell.Execute(s.(stdin := s.stdin + input)) && output == m_StdOut
      ensures !ok ==> State() == old(State())
    {
      if |input| <= 0 {
        return false, "";
      }
      m_StdIn := m_StdIn + input;
      ghost var start := State();
      while |m_StdIn| > 0
        invariant Valid() && fresh(m_CurrentDir.Files() - old(m_CurrentDir.Files()))
        invariant VfsShell.Execute(State()) == VfsShell.Execute(start)
        decreases Bytes(State())
      {
        RoundShrinks(State());
        ExecuteLine();
      }
      return true, m_StdOut;
    }
  }
}
