# Nepenthes: a verified model of its parsers, protocol machines and trackers

Nepenthes is a honeypot: it talks to attackers, follows what they do and fetches what they leave. Most of it moves bytes
between libraries, but several of its parts parse by hand, keep a protocol's state, or keep a web of contexts in order
over days of events. These parts are modelled here, and what they are for is proved of them.

| part of Nepenthes | files here |
|---|---|
| Peiros wire format: an incremental parser and a printer of requests | `PeirosParser.dfy`, `PeirosStream.dfy`, `PeirosGrammar.dfy` |
| WinNT shell emulator: a command prompt over virtual files | `VfsText.dfy`, `VfsShell.dfy`, `VfsScript.dfy`, `VfsCommands.dfy`, `Vfs.dfy` |
| TFTP client, against any server and against RFC 1350 servers on a bad network | `Tftp.dfy`, `TftpProtocol.dfy` |
| G.O.T.E.K. submission in spool mode | `Gotek.dfy`, `GotekProtocol.dfy` |
| Attack logger, and the traffic transcript of its sockets | `LogAttack.dfy`, `LogAttackRuns.dfy`, `LogAttackKept.dfy`, `LogAttackOrigins.dfy`, `Transcript.dfy` |
| SURFnet logger, whose attack ids arrive late | `LogSurfnet.dfy`, `LogSurfnetRuns.dfy`, `LogSurfnetStages.dfy` |
| Peiros addresses: a bitmap allocator shared by dialogues | `PeirosNet.dfy`, `PeirosDialogues.dfy` |
| FTP control connection | `Ftp.dfy`, `FtpRuns.dfy`, `FtpHistory.dfy`, `FtpCommands.dfy` |
| Decoders of widened and of xored shellcode | `Unicode.dfy`, `Xor.dfy` |
| Characters, decimal numbers, bytes, optional values, sequences | `Chars.dfy`, `Bytes.dfy`, `Options.dfy`, `Sequences.dfy` |

The pattern is the same throughout. A class has the fields of the C++ class, and methods with its loops and branches.
Each method is proved against a function on values, which says what the new state is. What the part is for is then
proved about that function: over every stream in every chunking, over every run of events, over every input. Where the
code does not keep a promise, the exact condition under which it does is proved, with an input for which it fails.

`dafny verify dfyconfig.toml` checks the whole project.

## What the code does not keep

* Quotes. A comment of the shell emulator (`VFS.cpp:311-316`) promises that quoted parameters are found whole and
  without their quotes. A quoted parameter is found whole if and only if it holds no space
  (`VfsScript.QuotesAreCharacters`), and the quotes always stay (`VfsScript.ParamsKeepAll`). Input: `echo "a b"`
  (`VfsScript.QuotesExample`).
* Separators. The shell emulator overwrites a `;` or `&` at the very end of every line, but a line also ends before a
  redirection and at the end of the input: exactly there the character is lost, even if it is escaped
  (`VfsText.SeparatorLost` for every input, `VfsText.QuotedEnds` for quoted texts). Input: `echo a^&>>f`
  (`VfsText.SeparatorExample`).
* Commands put back. `cmd` puts the words behind its switch back into the input as a command with its parameters if
  and only if there is one word or the last one is not the switch once more (`VfsCommands.CmdKeepsWords`); otherwise
  it glues them together. Input: `cmd /c echo /c`. `start` always glues its words: it keeps them if and only if there
  is one besides titles and options (`VfsCommands.StartKeepsWords`). Input: `start echo hi`.
* Short last blocks. The TFTP client compares the length of the whole datagram, header included, with 512. A file is
  handed over in some run if and only if it is within the limits and its last block has fewer than 508 bytes
  (`TftpProtocol.SubmittedIff`). Input: any file within the limits whose last block has 508 to 511 bytes; exactly
  those can be taken and acknowledged to the last byte without being handed over (`TftpProtocol.WithheldIff`).
* Answers for their own samples. A spooled file that cannot be loaded stays in front of the G.O.T.E.K. queue, and the
  next sample's answer is used for it. A run's queue is always what is under way if and only if no new-file answer is
  for such a file (`GotekProtocol.AlignedAlways`). Input: `GotekProtocol.UnloadableExample`.
* Details under their own attacks. The SURFnet logger may file a detail of an unlisted socket under a finished attack.
  It never does if and only if no socket reports while its key's newest attack is one that was closed without a detail
  before its id came, with no socket of the key closed and no listed one accepted since
  (`LogSurfnetStages.ExactUnlessLeftBehind`). Input: `LogSurfnetRuns.MisfiledExample`.
* Addresses given back. A Peiros client that says HELO twice, that is destroyed without BYE, or whose address the
  interface does not take, makes the range lose an address for good. `PeirosDialogues.LostIff` says which one, and a
  run that ends without dialogues leaves the whole range free if and only if no event of it lost one
  (`PeirosDialogues.AllFreeAgain`). Input: `PeirosDialogues.LosesExample`.
* Addresses of hosts. `allocateAddress` passes over offsets whose low byte is 0 or 255. Its addresses never end in 0,
  and one ends in 255 if and only if it is the last of a range of fewer than 256 addresses that ends there
  (`PeirosNet.LastOctet`). Input: offset 15 of `10.0.0.240/28`.
* FTP commands in full. RETR is sent without PORT if and only if CWD was answered by 200, or the line that calls for
  PORT came when the search gave no port (`FtpHistory.RetrWithoutPort`). Inputs: `FtpHistory.RetrAfterCwdExample`,
  `FtpHistory.RetrUnboundExample`. PASS is sent without USER if and only if a 331 came instead of the greeting
  (`FtpHistory.PassWithoutUser`). Input: `FtpHistory.PassWithoutUserExample`.
* A port of one's own. The search for the port of PORT ends with one that nobody uses if and only if the range holds
  one (`Ftp.UnusedPortFound`). Otherwise its last attempt counts: a port that others listen on, or none even if some
  port before could be had (`Ftp.LastPortTried`). Input: any range in which the last port that is not skipped is in
  use and no other is free.
* Flags. With download flags but not the binary one the FTP client would stop behind the password
  (`FtpRuns.OtherFlagsStuck`, if and only if). Input: any even number other than zero; every caller in the repository
  that sets flags sets the binary one.
* Xored words. With a key of one byte, what was encoded over the captured size is decoded (`Xor.ByteKeyDecodes`). With
  a key of four, it is decoded if and only if the key is zero or the message is not one of whole words that the
  captured size covers to its end; of such a message the last word stays as it was (`Xor.WordKeyDecodes`). Input:
  `Xor.LastWordExample`.

One more case concerns a class in isolation only: `SocketCtx` cannot write the transcript of a socket whose last sent
message was empty (`Transcript.TranscriptReads`, `Transcript.EmptySentExample`), but sockets report a sent message only
when bytes of it were sent (`TCPSocket.cpp:553`), and for such traffic the transcript is always written
(`Transcript.DeliveredReads`).

## Model

| member | source | states |
|---|---|---|
| PeirosParser.ScanCommandBound | modules/module-peiros/PeirosParser.cpp:92-109 | an accepted command line lies, with its line break, within the buffer |
| PeirosParser.ScanHeadersBound | modules/module-peiros/PeirosParser.cpp:131-195 | an accepted header block has at least one byte and lies within the buffer |
| PeirosStream.CounterExact | modules/module-peiros/PeirosParser.cpp:90 | the 16-bit counters are exact for lengths up to 65535 |
| PeirosParser.ParseRequestProgress | modules/module-peiros/PeirosParser.cpp:36-84 | every call that asks for another one leaves less to do, so that draining the buffer ends |
| PeirosParser.Parser.ParseData | modules/module-peiros/PeirosParser.cpp:36-45 | the new state after a chunk, and whether the stream is still well formed |
| PeirosParser.Parser.ParseRequest | modules/module-peiros/PeirosParser.cpp:47-84 | one step: a command line, a header block, or the body that completes a request |
| PeirosParser.Parser.ParseCommand | modules/module-peiros/PeirosParser.cpp:86-123 | command and resource taken off the buffer by the character loop |
| PeirosParser.Parser.HeaderChar | modules/module-peiros/PeirosParser.cpp:131-195 | what one character does to the state machine, header names and values included |
| PeirosParser.Parser.ParseHeaders | modules/module-peiros/PeirosParser.cpp:125-209 | headers and body length taken off the buffer by the state machine |
| PeirosParser.Parser.GetRequest | modules/module-peiros/PeirosParser.cpp:217-223 | the oldest request leaves the queue |
| PeirosParser.Parser.RenderRequest | modules/module-peiros/PeirosParser.cpp:226-257 | the printed form: command line, headers in key order, decimal length, blank line, body |
| PeirosStream.ScanCommandLine | modules/module-peiros/PeirosParser.cpp:86-123 | a printed command line is read back as command and resource |
| PeirosStream.ScanHeaderLine | modules/module-peiros/PeirosParser.cpp:125-209 | a printed header is read back and stored |
| PeirosStream.ScanBlock | modules/module-peiros/PeirosParser.cpp:125-209 | the printed header block is read back as all headers and the body's length |
| PeirosStream.BlankLineIffHead | modules/module-peiros/PeirosParser.cpp:47-84 | a buffer holds a blank line exactly when it holds the whole head of the printed request |
| PeirosStream.StreamRoundTrip | modules/module-peiros/PeirosParser.cpp:36-257 | any stream of well-formed requests, in any chunks, with requests taken out at any time, yields exactly those requests in order, each as soon as its last byte is there, and is never malformed |
| PeirosGrammar.BlockRead | modules/module-peiros/PeirosParser.cpp:125-209 | every header block of the grammar is read, with all its headers and the length of the body |
| PeirosGrammar.BlockFound | modules/module-peiros/PeirosParser.cpp:125-209 | and whatever is read is a header block of the grammar |
| PeirosGrammar.HeadTaken | modules/module-peiros/PeirosParser.cpp:47-84 | of every buffer that begins with a head of the grammar, command, resource, headers and body length are those of its lines |
| PeirosGrammar.MalformedIff | modules/module-peiros/PeirosParser.cpp:36-84 | for every state and every chunk, the stream is reported as malformed if and only if what is read reaches, at its begin or behind a whole request, a text that holds a blank line and does not begin with a head of the grammar |
| PeirosGrammar.UnprintableBreaks | modules/module-peiros/PeirosParser.cpp:97-106 | a tab, an unprintable character or a lone line feed in a command line is malformed |
| PeirosGrammar.TabExample | modules/module-peiros/PeirosParser.cpp:97-106 | a command line with a tab is reported as malformed |
| PeirosGrammar.CounterWraps | modules/module-peiros/PeirosParser.cpp:90 | the counters of characters are taken modulo 65536 |
| Chars.AtoiDecimal | modules/module-peiros/PeirosParser.cpp:193 | atoi reads back the decimal length that printf wrote |
| VfsText.LineFits | modules/shellemu-winnt/VFS.cpp:224-352 | command and parameters of a line take no more bytes than the line and one |
| VfsText.SplitterAgrees | modules/shellemu-winnt/VFS.cpp:153-248 | splitter and unescape pass agree on the carets from every state |
| VfsText.EscapesAgree | modules/shellemu-winnt/VFS.cpp:153-248 | on every input both passes agree, place by place, on which characters are escaped |
| VfsText.QuotedLine | modules/shellemu-winnt/VFS.cpp:153-253 | a quoted text and a newline are taken as one line, which unescapes to the text |
| VfsText.EndChar | modules/shellemu-winnt/VFS.cpp:153-213 | what stands where the splitter ends a line, for each way in which it does |
| VfsText.SeparatorLost | modules/shellemu-winnt/VFS.cpp:153-222 | on every input, the first line is read as it should be if and only if it does not end in a separator before a redirection or at the end of the input |
| VfsText.QuotedEnds | modules/shellemu-winnt/VFS.cpp:153-248 | a quoted text, whatever ends its line, is read back if and only if it does not end in a separator before a redirection or at the end of the input |
| VfsText.QuotedTail | modules/shellemu-winnt/VFS.cpp:186-222 | a quoted text at the end of the input unescapes to itself if and only if it does not end in a separator |
| VfsText.SeparatorExample | modules/shellemu-winnt/VFS.cpp:153-222 | an escaped separator before a redirection is overwritten |
| VfsShell.FindFile | modules/shellemu-winnt/VFSDir.cpp:97-127 | the first file whose name is equal but for case |
| VfsShell.FirstFile | modules/shellemu-winnt/VFSDir.cpp:97-127 | no file before it has that name |
| VfsShell.ProgramShrinks | modules/shellemu-winnt/VFSCommandCMD.cpp:92-119 | what a program adds to the streams and files is paid for by the line that called it |
| VfsShell.RoundShrinks | modules/shellemu-winnt/VFS.cpp:133-427 | every round leaves fewer bytes in input, output and files, although commands and batch files refill the input |
| VfsShell.Execute | modules/shellemu-winnt/VFS.cpp:126-429 | the loop ends on every input and every set of files, with the input used up |
| VfsShell.RoundsBounded | modules/shellemu-winnt/VFS.cpp:126-429 | there are no more rounds than there were bytes |
| VfsScript.EchoRound | modules/shellemu-winnt/VFSCommandECHO.cpp:58-84 | an echo line before a redirection puts its words, each with a space, into the output |
| VfsScript.AppendRound | modules/shellemu-winnt/VFSCommandRREDIR.cpp:59-95 | the redirection moves the output and a newline behind the file's content |
| VfsScript.ParamsHoldNoSpace | modules/shellemu-winnt/VFS.cpp:317-352 | no parameter of any line holds a space, quoted or not |
| VfsScript.ParamsKeepAll | modules/shellemu-winnt/VFS.cpp:317-352 | parameters are the text behind the command without its spaces; nothing else is taken away, no quote either |
| VfsScript.QuotesAreCharacters | modules/shellemu-winnt/VFS.cpp:311-352 | any number of quoted parameters are found one by one, with their quotes, if and only if none of them holds a space |
| VfsScript.QuotesExample | modules/shellemu-winnt/VFS.cpp:311-352 | a quoted parameter of two words becomes two parameters |
| VfsCommands.RoundOfCommand | modules/shellemu-winnt/VFS.cpp:153-391 | a plain command on a line of its own, ended by a line feed or by a carriage return and a line feed, is dispatched with its words |
| VfsCommands.CommandBehindBlank | modules/shellemu-winnt/VFS.cpp:261-305 | spaces before a command do not change how it is read |
| VfsCommands.CmdKeepsWords | modules/shellemu-winnt/VFSCommandCMD.cpp:104-115 | the line that is put back is read as the words behind the switch if and only if there is one or the last of them is not the switch once more |
| VfsCommands.CmdEchoes | modules/shellemu-winnt/VFSCommandCMD.cpp:92-119 | an echo line behind a switch, redirected into a file, leaves the same shell as the echo line itself |
| VfsCommands.CmdWithoutSwitch | modules/shellemu-winnt/VFSCommandCMD.cpp:92-119 | without a switch nothing happens |
| VfsCommands.SwitchIff | modules/shellemu-winnt/VFSCommandCMD.cpp:101-102 | a switch begins with a slash and c or k, small or capital |
| VfsCommands.EchoTruncates | modules/shellemu-winnt/VFSCommandREDIR.cpp:59-98 | an echo line with a truncating redirection leaves just its words in the file, and every other node as it was |
| VfsCommands.NamelessRedirection | modules/shellemu-winnt/VFSCommandREDIR.cpp:59-98 | without a name the output stays where it is |
| VfsCommands.EmptyEchoIff | modules/shellemu-winnt/VFSCommandECHO.cpp:58-84 | echo has no output if and only if it has no words, or on or off alone |
| VfsCommands.TftpRound | modules/shellemu-winnt/VFSCommandTFTP.cpp:61-92 | the address is made of the second and the fourth word |
| VfsCommands.TftpTooShort | modules/shellemu-winnt/VFSCommandTFTP.cpp:61-92 | with fewer words nothing is downloaded |
| VfsCommands.BatchLast | modules/shellemu-winnt/VFS.cpp:393-419 | the lines behind a batch file's name are run before those of the batch file, which is left empty |
| VfsCommands.SameNameIff | modules/shellemu-winnt/VFSDir.cpp:97-127 | names are the same if and only if they are so in capital letters |
| VfsScript.ScriptRuns | modules/shellemu-winnt/VFS.cpp:153-391 | a script of echo lines writes its lines to the file, one after the other |
| VfsScript.EchoScript | modules/shellemu-winnt/VFS.cpp:153-391 | after the script the file has its old content and all lines, both streams are empty, and every other node is as before |
| VfsScript.ExecuteStocked | modules/shellemu-winnt/VFS.cpp:77-119 | whatever is executed, the installed programs stay in place |
| Vfs.VFSFile.AddData | modules/shellemu-winnt/VFSFile.cpp:45-81 | data is put behind the content |
| Vfs.VFSFile.TruncateFile | modules/shellemu-winnt/VFSFile.cpp:45-81 | the content is emptied |
| Vfs.VFSDir.CreateFile | modules/shellemu-winnt/VFSDir.cpp:97-127 | a new file becomes the last node |
| Vfs.VFSDir.GetFile | modules/shellemu-winnt/VFSDir.cpp:97-127 | the first file with that name, or none |
| Vfs.SplitLine | modules/shellemu-winnt/VFS.cpp:153-222 | the loop finds the length of the first line |
| Vfs.UnescapeLine | modules/shellemu-winnt/VFS.cpp:224-253 | the loop removes the carets that escape |
| Vfs.FindCommandWord | modules/shellemu-winnt/VFS.cpp:261-305 | the loop finds the command word |
| Vfs.SplitParams | modules/shellemu-winnt/VFS.cpp:317-352 | the loop finds the parameters |
| Vfs.ReadCommand | modules/shellemu-winnt/VFS.cpp:153-352 | length, command and parameters of the first line |
| Vfs.VFS.Init | modules/shellemu-winnt/VFS.cpp:77-119 | a prompt with empty streams, whose directory holds the programs and no file |
| Vfs.VFS.AddStdOut | modules/shellemu-winnt/VFS.cpp:442-445 | text is put behind the output |
| Vfs.VFS.AddStdIn | modules/shellemu-winnt/VFS.cpp:458-461 | text is put in front of the input |
| Vfs.VFS.RunEcho | modules/shellemu-winnt/VFSCommandECHO.cpp:58-84 | the output becomes the parameters, each with a space, or nothing for a lone on or off |
| Vfs.VFS.RunRedir | modules/shellemu-winnt/VFSCommandREDIR.cpp:59-98 | the output and a newline become the content of the named file, created if need be |
| Vfs.VFS.RunRRedir | modules/shellemu-winnt/VFSCommandRREDIR.cpp:59-95 | the output and a newline go behind the content of the named file, created if need be |
| Vfs.VFS.RunCmd | modules/shellemu-winnt/VFSCommandCMD.cpp:92-119 | what follows the switch goes back to the front of the input, spaced unless the last word is the switch once more |
| Vfs.VFS.RunTftp | modules/shellemu-winnt/VFSCommandTFTP.cpp:61-92 | the download of the named file is started |
| Vfs.VFS.RunBatchFile | modules/shellemu-winnt/VFS.cpp:393-419 | the content of the batch file goes behind the input, and leaves the file empty |
| Vfs.VFS.ExecuteLine | modules/shellemu-winnt/VFS.cpp:133-427 | one round on the objects is one round on values |
| Vfs.VFS.Execute | modules/shellemu-winnt/VFS.cpp:126-429 | the whole loop on the objects is the terminating loop on values |
| Tftp.TFTPDialogue.SetRequest | modules/download-tftp/TFTPDialogue.cpp:93-101 | the request packet for the file in octet mode becomes the last packet sent |
| Tftp.TFTPDialogue.IncomingData | modules/download-tftp/TFTPDialogue.cpp:108-178 | what a datagram does to blocks, buffer, last packet, socket and submissions |
| Tftp.TFTPDialogue.HandleTimeout | modules/download-tftp/TFTPDialogue.cpp:185-198 | the last packet is sent again until the retries are used up |
| TftpProtocol.AnyServerBounded | modules/download-tftp/TFTPDialogue.cpp:134-173 | with any server at most 8257 blocks are accepted and at most one file is submitted, so that block numbers do not wrap |
| TftpProtocol.TimeoutRepeats | modules/download-tftp/TFTPDialogue.cpp:185-198 | a timeout repeats the request when no block came, else the acknowledgement of the newest block |
| TftpProtocol.RetriesCounted | modules/download-tftp/TFTPDialogue.cpp:134-198 | with any server, the retries of an open dialogue are the timeouts since the last DATA datagram |
| TftpProtocol.GivesUpIff | modules/download-tftp/TFTPDialogue.cpp:185-198 | after any inputs, a timeout ends an open dialogue if and only if it is the maxRetries-th in a row, or maxRetries is 0 |
| TftpProtocol.SilentServer | modules/download-tftp/TFTPDialogue.cpp:185-198 | a silent server is still waited for after n timeouts if and only if n is 0 or less than maxRetries |
| TftpProtocol.ErrorEnds | modules/download-tftp/TFTPDialogue.cpp:129-132 | an ERROR datagram ends a dialogue; nothing that follows is taken or submitted |
| TftpProtocol.RequestReads | modules/download-tftp/TFTPDialogue.cpp:93-101 | a server reads opcode, file name and mode from the request |
| TftpProtocol.AckReads | modules/download-tftp/TFTPDialogue.cpp:143-149 | and opcode and block number from an acknowledgement |
| TftpProtocol.NextBlock | modules/download-tftp/TFTPDialogue.cpp:134-173 | the first blocks of a file and the next block are the first blocks, one more |
| TftpProtocol.AckedBlock | modules/download-tftp/TFTPDialogue.cpp:143-149 | an acknowledgement that advances a transfer was sent by the client for that block |
| TftpProtocol.StepInv | modules/download-tftp/TFTPDialogue.cpp:108-198 | every step of client, network and server keeps the protocol's invariant |
| TftpProtocol.TransferSafe | modules/download-tftp/TFTPDialogue.cpp:134-173 | in every run over a network that loses, repeats and reorders, the buffer is the first blocks of the file, and what is submitted is the whole file, once |
| TftpProtocol.LockstepSubmits | modules/download-tftp/TFTPDialogue.cpp:134-173 | from any block on, a run without loss submits the file |
| TftpProtocol.SubmittedIff | modules/download-tftp/TFTPDialogue.cpp:151-169 | some run submits a file if and only if it is within the limits and its last block has fewer than 508 bytes |
| TftpProtocol.WithheldIff | modules/download-tftp/TFTPDialogue.cpp:134-173 | some run takes and acknowledges a file to its last byte without submitting it if and only if the file is within the limits and ends in 508 to 511 bytes |
| Gotek.GotekSubmitHandler.Submit | modules/submit-gotek/submit-gotek.cpp:266-343 | the sample joins the queue, and is asked for if the connection is in control |
| Gotek.GotekSubmitHandler.PopGote | modules/submit-gotek/submit-gotek.cpp:404-417 | the front leaves the queue |
| Gotek.GotekSubmitHandler.SendGote | modules/submit-gotek/submit-gotek.cpp:419-437 | the front is uploaded and leaves the queue, unless it cannot be loaded |
| Gotek.GotekSubmitHandler.ChildConnectionEstablished | modules/submit-gotek/submit-gotek.cpp:440-455 | the whole queue is asked for again |
| Gotek.GotekSubmitHandler.ChildConnectionLost | modules/submit-gotek/submit-gotek.cpp:457-485 | the handler waits, without a socket |
| Gotek.GotekSubmitHandler.DnsResolved | modules/submit-gotek/submit-gotek.cpp:370-389 | the handler is connected, by a fresh dialogue |
| Gotek.GotekSubmitHandler.HandleEvent | modules/submit-gotek/submit-gotek.cpp:487-503 | the timer reconnects a waiting handler |
| Gotek.GotekCTRLDialogue.IncomingData | modules/submit-gotek/gotekCTRLDialogue.cpp:100-210 | greeting, authentication, or one answer after the other |
| Gotek.GotekCTRLDialogue.HandleAnswers | modules/submit-gotek/gotekCTRLDialogue.cpp:174-204 | the loop uses every answer byte for the front of the queue, and replies to pings |
| GotekProtocol.AnswersUsed | modules/submit-gotek/gotekCTRLDialogue.cpp:174-204 | answers that come in the queue's order take exactly their samples off the queue |
| GotekProtocol.UsesMatch | modules/submit-gotek/gotekCTRLDialogue.cpp:174-204 | and each of them is used for the sample it was given for |
| GotekProtocol.StepInv | modules/submit-gotek/submit-gotek.cpp:266-503 | every step of handler, dialogue, connection and server keeps queue and connection aligned |
| GotekProtocol.SubmissionSafe | modules/submit-gotek/submit-gotek.cpp:266-503 | over every run with losses and reconnections in which the files asked for can be loaded, each answer is used for its own sample, no sample is lost or taken twice, and the queue is what is under way |
| GotekProtocol.AlignedAlways | modules/submit-gotek/submit-gotek.cpp:404-437 | in a run the queue is always what is under way if and only if no new-file answer is for a file that cannot be loaded |
| GotekProtocol.UnloadableBreaks | modules/submit-gotek/submit-gotek.cpp:419-437 | one such answer leaves more in the queue than is under way |
| GotekProtocol.UnloadableExample | modules/submit-gotek/gotekCTRLDialogue.cpp:174-204 | a run in which the second sample's answer is used for the first one |
| GotekProtocol.NeverEmptyFront | modules/submit-gotek/gotekCTRLDialogue.cpp:174-204 | in no run, whatever can be loaded, an answer finds the queue empty |
| GotekProtocol.OneDialogueAlways | modules/submit-gotek/submit-gotek.cpp:370-503 | in every state of every run there is one control dialogue exactly when the handler is connected, so that its end finds the handler neither resolving nor waiting |
| GotekProtocol.LoginAnswers | modules/submit-gotek/gotekCTRLDialogue.cpp:106-143 | a greeting of twelve bytes, however cut, is answered by a login with the key in its last eight |
| GotekProtocol.GreetingTooLong | modules/submit-gotek/gotekCTRLDialogue.cpp:145-149 | one that runs past the twelfth byte ends the dialogue without a word |
| GotekProtocol.PongsCounted | modules/submit-gotek/gotekCTRLDialogue.cpp:189-195 | each ping is answered, and nothing else is |
| GotekProtocol.AnswerBytes | modules/submit-gotek/gotekCTRLDialogue.cpp:174-204 | which byte uploads the front of the queue, which only removes it, and that no other one touches it |
| LogAttack.LogAttackModule.GetActiveCtxCount | modules/log-attack/log-attack.cpp:109-132 | the count is positive exactly when a sub-context is active |
| LogAttack.LogAttackModule.AttemptAttackCtxClosure | modules/log-attack/log-attack.cpp:690-720 | an attack without active sub-contexts is logged and deleted with them |
| LogAttack.LogAttackModule.CreateSub | modules/log-attack/log-attack.cpp:722-739 | a new sub-context is active and joins the attack |
| LogAttack.LogAttackModule.CreateKeyed | modules/log-attack/log-attack.cpp:722-739 | and is found under its socket, query or download |
| LogAttack.LogAttackModule.CloseKeyed | modules/log-attack/log-attack.cpp:759-799 | the sub-context ends, and with the last active one its attack |
| LogAttack.LogAttackModule.HandleAccept | modules/log-attack/log-attack.cpp:963-1361 | a connection joins its listener's attack, or begins one if that has none |
| LogAttack.LogAttackModule.HandleEvent | modules/log-attack/log-attack.cpp:963-1361 | the new state after each event |
| LogAttackRuns.StepInv | modules/log-attack/log-attack.cpp:963-1361 | every bracketed event keeps the invariant, and none of the code's assertions fails |
| LogAttackRuns.RetireStep | modules/log-attack/log-attack.cpp:690-799 | so does the end of a socket, query or download, whether or not it ends an attack |
| LogAttackRuns.AcceptStep | modules/log-attack/log-attack.cpp:963-1361 | so does an accepted connection |
| LogAttackKept.ListIsAll | modules/log-attack/log-attack.cpp:1502-1520 | the list of a live attack holds exactly what was created for that attack |
| LogAttackKept.StepArchive | modules/log-attack/log-attack.cpp:963-1361 | every event keeps the log's entries equal to what was created for their attacks |
| LogAttackKept.AttacksKept | modules/log-attack/log-attack.cpp:690-1361 | over every bracketed run: entries of the map are active sub-contexts of live attacks and all of those but shellcodes have one, the count is that of the live attacks, each attack is logged once, with exactly the sub-contexts created for it, all inactive and freed, and each sub-context is freed once |
| LogAttackKept.NothingLeft | modules/log-attack/log-attack.cpp:690-1361 | when no socket, query or download is left, every attack was logged and every sub-context freed |
| LogAttackOrigins.OriginsKept | modules/log-attack/log-attack.cpp:690-1361 | over every bracketed run, every living socket, query and download, and every sub-context ever created, belongs to the attack that the events alone tell: that of its listener, that in whose bracket it was made, or a new one |
| LogAttackOrigins.AcceptedFor | modules/log-attack/log-attack.cpp:1125-1152 | a connection belongs to the attack in whose bracket its listener was bound, and to one that owned nothing before if and only if the listener was bound outside of every bracket |
| Transcript.SocketCtx.AddMessageRX | modules/log-attack/log-attack.cpp:521-537 | a received message that is not empty is recorded |
| Transcript.SocketCtx.AddMessageTX | modules/log-attack/log-attack.cpp:539-546 | every sent message is recorded |
| Transcript.SocketCtx.LogTraffic | modules/log-attack/log-attack.cpp:611-647 | the bytes that are written, or the failure of an assertion |
| Transcript.NotedAll | modules/log-attack/log-attack.cpp:521-546 | what is recorded of a sequence of messages |
| Transcript.ShortInfo | modules/log-attack/log-attack.hpp:187-188 | sizes below 2^28 leave the direction bits alone |
| Transcript.TranscriptReads | modules/log-attack/log-attack.cpp:521-647 | a transcript reads back as the exact interleaving of messages; it is written if and only if the last message sent was not empty |
| Transcript.WrittenAll | modules/log-attack/log-attack.cpp:611-647 | whatever was recorded, a transcript that is written holds all bytes of both directions and a word for each chunk |
| Transcript.LengthClears | modules/log-attack/log-attack.cpp:611-647 | of any word the length is what is left without the direction bits |
| Transcript.DeliveredReads | nepenthes-core/src/TCPSocket.cpp:553-561 | all traffic that sockets report gives a transcript, which reads back as the exact interleaving |
| Transcript.EmptySentExample | nepenthes-core/src/Buffer.cpp:199-207 | for the class alone, an empty last message makes the assertion fail |
| LogSurfnet.LogSurfNET.HandleTCPAccept | modules/log-surfnet/log-surfnet.cpp:423-465 | a listed connection is tracked without an id, and its attack is sent to the database |
| LogSurfnet.LogSurfNET.IsListed | modules/log-surfnet/log-surfnet.cpp:327-347 | true if and only if every port is logged or this one is among those configured |
| LogSurfnet.LogSurfNET.HandleTCPClose | modules/log-surfnet/log-surfnet.cpp:467-483 | an entry that keeps details for its id is marked as closed, any other one goes |
| LogSurfnet.LogSurfNET.HandleDialogueAssignAndDone | modules/log-surfnet/log-surfnet.cpp:485-531 | the detail and the severity are sent, or kept until the id is known |
| LogSurfnet.LogSurfNET.HandleShellcodeDone | modules/log-surfnet/log-surfnet.cpp:534-566 | the detail is sent, or kept until the id is known |
| LogSurfnet.LogSurfNET.SqlSuccess | modules/log-surfnet/log-surfnet.cpp:618-679 | the id is noted and everything kept is sent in order |
| LogSurfnet.LogSurfNET.SqlFailure | modules/log-surfnet/log-surfnet.cpp:681-690 | what a failed query leaves |
| LogSurfnetRuns.SuccessInv | modules/log-surfnet/log-surfnet.cpp:618-679 | the arrival of an id brings the queries of its attack up to date and leaves all others alone |
| LogSurfnetRuns.StepInv | modules/log-surfnet/log-surfnet.cpp:423-679 | so does every event that is not misfiled |
| LogSurfnetRuns.FailureInv | modules/log-surfnet/log-surfnet.cpp:681-690 | a failed query takes back its attack, of which no query spoke, and leaves all others alone |
| LogSurfnetRuns.MisfiledBreaks | modules/log-surfnet/log-surfnet.cpp:485-566 | a misfiled event gives some attack a detail that is not its own |
| LogSurfnetRuns.ArrivalDoesNotMatter | modules/log-surfnet/log-surfnet.cpp:423-679 | whenever ids arrive, details and severity of every attack are those of a logger that knows ids at once, if and only if no event is misfiled |
| LogSurfnetStages.BehindMeans | modules/log-surfnet/log-surfnet.cpp:467-483 | the stage at which a key keeps a foreign entry is that of an attack closed without details before its id came, with no close and no listed accept since the id |
| LogSurfnetStages.ExactUnlessLeftBehind | modules/log-surfnet/log-surfnet.cpp:423-690 | details and severity are exact at all times if and only if no socket reports at that stage of its key, told from the events alone |
| LogSurfnetRuns.AnyPortExact | modules/log-surfnet/log-surfnet.cpp:327-347 | a logger that takes every port never misfiles |
| LogSurfnetRuns.AttacksSent | modules/log-surfnet/log-surfnet.cpp:423-465 | over every run exactly the listed connections are handed to the database as attacks, in their order |
| LogSurfnetRuns.MisfiledExample | modules/log-surfnet/log-surfnet.cpp:467-483 | a run in which an event is misfiled |
| LogSurfnetRuns.ReusedKeyExample | modules/log-surfnet/log-surfnet.cpp:423-465 | a key that is used again while an id is awaited for it would mix two attacks |
| PeirosNet.ClearNext | modules/module-peiros/module-peiros.cpp:219-220 | clearing the next host bit rounds the base down to the next power of two |
| PeirosNet.SetNext | modules/module-peiros/module-peiros.cpp:160-166 | setting the next network bit extends the mask by one |
| PeirosNet.AndMask | modules/module-peiros/module-peiros.cpp:160-166 | the bitwise and with such a mask clears exactly the host bits |
| PeirosNet.RangeAddress | modules/module-peiros/module-peiros.cpp:207-223 | for prefix lengths 16 to 28 base and offset do not overflow, and mask back to the base |
| PeirosNet.RangeReads | modules/module-peiros/module-peiros.cpp:180-205 | base/length is read back, the length modulo 2^32 |
| PeirosNet.RangeRefused | modules/module-peiros/module-peiros.cpp:180-205 | what stands behind the slash is refused if and only if it holds something that is not a digit |
| PeirosNet.RangeWithoutSlash | modules/module-peiros/module-peiros.cpp:180-205 | without a slash the length is 0 |
| PeirosNet.BitmapIsSet | modules/module-peiros/module-peiros.cpp:232-261 | marking and unmarking a bit adds and removes exactly that offset |
| PeirosNet.FirstFree | modules/module-peiros/module-peiros.cpp:232-250 | the least offset that is free and whose low byte is neither 0 nor 255 |
| PeirosNet.LastOctet | modules/module-peiros/module-peiros.cpp:232-250 | which addresses end in 0 or 255: none, and exactly the last one of a range smaller than 256 that ends there |
| PeirosNet.Peiros.InitializeNetrange | modules/module-peiros/module-peiros.cpp:180-230 | accepted exactly with digits behind the slash, a length of 16 to 28 and a valid base; then the range is aligned and nothing is used |
| PeirosNet.Peiros.Netmask | modules/module-peiros/module-peiros.cpp:160-166 | the loop's mask takes every address of the range back to the base |
| PeirosNet.Peiros.AllocateAddress | modules/module-peiros/module-peiros.cpp:232-250 | exactly the first free offset becomes used, and its address is the result |
| PeirosNet.Peiros.FreeAddress | modules/module-peiros/module-peiros.cpp:252-261 | exactly the address's own offset is freed |
| PeirosDialogues.PeirosDialogue.constructor | modules/module-peiros/module-peiros.cpp:317-334 | the peer's address is allocated |
| PeirosDialogues.PeirosDialogue.Destroy | modules/module-peiros/module-peiros.cpp:336-341 | the peer's address is freed |
| PeirosDialogues.PeirosDialogue.Hello | modules/module-peiros/module-peiros.cpp:364-394 | an address is allocated, and held if the interface takes it or hello was said before |
| PeirosDialogues.PeirosDialogue.Bye | modules/module-peiros/module-peiros.cpp:420-431 | the client's address is freed if hello was said |
| PeirosDialogues.StepInv | modules/module-peiros/module-peiros.cpp:317-431 | every event keeps held addresses marked and apart |
| PeirosDialogues.HeldApart | modules/module-peiros/module-peiros.cpp:317-431 | after any run of any number of dialogues, held addresses are marked and pairwise distinct |
| PeirosDialogues.OthersKeep | modules/module-peiros/module-peiros.cpp:252-261 | no dialogue frees an address that another one holds |
| PeirosDialogues.LostIff | modules/module-peiros/module-peiros.cpp:336-394 | exactly which addresses are lost: replaced by a second HELO, not taken by the interface, or never returned by BYE |
| PeirosDialogues.AllFreeAgain | modules/module-peiros/module-peiros.cpp:317-431 | a run that ends without dialogues leaves the whole range free if and only if none of its events lost an address |
| PeirosDialogues.LosesExample | modules/module-peiros/module-peiros.cpp:364-431 | a dialogue that says HELO twice leaves an address marked that nobody holds |
| Unicode.UnicodeLength | modules/shellcode-signatures/sch_engine_unicode.cpp:168-198 | the loop measures the stretch of pairs that begin with a zero |
| Unicode.UnicodeTryDecode | modules/shellcode-signatures/sch_engine_unicode.cpp:200-246 | on every input it ends, writes inside of a buffer of the input's length, and leaves the rest 0x90 |
| Unicode.DecodePairs | modules/shellcode-signatures/sch_engine_unicode.cpp:215-219 | the inner loop writes every second byte |
| Unicode.DecodesMeaning | modules/shellcode-signatures/sch_engine_unicode.cpp:200-246 | widened stretches of six or more bytes are narrowed, shorter ones and plain stretches are kept |
| Unicode.HandleShellcode | modules/shellcode-signatures/sch_engine_unicode.cpp:78-160 | the message is replaced by its decoded form if the count of zeros exceeds 2000 |
| Unicode.DecodedWhen | modules/shellcode-signatures/sch_engine_unicode.cpp:95-141 | which is so if and only if more than 2000 zeros in a row stand before another byte, in the order of places 0, 2, 4, ... and then 1, 3, 5, ... |
| Unicode.WidenedHandled | modules/shellcode-signatures/sch_engine_unicode.cpp:78-246 | a widened message without zeros of its own is decoded if and only if it is of more than 2000 bytes, and then to exactly what was widened |
| Unicode.EveryOtherAt | modules/shellcode-signatures/sch_engine_unicode.cpp:95-141 | the places that the counting loops look at |
| Ftp.CTRLDialogue.HandleLine | modules/download-ftp/CTRLDialogue.cpp:136-226 | state and commands after a line, with the two cases that fall through |
| Ftp.CTRLDialogue.IncomingData | modules/download-ftp/CTRLDialogue.cpp:113-241 | state, commands and unfinished line after a message |
| Ftp.CTRLDialogue.HandleTimeout | modules/download-ftp/CTRLDialogue.cpp:276-289 | QUIT during a transfer, else the end |
| Ftp.CTRLDialogue.FindPort | modules/download-ftp/CTRLDialogue.cpp:438-455 | the loop over the ports, with those that it skips |
| Ftp.FirstFreePort | modules/download-ftp/CTRLDialogue.cpp:438-455 | the search ends with the first port that is not skipped and that nobody uses |
| Ftp.UnusedPortFound | modules/download-ftp/CTRLDialogue.cpp:438-455 | it ends with such a port if and only if there is one |
| Ftp.LastPortTried | modules/download-ftp/CTRLDialogue.cpp:438-460 | otherwise it ends with what its last attempt gave, a port in use or none |
| Ftp.PortInRange | modules/download-ftp/CTRLDialogue.cpp:438-455 | the port lies in the range, and its low byte has two hexadecimal digits |
| Ftp.CTRLDialogue.SendPort | modules/download-ftp/CTRLDialogue.cpp:402-492 | PORT is sent for the port that the search found, if any |
| FtpRuns.ChunksDoNotMatter | modules/download-ftp/CTRLDialogue.cpp:113-241 | however the server's bytes are cut, state, commands and unfinished line are those of one message with all of them |
| FtpRuns.NeverBack | modules/download-ftp/CTRLDialogue.cpp:113-289 | over every run, timeouts and the loss of the download included, the state never goes back |
| FtpRuns.CommandsInOrder | modules/download-ftp/CTRLDialogue.cpp:113-289 | the commands are a subsequence of USER, PASS, TYPE, CWD, PORT, RETR, QUIT without repetition |
| FtpRuns.LineLater | modules/download-ftp/CTRLDialogue.cpp:136-226 | no line calls for more than one command |
| FtpHistory.RetrWithoutPort | modules/download-ftp/CTRLDialogue.cpp:113-492 | in every run RETR is sent without PORT if and only if CWD was answered by 200, or the line that calls for PORT came when no port could be bound |
| FtpHistory.PassWithoutUser | modules/download-ftp/CTRLDialogue.cpp:136-154 | in every run PASS is sent without USER if and only if a 331 came instead of the greeting |
| FtpHistory.RetrAfterCwdExample | modules/download-ftp/CTRLDialogue.cpp:198-213 | a 200 for CWD calls for RETR without PORT |
| FtpHistory.RetrUnboundExample | modules/download-ftp/CTRLDialogue.cpp:182-213 | when no port was announced, the next 200 calls for RETR all the same |
| FtpHistory.PassWithoutUserExample | modules/download-ftp/CTRLDialogue.cpp:136-154 | a 331 as the first line calls for PASS without USER |
| FtpRuns.PortReads | modules/download-ftp/CTRLDialogue.cpp:466-482 | a server reads address and port from the numbers of the PORT command |
| FtpCommands.CommandRead | modules/download-ftp/CTRLDialogue.cpp:329-563 | a server reads every command, with its argument, back from the line that is sent |
| FtpCommands.TimeoutEnds | modules/download-ftp/CTRLDialogue.cpp:276-289 | over every run the first timeout of a transfer is answered by QUIT, and every other one ends the dialogue |
| FtpCommands.GivenUpEnds | modules/download-ftp/CTRLDialogue.cpp:113-135 | a message ends a dialogue whose download was given up, unless the transfer has begun |
| FtpRuns.Transfers | modules/download-ftp/CTRLDialogue.cpp:113-241 | a server that agrees to everything is sent all commands that the download calls for, in any chunking of its replies |
| FtpRuns.OtherFlagsStuck | modules/download-ftp/CTRLDialogue.cpp:156-180 | with flags set, the dialogue gets past the password if and only if the binary flag is among them |
| Xor.StoredXor | modules/shellcode-signatures/sch_namespace_xor.cpp:211-217 | the xor of words is that of their bytes |
| Xor.XorBytes | modules/shellcode-signatures/sch_namespace_xor.cpp:203-209 | the byte loop combines the first codeSize bytes with the key |
| Xor.XorWords | modules/shellcode-signatures/sch_namespace_xor.cpp:211-217 | the word loop combines the first 4 min(codeSize, (postSize - 1) div 4) bytes with the repeated key |
| Xor.WordXored | modules/shellcode-signatures/sch_namespace_xor.cpp:211-217 | one word more is four bytes more |
| Xor.HandleMatch | modules/shellcode-signatures/sch_namespace_xor.cpp:197-232 | the new message has the old length and prefix, 0x90 for the decoder, and the decoded rest |
| Xor.XoredTwice | modules/shellcode-signatures/sch_namespace_xor.cpp:201-218 | the decoding is its own inverse |
| Xor.SizeCaptured | modules/shellcode-signatures/sch_namespace_xor.cpp:128-163 | the captured size, byte by byte, and the complement that an inverted one stands for |
| Xor.ByteKeyDecodes | modules/shellcode-signatures/sch_namespace_xor.cpp:203-209 | with a byte key, what was encoded over the captured size is restored |
| Xor.LastWordShows | modules/shellcode-signatures/sch_namespace_xor.cpp:211-217 | decoding one word less than was encoded restores the message if and only if the key is zero |
| Xor.WordKeyDecodes | modules/shellcode-signatures/sch_namespace_xor.cpp:197-232 | with a word key, what was encoded over the captured size is restored if and only if the key is zero or the message is not one of whole words that this size covers to its end |
| Xor.LastWordExample | modules/shellcode-signatures/sch_namespace_xor.cpp:215 | a message of one word stays encoded |

## Left out

- Sockets, DNS, polling, packet capture, tunnels, PCRE, SQL and HTTP libraries, configuration and log text: abstract events, channels and parameters take their place. What they answer is a parameter (a bound port, a resolved base address, a loaded file, a chosen reply).
- `Buffer` is a sequence of bytes of any length; its 32-bit size and its growth by doubling are not modelled.
- Peiros: `atoi` of a length beyond 32 bits is undefined in C, and taken modulo 2^32 here. The commands other than HELO and BYE, and the heuristics of ANALYZE, do not touch addresses and are left out; printed packets are requests like others.
- PeirosStream.StreamRoundTrip: chunks of streams that are not printed by `renderRequest` are not compared, because there the outcome does depend on the chunks once one of them is malformed.
- PeirosNet.Peiros.AllocateAddress: a range without a free usable address is a precondition, because the code then writes outside of its map.
- PeirosDialogues.PeirosDialogue.constructor: needs a free usable address for the same reason.
- PeirosDialogues.PeirosDialogue.Hello: needs a free usable address for the same reason.
- PeirosNet.Peiros.FreeAddress: the address just behind the range is a precondition, because the code then writes outside of its map; no dialogue ever holds it. The interface's own list of addresses is not modelled.
- Shell emulator: `START` puts its parameters, but for titles and options, back to the front of the input (`Vfs.VFS.RunStart`, after lines 139 to 172 of VFSCommandSTART.cpp); `FTP` and `RCP` do nothing here, and `TFTP` only notes the address it would download from; the listing that `dir` shows is left out, as the code leaves it. Only the current directory's nodes matter to the commands.
- Vfs.VFS.Execute: an empty input gives the caller a null pointer in C++, which is a flag here.
- Tftp.TFTPDialogue.IncomingData: datagrams shorter than four bytes are a precondition, because the code then reads beyond what was received.
- TFTP: RFC 1350 servers follow its sections 2 and 6, with sixteen-bit block numbers; servers that begin a transfer again answer each request separately.
- G.O.T.E.K.: operation without spooling is left out, since nothing is sent again there; so are failures to write a spool file, the upload's own connection and the cryptographic reply. The server sends bytes that are no answers only while it serves.
- GotekProtocol.SubmissionSafe: assumes that spooled files asked for can be loaded; GotekProtocol.AlignedAlways says exactly when that matters.
- Gotek.GotekCTRLDialogue.IncomingData: more answers than samples in the queue are a precondition, because the code then takes the front of an empty list; GotekProtocol.NeverEmptyFront shows that no run gets there.
- Gotek.GotekCTRLDialogue.HandleAnswers: the same.
- LogAttack: names, ports, times, hashes, files and the details of shellcodes and downloads are left out. Addresses of contexts are numbers, deletion is explicit, and the three maps by socket, query and download are one map with tagged keys.
- LogAttackKept.AttacksKept: runs are properly bracketed: a socket or query is not closed while it is handled, and a socket that is closed without a context was a bind socket, as the code asserts.
- Transcript: messages of 2^28 bytes and more, the counters of bytes and chunks, and the file name are left out of the theorems; the class is modelled for all 32-bit sizes.
- LogSurfnetRuns.ArrivalDoesNotMatter: keys are addresses of sockets, and runs do not use one again while an id is awaited for it; LogSurfnetRuns.ReusedKeyExample shows what would become of it.
- LogSurfnetStages.ExactUnlessLeftBehind: the same.
- SURFnet: offers and downloads go straight to the database without a tracked socket and are left out; names contain no zero byte; ids are positive and distinct.
- Ftp.CTRLDialogue.IncomingData: the buffer after a drop is not stated, since a dropped dialogue is deleted.
- Ftp.CTRLDialogue.SendPort: the random first port, the address and what each attempt to bind gives are parameters, and so is the port that it announces; Ftp.CTRLDialogue.FindPort is the search.
- Xor.HandleMatch: the captured groups fit the message, being disjoint parts of it.
- Xor: captured groups are given sequences shorter than 2^31 bytes, so that the loop's 32-bit index does not wrap.
- The bencoding decoder, whose implementation is not part of this model, and with it the round trip of spool files.
- Simple dialogues (csend, creceive, link, rcp, http) and the other shellcode decoders: they would only add easy members.
