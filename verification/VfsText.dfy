/** How the emulated command prompt reads its input: one line, its escapes, its command word and its parameters. */
module VfsText {
  import opened Chars

  /** The length of the first line of s, with the splitter's three flags at the start of s. */
  function LineLength(s: string, hasredir: bool, escaped: bool, haschar: bool): (n: nat)
    ensures n <= |s|
  {
    if s == "" then 0
    else if s[0] == '>' then
      if escaped then 1 + LineLength(s[1..], hasredir, false, haschar)
      else if haschar then 0
      else 1 + LineLength(s[1..], true, false, haschar)
    else if s[0] == '\n' then 1
    else if (s[0] == ';' && hasredir) || s[0] == '&' then
      if escaped then 1 + LineLength(s[1..], hasredir, false, haschar) else 1
    else if s[0] == '^' then 1 + LineLength(s[1..], hasredir, !escaped, haschar)
    else 1 + LineLength(s[1..], hasredir, false, true)
  }

  predicate IsSeparator(c: char) {
    c == ';' || c == '&'
  }

  /** A separator at the very end of a line is overwritten with NUL, whether it was escaped or not. */
  function DropSeparator(line: string): string
    requires line != ""
  {
    if IsSeparator(line[|line|-1]) then line[|line|-1 := '\0'] else line
  }

  function Unescape(s: string, escaped: bool): (r: string)
    ensures |r| <= |s|
  {
    if s == "" then ""
    else if escaped then [s[0]] + Unescape(s[1..], false)
    else if s[0] == '^' then Unescape(s[1..], true)
    else [s[0]] + Unescape(s[1..], false)
  }

  lemma LineNotEmpty(s: string)
    requires s != ""
    ensures LineLength(s, false, false, false) >= 1
  {
  }

  /** The line taken from the front of the input, unescaped. */
  function FirstLine(stdin: string): (line: string)
    requires stdin != ""
    ensures |line| <= LineLength(stdin, false, false, false)
  {
    LineNotEmpty(stdin);
    Unescape(DropSeparator(stdin[..LineLength(stdin, false, false, false)]), false)
  }

  /** Where the loop that looks for the command word stops. */
  function CommandStop(s: string, haschar: bool, hasredir: bool): (n: nat)
    ensures n <= |s|
  {
    if s == "" || (s[0] == ' ' && haschar) || (hasredir && s[0] != '>') then 0
    else 1 + CommandStop(s[1..], haschar || IsGraph(s[0]), hasredir || s[0] == '>')
  }

  /** The characters before the first visible one. */
  function Leading(s: string): (n: nat)
    ensures n <= |s|
  {
    if s == "" || IsGraph(s[0]) then 0 else 1 + Leading(s[1..])
  }

  function ClearBreaks(s: string): (r: string)
    ensures |r| == |s|
  {
    if s == "" then ""
    else [if s[0] == '\r' || s[0] == '\n' then '\0' else s[0]] + ClearBreaks(s[1..])
  }

  /** What a C string function sees of s. */
  function CStr(s: string): (r: string)
    ensures |r| <= |s|
  {
    if s == "" || s[0] == '\0' then "" else [s[0]] + CStr(s[1..])
  }

  /** The words of s, the first of them begun with word. The NUL behind the end closes the last word. */
  function Words(s: string, word: string): seq<string> {
    var c := Head(s);
    if (c == ' ' || c == '\0') && word != "" then [word] + (if s == "" then [] else Words(s[1..], ""))
    else if s == "" then []
    else if word == "" && !IsGraph(c) then Words(s[1..], "")
    else Words(s[1..], word + [c])
  }

  function Command(line: string): (r: string)
    ensures |r| <= CommandStop(line, false, false)
  {
    var stop := CommandStop(line, false, false);
    var start := Leading(line[..stop]);
    CStr(ClearBreaks(line[if start == stop then 0 else start..stop]))
  }

  function Params(line: string): seq<string> {
    Words(ClearBreaks(line[CommandStop(line, false, false)..]), "")
  }

  // ---------------------------------------------------------------- sizes

  /** The bytes of some words, each with one separator. */
  function WordBytes(words: seq<string>): nat {
    if words == [] then 0 else |words[0]| + 1 + WordBytes(words[1..])
  }

  lemma {:induction false} WordsFit(s: string, word: string)
    ensures WordBytes(Words(s, word)) <= |s| + |word| + 1
    ensures forall i :: 0 <= i < |Words(s, word)| ==> Words(s, word)[i] != ""
    decreases |s|
  {
    if s != "" {
      WordsFit(s[1..], "");
      WordsFit(s[1..], word + [s[0]]);
    }
  }

  lemma LineFits(line: string)
    ensures |Command(line)| + WordBytes(Params(line)) <= |line| + 1
    ensures forall i :: 0 <= i < |Params(line)| ==> Params(line)[i] != ""
  {
    WordsFit(ClearBreaks(line[CommandStop(line, false, false)..]), "");
  }

  // ---------------------------------------------------------------- the two readings of the caret agree

  /** Which characters of the first line the splitter takes as escaped. */
  function SplitterEscapes(s: string, hasredir: bool, escaped: bool, haschar: bool): (r: seq<bool>)
    ensures |r| == LineLength(s, hasredir, escaped, haschar)
  {
    if s == "" then []
    else if s[0] == '>' then
      if escaped then [escaped] + SplitterEscapes(s[1..], hasredir, false, haschar)
      else if haschar then []
      else [escaped] + SplitterEscapes(s[1..], true, false, haschar)
    else if s[0] == '\n' then [escaped]
    else if (s[0] == ';' && hasredir) || s[0] == '&' then
      if escaped then [escaped] + SplitterEscapes(s[1..], hasredir, false, haschar) else [escaped]
    else if s[0] == '^' then [escaped] + SplitterEscapes(s[1..], hasredir, !escaped, haschar)
    else [escaped] + SplitterEscapes(s[1..], hasredir, false, true)
  }

  /** Which characters of a line the unescape pass takes as escaped. */
  function UnescapeEscapes(line: string, escaped: bool): seq<bool> {
    if line == "" then []
    else [escaped] + UnescapeEscapes(line[1..], !escaped && line[0] == '^')
  }

  /** Up to its last character, a line decides the flags. */
  lemma {:induction false} LastCharFree(line: string, c: char, escaped: bool)
    requires line != ""
    ensures UnescapeEscapes(line[|line|-1 := c], escaped) == UnescapeEscapes(line, escaped)
  {
    var other := line[|line|-1 := c];
    if |line| == 1 {
      assert line[1..] == "" && other[1..] == "";
    } else {
      assert other[1..] == line[1..][|line|-2 := c];
      LastCharFree(line[1..], c, !escaped && line[0] == '^');
    }
  }

  lemma {:induction false} SplitterAgrees(s: string, hasredir: bool, escaped: bool, haschar: bool)
    ensures var n := LineLength(s, hasredir, escaped, haschar);
            SplitterEscapes(s, hasredir, escaped, haschar) == UnescapeEscapes(s[..n], escaped)
  {
    var n := LineLength(s, hasredir, escaped, haschar);
    if n > 0 {
      var hasredir', haschar' := hasredir, haschar;
      if s[0] == '>' {
        hasredir' := hasredir || !escaped;
      } else if s[0] != '\n' && !((s[0] == ';' && hasredir) || s[0] == '&') && s[0] != '^' {
        haschar' := true;
      }
      SplitterAgrees(s[1..], hasredir', s[0] == '^' && !escaped, haschar');
      assert s[..n][1..] == s[1..][..n-1];
    }
  }

  /** On every input, the splitter and the unescape pass agree on which characters of the line are escaped. */
  lemma EscapesAgree(stdin: string)
    requires stdin != ""
    ensures LineLength(stdin, false, false, false) > 0
    ensures var line := stdin[..LineLength(stdin, false, false, false)];
            SplitterEscapes(stdin, false, false, false) == UnescapeEscapes(DropSeparator(line), false)
  {
    LineNotEmpty(stdin);
    SplitterAgrees(stdin, false, false, false);
    LastCharFree(stdin[..LineLength(stdin, false, false, false)], '\0', false);
  }

  // ---------------------------------------------------------------- caret quoting

  predicate IsSpecial(c: char) {
    c == '^' || c == '>' || c == '&' || c == ';'
  }

  function QuoteChar(c: char): string {
    if IsSpecial(c) then ['^', c] else [c]
  }

  function Quote(t: string): string {
    if t == "" then "" else QuoteChar(t[0]) + Quote(t[1..])
  }

  /** After such a character a redirection ends the line. */
  predicate IsPlain(c: char) {
    c != '^' && c != '>' && c != '&'
  }

  predicate HasPlain(t: string) {
    t != "" && (IsPlain(t[0]) || HasPlain(t[1..]))
  }

  lemma QuotedCharLength(c: char, post: string, haschar: bool)
    requires c != '\n'
    ensures LineLength(QuoteChar(c) + post, false, false, haschar)
         == |QuoteChar(c)| + LineLength(post, false, false, haschar || IsPlain(c))
  {
    var all := QuoteChar(c) + post;
    if IsSpecial(c) {
      assert all[0] == '^' && all[1..] == [c] + post && all[1..][1..] == post;
    } else {
      assert all[0] == c && all[1..] == post;
    }
  }

  lemma {:induction false} QuotedLength(t: string, post: string, haschar: bool)
    requires '\n' !in t
    ensures LineLength(Quote(t) + post, false, false, haschar)
         == |Quote(t)| + LineLength(post, false, false, haschar || HasPlain(t))
  {
    if t == "" {
      assert Quote(t) + post == post;
    } else {
      assert Quote(t) + post == QuoteChar(t[0]) + (Quote(t[1..]) + post);
      QuotedCharLength(t[0], Quote(t[1..]) + post, haschar);
      QuotedLength(t[1..], post, haschar || IsPlain(t[0]));
    }
  }

  lemma UnescapeQuotedChar(c: char, post: string)
    ensures Unescape(QuoteChar(c) + post, false) == [c] + Unescape(post, false)
  {
    var all := QuoteChar(c) + post;
    if IsSpecial(c) {
      assert all[1..] == [c] + post && all[1..][1..] == post;
    } else {
      assert all[1..] == post;
    }
  }

  lemma {:induction false} UnescapeQuoted(t: string, post: string)
    ensures Unescape(Quote(t) + post, false) == t + Unescape(post, false)
  {
    if t == "" {
      assert Quote(t) + post == post;
    } else {
      assert Quote(t) + post == QuoteChar(t[0]) + (Quote(t[1..]) + post);
      UnescapeQuotedChar(t[0], Quote(t[1..]) + post);
      UnescapeQuoted(t[1..], post);
    }
  }

  /** A quoted text and a line break are taken as one line, which unescapes to the text. */
  lemma QuotedLine(t: string, post: string)
    requires '\n' !in t
    ensures LineLength(Quote(t) + ("\n" + post), false, false, false) == |Quote(t)| + 1
    ensures FirstLine(Quote(t) + ("\n" + post)) == t + "\n"
  {
    QuotedLength(t, "\n" + post, false);
    var stdin := Quote(t) + ("\n" + post);
    assert stdin[..|Quote(t)| + 1] == Quote(t) + "\n";
    UnescapeQuoted(t, "\n");
  }

  lemma {:induction false} QuoteAppend(t: string, c: char)
    ensures Quote(t + [c]) == Quote(t) + QuoteChar(c)
  {
    if t == "" {
      assert (t + [c])[1..] == "";
    } else {
      assert (t + [c])[1..] == t[1..] + [c];
      QuoteAppend(t[1..], c);
    }
  }

  lemma UnescapeQuotedNul()
    ensures Unescape(['^', '\0'], false) == ['\0']
  {
    assert (['^', '\0'])[1..] == ['\0'];
  }

  lemma DropQuotedSeparator(t: string, c: char)
    ensures Quote(t + [c]) != ""
    ensures Unescape(DropSeparator(Quote(t + [c])), false) == t + [if IsSeparator(c) then '\0' else c]
  {
    QuoteAppend(t, c);
    var stdin := Quote(t + [c]);
    if IsSeparator(c) {
      assert DropSeparator(stdin) == Quote(t) + ['^', '\0'];
      UnescapeQuoted(t, ['^', '\0']);
      UnescapeQuotedNul();
    } else {
      UnescapeQuoted(t + [c], "");
      assert stdin + "" == stdin;
    }
  }

  /** The ways a line ends: behind a line break, behind a separator, before a redirection, or with the input. */
  datatype LineEnd = AtBreak | AtSeparator | BeforeRedirection | AtInputEnd

  function EndOf(s: string, hasredir: bool, escaped: bool, haschar: bool): LineEnd {
    if s == "" then AtInputEnd
    else if s[0] == '>' then
      if escaped then EndOf(s[1..], hasredir, false, haschar)
      else if haschar then BeforeRedirection
      else EndOf(s[1..], true, false, haschar)
    else if s[0] == '\n' then AtBreak
    else if (s[0] == ';' && hasredir) || s[0] == '&' then
      if escaped then EndOf(s[1..], hasredir, false, haschar) else AtSeparator
    else if s[0] == '^' then EndOf(s[1..], hasredir, !escaped, haschar)
    else EndOf(s[1..], hasredir, false, true)
  }

  lemma OnePlaceOn(s: string, n: nat)
    requires s != "" && n < |s|
    ensures n > 0 ==> s[1..][n-1] == s[n]
    ensures n + 1 < |s| ==> s[1..][n] == s[n+1]
  {
  }

  /** What stands at the place where a line ends. */
  lemma {:induction false} EndChar(s: string, hasredir: bool, escaped: bool, haschar: bool)
    ensures var n, end := LineLength(s, hasredir, escaped, haschar), EndOf(s, hasredir, escaped, haschar);
            && (end.AtBreak? ==> n > 0 && s[n-1] == '\n')
            && (end.AtSeparator? ==> n > 0 && IsSeparator(s[n-1]))
            && (end.BeforeRedirection? ==> n < |s| && s[n] == '>')
            && (end.AtInputEnd? ==> n == |s|)
  {
    if s != "" {
      var hasredir', escaped', haschar' := hasredir, false, haschar;
      if s[0] == '>' {
        hasredir' := hasredir || !escaped;
      } else if s[0] == '^' {
        escaped' := !escaped;
      } else if !((s[0] == ';' && hasredir) || s[0] == '&') {
        haschar' := true;
      }
      var n := LineLength(s[1..], hasredir', escaped', haschar');
      OnePlaceOn(s, n);
      EndChar(s[1..], hasredir', escaped', haschar');
    }
  }

  /** The line as it should be read: only a separator that ends it is overwritten. */
  function Meant(stdin: string): string
    requires stdin != ""
  {
    LineNotEmpty(stdin);
    var line := stdin[..LineLength(stdin, false, false, false)];
    Unescape(if EndOf(stdin, false, false, false).AtSeparator? then DropSeparator(line) else line, false)
  }

  /**
   * On every input, a line is read as it should be unless it ends in a separator that does not end it: one before a
   * redirection or at the end of the input, whether it was escaped or not.
   */
  lemma SeparatorLost(stdin: string)
    requires stdin != ""
    ensures LineLength(stdin, false, false, false) > 0
    ensures var last := stdin[LineLength(stdin, false, false, false) - 1];
            FirstLine(stdin) == Meant(stdin) <==>
              !(IsSeparator(last) && EndOf(stdin, false, false, false) in {BeforeRedirection, AtInputEnd})
  {
    LineNotEmpty(stdin);
    var n := LineLength(stdin, false, false, false);
    var line := stdin[..n];
    EndChar(stdin, false, false, false);
    if IsSeparator(line[n-1]) {
      LastCharRead(line[..n-1], line[n-1], false);
      LastCharRead(line[..n-1], '\0', false);
      assert line[..n-1] + [line[n-1]] == line && line[..n-1] + ['\0'] == DropSeparator(line);
    }
  }

  /** Whatever the last character is but a caret, it is the last one of the unescaped line. */
  lemma {:induction false} LastCharRead(s: string, c: char, escaped: bool)
    requires c != '^'
    ensures Unescape(s + [c], escaped) != ""
    ensures var r := Unescape(s + [c], escaped); r[|r|-1] == c
  {
    if s == "" {
      assert (s + [c])[1..] == "";
    } else {
      assert (s + [c])[1..] == s[1..] + [c];
      LastCharRead(s[1..], c, !escaped && s[0] == '^');
    }
  }

  /** What ends the line of a quoted text: a redirection does so behind a plain character only. */
  predicate EndsQuoted(t: string, post: string) {
    post == "" || post[0] == '\n' || post[0] == '&' || (post[0] == '>' && HasPlain(t))
  }

  /** What the end of a line adds to it. */
  function EndRead(post: string): string {
    if post == "" || post[0] == '>' then "" else if post[0] == '\n' then "\n" else "\0"
  }

  /** A quoted text that is cut off before a redirection or at the end of the input. */
  lemma QuotedCut(t: string, c: char, post: string)
    requires '\n' !in t && c != '\n' && EndsQuoted(t + [c], post) && (post == "" || post[0] == '>')
    ensures Quote(t + [c]) + post != ""
    ensures FirstLine(Quote(t + [c]) + post) == t + [if IsSeparator(c) then '\0' else c]
  {
    var quoted := Quote(t + [c]);
    QuoteAppend(t, c);
    QuotedLength(t + [c], post, false);
    assert (quoted + post)[..|quoted|] == quoted;
    DropQuotedSeparator(t, c);
  }

  /** A quoted text with a line break or a separator of its own behind it. */
  lemma QuotedEnded(t: string, post: string)
    requires '\n' !in t && post != "" && (post[0] == '\n' || post[0] == '&')
    ensures FirstLine(Quote(t) + post) == t + EndRead(post)
  {
    EndedLength(t, post);
    LastDropped(Quote(t), post);
    EndedRead(t, EndRead(post)[0]);
  }

  lemma EndedLength(t: string, post: string)
    requires '\n' !in t && post != "" && (post[0] == '\n' || post[0] == '&')
    ensures LineLength(Quote(t) + post, false, false, false) == |Quote(t)| + 1
  {
    QuotedLength(t, post, false);
  }

  lemma EndedRead(t: string, c: char)
    requires c != '^'
    ensures Unescape(Quote(t) + [c], false) == t + [c]
  {
    UnescapeQuoted(t, [c]);
    OneRead(c);
  }

  lemma OneRead(c: char)
    requires c != '^'
    ensures Unescape([c], false) == [c]
  {
    assert ([c])[1..] == "";
  }

  lemma LastDropped(line: string, post: string)
    requires post != "" && (post[0] == '\n' || post[0] == '&')
    ensures DropSeparator((line + post)[..|line| + 1]) == line + EndRead(post)
  {
    var end := [post[0]];
    assert (line + post)[..|line| + 1] == line + end;
    assert (line + end)[|line|] == post[0];
  }

  /**
   * In every way in which its line can end, a quoted text is read back exactly if it does not end in a separator
   * before a redirection or at the end of the input.
   */
  lemma QuotedEnds(t: string, c: char, post: string)
    requires '\n' !in t && c != '\n' && EndsQuoted(t + [c], post)
    ensures Quote(t + [c]) + post != ""
    ensures FirstLine(Quote(t + [c]) + post) == t + [c] + EndRead(post)
       <==> !(IsSeparator(c) && (post == "" || post[0] == '>'))
  {
    if post == "" || post[0] == '>' {
      QuotedCut(t, c, post);
      assert t + [c] + "" == t + [c] && (t + [c])[|t|] == c && (t + ['\0'])[|t|] == '\0';
    } else {
      QuotedEnded(t + [c], post);
    }
  }

  /** The line that echoes an escaped separator into a file loses it. */
  lemma SeparatorExample()
    ensures FirstLine("echo a^&>>f\n") == "echo a\0"
  {
    QuoteAppend("echo a", '&');
    QuotePlain("echo a");
    assert "echo a^&>>f\n" == Quote("echo a" + "&") + ">>f\n";
    QuotedCut("echo a", '&', ">>f\n");
  }

  lemma {:induction false} QuotePlain(t: string)
    requires forall i :: 0 <= i < |t| ==> !IsSpecial(t[i])
    ensures Quote(t) == t
  {
    if t != "" {
      QuotePlain(t[1..]);
    }
  }

  /**
   * At the end of the input, without a line break, a final separator is lost although it was quoted: the line
   * unescapes to the text exactly when the text does not end in one.
   */
  lemma QuotedTail(t: string, c: char)
    requires '\n' !in t && c != '\n'
    ensures Quote(t + [c]) != ""
    ensures FirstLine(Quote(t + [c])) == t + [c] <==> !IsSeparator(c)
  {
    QuotedEnds(t, c, "");
    assert Quote(t + [c]) + "" == Quote(t + [c]) && t + [c] + "" == t + [c];
  }
}
