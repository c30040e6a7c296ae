/**
 * The comment stripper (tools/remove_comments.py): drops comment tokens and, on request, string tokens
 * that start inside a docstring range; optionally drops blank lines; writes the result in place (after
 * a backup), to an output file or to standard output. The tokenizer, the docstring ranges found by
 * `ast` and `untokenize` are parameters.
 */
module RemoveComments {
  import opened Wrappers
  import opened Strs
  import opened SeqUtil

  // ---------------------------------------------------------------------------------------------
  // Token filtering

  datatype Kind = Comment | StringLit | OtherKind(code: nat)

  /** A token as `generate_tokens` yields it: kind, text and start line. */
  datatype Token = Token(kind: Kind, text: string, line: int)

  /** `in_docstring(line)`: some range `(a, b)` has `a <= line <= b`. */
  predicate InDocstring(ranges: seq<(int, int)>, line: int)
  {
    exists i :: 0 <= i < |ranges| && ranges[i].0 <= line <= ranges[i].1
  }

  /** The loop of `in_docstring`, which returns at the first range holding the line. */
  method InDocstringLoop(ranges: seq<(int, int)>, line: int) returns (found: bool)
    ensures found <==> InDocstring(ranges, line)
  {
    for i := 0 to |ranges|
      invariant forall j :: 0 <= j < i ==> !(ranges[j].0 <= line <= ranges[j].1)
    {
      if ranges[i].0 <= line <= ranges[i].1 {
        return true;
      }
    }
    return false;
  }

  /** The docstring ranges used: none unless removal is on, and none when `ast.parse` raised. */
  function DocRanges(removeDocstrings: bool, parsed: Option<seq<(int, int)>>): (r: seq<(int, int)>)
    ensures !removeDocstrings || parsed.None? ==> r == []
  {
    if removeDocstrings && parsed.Some? then parsed.value else []
  }

  /** A token survives unless it is a comment, or a string starting in a docstring range while removal is on. */
  function KeepToken(removeDocstrings: bool, ranges: seq<(int, int)>): Token -> bool
  {
    (t: Token) => !t.kind.Comment? && !(removeDocstrings && t.kind.StringLit? && InDocstring(ranges, t.line))
  }

  function Pair(t: Token): (Kind, string)
  {
    (t.kind, t.text)
  }

  /** The kept tokens, as the (kind, text) pairs handed to `untokenize`. */
  function Kept(tokens: seq<Token>, removeDocstrings: bool, ranges: seq<(int, int)>): seq<(Kind, string)>
  {
    MapSeq(Filter(tokens, KeepToken(removeDocstrings, ranges)), Pair)
  }

  /** The token loop of `remove_comments_and_docstrings`. */
  method FilterTokens(tokens: seq<Token>, removeDocstrings: bool, ranges: seq<(int, int)>) returns (out: seq<(Kind, string)>)
    ensures out == Kept(tokens, removeDocstrings, ranges)
  {
    out := [];
    for i := 0 to |tokens|
      invariant out == Kept(tokens[..i], removeDocstrings, ranges)
    {
      var t := tokens[i];
      assert tokens[..i + 1] == tokens[..i] + [t];
      FilterSnoc(tokens[..i], t, KeepToken(removeDocstrings, ranges));
      MapSeqSnoc(Filter(tokens[..i], KeepToken(removeDocstrings, ranges)), t, Pair);
      if t.kind.Comment? {
        continue;
      }
      if removeDocstrings && t.kind.StringLit? {
        var inDoc := InDocstringLoop(ranges, t.line);
        if inDoc {
          continue;
        }
      }
      out := out + [Pair(t)];
    }
    assert tokens[..|tokens|] == tokens;
  }

  /**
   * No comment survives; a string token is dropped only when removal is on and it starts in a range;
   * every other token survives, in the original order.
   */
  lemma KeptRule(tokens: seq<Token>, removeDocstrings: bool, ranges: seq<(int, int)>)
    ensures var kept := Filter(tokens, KeepToken(removeDocstrings, ranges));
            (forall i :: 0 <= i < |kept| ==> !kept[i].kind.Comment? && kept[i] in tokens)
            && (forall i :: 0 <= i < |tokens| && !tokens[i].kind.Comment? && !tokens[i].kind.StringLit? ==> tokens[i] in kept)
            && (forall i :: 0 <= i < |tokens| && tokens[i].kind.StringLit? ==>
                  (tokens[i] in kept <== !(removeDocstrings && InDocstring(ranges, tokens[i].line))))
            && (forall i :: 0 <= i < |kept| && kept[i].kind.StringLit? ==> !(removeDocstrings && InDocstring(ranges, kept[i].line)))
  {
  }

  /** The kept tokens are the non-comment tokens in order, when removal is off or no range was found. */
  lemma {:induction false} KeptWithoutRemoval(tokens: seq<Token>, removeDocstrings: bool, parsed: Option<seq<(int, int)>>)
    requires !removeDocstrings || parsed.None?
    ensures Filter(tokens, KeepToken(removeDocstrings, DocRanges(removeDocstrings, parsed)))
            == Filter(tokens, (t: Token) => !t.kind.Comment?)
  {
    if tokens != [] {
      KeptWithoutRemoval(tokens[..|tokens| - 1], removeDocstrings, parsed);
    }
  }

  /**
   * `remove_comments_and_docstrings`: `tokens` None when tokenizing raised, `untokenize` None when it
   * raised; either failure gives back the source unchanged.
   */
  function RemoveCommentsAndDocstrings(source: string, removeDocstrings: bool, parsed: Option<seq<(int, int)>>,
                                       tokens: Option<seq<Token>>, untokenize: seq<(Kind, string)> -> Option<string>): (r: string)
    ensures tokens.None? ==> r == source
    ensures tokens.Some? && untokenize(Kept(tokens.value, removeDocstrings, DocRanges(removeDocstrings, parsed))).None? ==> r == source
  {
    match tokens
    case None => source
    case Some(ts) =>
      match untokenize(Kept(ts, removeDocstrings, DocRanges(removeDocstrings, parsed)))
      case None => source
      case Some(s) => s
  }

  // ---------------------------------------------------------------------------------------------
  // Blank-line removal

  /** The line boundaries of `str.splitlines`. */
  predicate IsLineBreak(c: char)
  {
    c == '\n' || c == '\r' || c == '\U{b}' || c == '\U{c}' || ('\U{1c}' <= c <= '\U{1e}')
    || c == '\U{85}' || c == '\U{2028}' || c == '\U{2029}'
  }

  predicate NoBreak(s: string)
  {
    forall i :: 0 <= i < |s| ==> !IsLineBreak(s[i])
  }

  /** The index of the first line boundary, or the length. */
  function FirstBreak(s: string): (i: nat)
    ensures i <= |s| && NoBreak(s[..i]) && (i < |s| ==> IsLineBreak(s[i]))
  {
    if s == [] || IsLineBreak(s[0]) then 0
    else
      var j := FirstBreak(s[1..]);
      assert s[..j + 1] == [s[0]] + s[1..][..j];
      j + 1
  }

  /** `str.splitlines()`: the lines without their terminators; "\r\n" is one terminator. */
  function SplitLines(s: string): (lines: seq<string>)
    ensures forall i :: 0 <= i < |lines| ==> NoBreak(lines[i])
    decreases |s|
  {
    if s == [] then []
    else
      var i := FirstBreak(s);
      if i == |s| then [s]
      else
        var w := if s[i] == '\r' && i + 1 < |s| && s[i + 1] == '\n' then 2 else 1;
        [s[..i]] + SplitLines(s[i + w..])
  }

  /** `"\n".join(lines)`. */
  function JoinLines(lines: seq<string>): string
  {
    if lines == [] then ""
    else if |lines| == 1 then lines[0]
    else lines[0] + "\n" + JoinLines(lines[1..])
  }

  predicate NotBlank(ln: string)
  {
    Strip(ln) != []
  }

  /**
   * As written: the trailing newline is appended only when the last line ends with "\n", which a line
   * of `splitlines` never does.
   */
  function BlankLinesRemovedAsWritten(cleaned: string): string
  {
    var lines := SplitLines(cleaned);
    JoinLines(Filter(lines, NotBlank)) + (if lines != [] && |lines[|lines| - 1]| > 0 && lines[|lines| - 1][|lines[|lines| - 1]| - 1] == '\n' then "\n" else "")
  }

  /** As written the final newline of the text is always lost. */
  lemma AsWrittenDropsFinalNewline(cleaned: string)
    ensures BlankLinesRemovedAsWritten(cleaned) == JoinLines(Filter(SplitLines(cleaned), NotBlank))
  {
    var lines := SplitLines(cleaned);
    if lines != [] {
      var last := lines[|lines| - 1];
      assert NoBreak(last);
      if |last| > 0 {
        assert !IsLineBreak(last[|last| - 1]);
      }
    }
  }

  /** "x = 1\n" loses its newline as written, and keeps it as intended. */
  lemma FinalNewlineExample()
    ensures BlankLinesRemovedAsWritten("x = 1\n") == "x = 1"
    ensures BlankLinesRemoved("x = 1\n") == "x = 1\n"
  {
    var line := "x = 1";
    var s := line + "\n";
    assert s == "x = 1\n";
    assert NoBreak(line);
    SplitLinesCons(line, "\n");
    assert SplitLines(s) == [line];
    StripId(line);
    FilterSnoc([], line, NotBlank);
    assert Filter([line], NotBlank) == [line];
    AsWrittenDropsFinalNewline(s);
    assert s[|s| - 1] == '\n';
  }

  /** The blank-line pass as evidently intended: non-blank lines, and the final newline kept. */
  function BlankLinesRemoved(cleaned: string): string
  {
    var kept := Filter(SplitLines(cleaned), NotBlank);
    JoinLines(kept) + (if kept != [] && cleaned != [] && cleaned[|cleaned| - 1] == '\n' then "\n" else "")
  }

  /** Splitting the output gives back exactly the non-blank lines, and it ends in "\n" exactly when the input does (given a non-blank line). */
  lemma BlankLinesRemovedRoundTrip(cleaned: string)
    ensures SplitLines(BlankLinesRemoved(cleaned)) == Filter(SplitLines(cleaned), NotBlank)
    ensures Filter(SplitLines(cleaned), NotBlank) != [] ==>
              (BlankLinesRemoved(cleaned)[|BlankLinesRemoved(cleaned)| - 1] == '\n' <==> cleaned[|cleaned| - 1] == '\n')
  {
    var kept := Filter(SplitLines(cleaned), NotBlank);
    forall i | 0 <= i < |kept| ensures kept[i] != [] && NoBreak(kept[i]) {
      assert kept[i] in SplitLines(cleaned);
    }
    var tail := if kept != [] && cleaned != [] && cleaned[|cleaned| - 1] == '\n' then "\n" else "";
    SplitJoin(kept, tail);
    if kept != [] {
      JoinLinesLast(kept);
      if tail == [] {
        assert cleaned != [];
        var last := kept[|kept| - 1];
        assert BlankLinesRemoved(cleaned) == JoinLines(kept);
        assert !IsLineBreak(last[|last| - 1]);
      }
    }
  }

  /** The joined lines end with the last line. */
  lemma {:induction false} JoinLinesLast(lines: seq<string>)
    requires lines != [] && lines[|lines| - 1] != []
    ensures |JoinLines(lines)| > 0
    ensures JoinLines(lines)[|JoinLines(lines)| - 1] == lines[|lines| - 1][|lines[|lines| - 1]| - 1]
  {
    if |lines| > 1 {
      JoinLinesLast(lines[1..]);
    }
  }

  /** Lines without boundaries, none empty, joined and optionally terminated, split back into themselves. */
  lemma {:induction false} SplitJoin(lines: seq<string>, tail: string)
    requires forall i :: 0 <= i < |lines| ==> lines[i] != [] && NoBreak(lines[i])
    requires tail == "" || (tail == "\n" && lines != [])
    ensures SplitLines(JoinLines(lines) + tail) == lines
  {
    if lines == [] {
    } else if |lines| == 1 {
      if tail == "\n" {
        SplitLinesCons(lines[0], tail);
      } else {
        SplitLinesWhole(lines[0]);
        assert JoinLines(lines) + tail == lines[0];
      }
    } else {
      var rest := JoinLines(lines[1..]) + tail;
      assert JoinLines(lines) + tail == lines[0] + ("\n" + rest);
      SplitLinesCons(lines[0], "\n" + rest);
      assert ("\n" + rest)[1..] == rest;
      SplitJoin(lines[1..], tail);
    }
  }

  /** A line ended by "\n" splits off as the first line. */
  lemma SplitLinesCons(head: string, rest: string)
    requires NoBreak(head) && rest != [] && rest[0] == '\n'
    ensures SplitLines(head + rest) == [head] + SplitLines(rest[1..])
  {
    var s := head + rest;
    FirstBreakAfter(head, rest);
    assert s[..|head|] == head;
    assert s[|head| + 1..] == rest[1..];
  }

  /** A non-empty text without boundaries is one line. */
  lemma SplitLinesWhole(line: string)
    requires line != [] && NoBreak(line)
    ensures SplitLines(line) == [line]
  {
    FirstBreakAfter(line, []);
    assert line + [] == line;
  }

  /** A line without boundaries followed by a boundary (or nothing) ends where the line does. */
  lemma {:induction false} FirstBreakAfter(head: string, rest: string)
    requires NoBreak(head) && (rest == [] || IsLineBreak(rest[0]))
    ensures FirstBreak(head + rest) == |head|
  {
    if head != [] {
      assert (head + rest)[1..] == head[1..] + rest;
      FirstBreakAfter(head[1..], rest);
    }
  }

  // ---------------------------------------------------------------------------------------------
  // Output and backup

  /** `PurePath.suffix`: from the last dot, unless that dot starts or ends the name. */
  function Suffix(name: string): string
  {
    match LastIndexOf(name, '.')
    case None => ""
    case Some(i) => if 0 < i < |name| - 1 then name[i..] else ""
  }

  /** `PurePath.stem`: the name without its suffix. */
  function StemOf(name: string): string
  {
    match LastIndexOf(name, '.')
    case None => name
    case Some(i) => if 0 < i < |name| - 1 then name[..i] else name
  }

  /** `PurePath.with_suffix(suffix)` on a name. */
  function WithSuffix(name: string, suffix: string): string
  {
    StemOf(name) + suffix
  }

  /** `path.with_suffix(path.suffix + '.bak')`. */
  function BackupName(name: string): string
  {
    WithSuffix(name, Suffix(name) + ".bak")
  }

  /** The backup is always the name with ".bak" appended, whatever its suffix. */
  lemma BackupAppendsBak(name: string)
    ensures BackupName(name) == name + ".bak"
  {
    match LastIndexOf(name, '.')
    case None =>
    case Some(i) =>
      if 0 < i < |name| - 1 {
        assert name[..i] + name[i..] == name;
      }
  }

  /** What processing one file does. */
  datatype Effect = Write(path: string, text: string) | Print(text: string)

  /**
   * `process_file` once the text is cleaned: a dry run prints; in place writes the backup of the
   * original first when asked, then the cleaned text; otherwise the output file, else standard output.
   */
  function ProcessFile(name: string, src: string, cleaned: string, inplace: bool, backup: bool, dryRun: bool, outfile: Option<string>): (effects: seq<Effect>)
    ensures dryRun ==> effects == [Print(cleaned)]
    ensures !dryRun && inplace && backup ==> effects == [Write(name + ".bak", src), Write(name, cleaned)]
    ensures forall i :: 0 <= i < |effects| && effects[i].Write? ==> effects[i].path in {name, name + ".bak"} || Some(effects[i].path) == outfile
  {
    BackupAppendsBak(name);
    if dryRun then [Print(cleaned)]
    else if inplace then (if backup then [Write(BackupName(name), src)] else []) + [Write(name, cleaned)]
    else if outfile.Some? && outfile.value != "" then [Write(outfile.value, cleaned)]
    else [Print(cleaned)]
  }

  /** `main`'s guard: an output file with a path that is not a single file exits with 2. */
  function MainExit(outfile: Option<string>, pathIsFile: bool): (code: int)
    ensures code == 2 <==> outfile.Some? && outfile.value != "" && !pathIsFile
    ensures code == 0 || code == 2
  {
    if outfile.Some? && outfile.value != "" && !pathIsFile then 2 else 0
  }
}
