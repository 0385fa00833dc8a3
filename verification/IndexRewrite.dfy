/** Whole-text updates of `MEMORY.md`, shown to refine operations on its list of lines. */
module IndexRewrite {
  import opened Text
  import opened Wrappers
  import opened MemoryIndex

  /** A row is replaced when it carries the title or links to the file. */
  predicate Matches(line: string, title: string, filename: string) {
    StartsWith(line, RowPrefix(title)) || Targets(line, filename)
  }

  function ReplaceRows(lines: seq<string>, title: string, filename: string, row: string): seq<string> {
    seq(|lines|, i requires 0 <= i < |lines| => if Matches(lines[i], title, filename) then row else lines[i])
  }

  predicate AnyMatch(lines: seq<string>, title: string, filename: string) {
    exists i :: 0 <= i < |lines| && Matches(lines[i], title, filename)
  }

  /** The rewritten text: matching rows become the stripped new row, otherwise the new row is appended. */
  function UpdatedText(title: string, filename: string, content: string, text: string): string {
    var row := Row(title, filename, content) + "\n";
    var lines := SplitLF(text);
    if AnyMatch(lines, title, filename) then JoinLF(ReplaceRows(lines, title, filename, Strip(row))) else text + row
  }

  function WithinLimit(text: string): Option<string> {
    if Utf8Length(text) > MAX_INDEX_BYTES then None else Some(text)
  }

  function KeepRows(lines: seq<string>, filename: string): seq<string> {
    if |lines| == 0 then []
    else if Targets(lines[0], filename) then KeepRows(lines[1..], filename)
    else [lines[0]] + KeepRows(lines[1..], filename)
  }

  function RemovedText(text: string, filename: string): string {
    JoinLF(KeepRows(SplitLines(text), filename)) + "\n"
  }

  /** `_render_index_update`: one pass over the lines, replacing every match. */
  method RenderIndexUpdate(title: string, filename: string, content: string, text: string) returns (r: Option<string>)
    ensures r == WithinLimit(UpdatedText(title, filename, content, text))
  {
    hide Row, RowPrefix, LineTarget, Strip, StartsWith, SplitLF, JoinLF;
    var row := Row(title, filename, content) + "\n";
    var lines := SplitLF(text);
    var newLines: seq<string> := [];
    var replaced := false;
    for i := 0 to |lines|
      invariant |newLines| == i
      invariant forall k :: 0 <= k < i ==> newLines[k] == ReplaceRows(lines, title, filename, Strip(row))[k]
      invariant replaced <==> AnyMatch(lines[..i], title, filename)
    {
      if StartsWith(lines[i], RowPrefix(title)) {
        newLines := newLines + [Strip(row)];
        replaced := true;
        assert Matches(lines[..i + 1][i], title, filename);
      } else {
        var targets := IndexLineTargetsFilename(lines[i], filename);
        if targets {
          newLines := newLines + [Strip(row)];
          replaced := true;
          assert Matches(lines[..i + 1][i], title, filename);
        } else {
          newLines := newLines + [lines[i]];
          assert forall k :: 0 <= k < i ==> lines[..i + 1][k] == lines[..i][k];
        }
      }
    }
    assert lines[..|lines|] == lines;
    assert newLines == ReplaceRows(lines, title, filename, Strip(row));
    r := WithinLimit(if replaced then JoinLF(newLines) else text + row);
  }

  /** `_render_index_removal`: keep every line whose link destination is another file. */
  method RenderIndexRemoval(text: string, filename: string) returns (r: Option<string>)
    ensures r == WithinLimit(RemovedText(text, filename))
  {
    var lines := SplitLines(text);
    var retained: seq<string> := [];
    for i := 0 to |lines|
      invariant retained + KeepRows(lines[i..], filename) == KeepRows(lines, filename)
    {
      var targets := IndexLineTargetsFilename(lines[i], filename);
      if !targets {
        retained := retained + [lines[i]];
      }
    }
    assert lines[|lines|..] == [];
    assert retained + [] == retained;
    r := WithinLimit(JoinLF(retained) + "\n");
  }

  // ---- Store-written text is a list of closed lines ----

  /** Every separator in the text is a line feed and the text is empty or ends in one. */
  ghost predicate LineClosed(text: string) {
    text == CloseLines(SplitLines(text))
  }

  lemma {:induction false} SplitLinesNoBreak(text: string)
    ensures forall line <- SplitLines(text) :: NoBreak(line)
  {
    if text != "" {
      SplitLinesNoBreak(text[LineLength(text)..]);
    }
  }

  lemma ClosedIsLineClosed(lines: seq<string>)
    requires forall line <- lines :: NoBreak(line)
    ensures LineClosed(CloseLines(lines)) && SplitLines(CloseLines(lines)) == lines
  {
    SplitLinesOfClosed(lines);
  }

  function UpdatedLines(lines: seq<string>, title: string, filename: string, content: string): seq<string> {
    if AnyMatch(lines, title, filename)
    then ReplaceRows(lines, title, filename, Strip(Row(title, filename, content) + "\n"))
    else lines + [Row(title, filename, content)]
  }

  function RemovedLines(lines: seq<string>, filename: string): seq<string> {
    var kept := KeepRows(lines, filename);
    if kept == [] then [""] else kept
  }

  lemma {:induction false} KeepRowsMembers(lines: seq<string>, filename: string)
    ensures forall line :: line in KeepRows(lines, filename) <==> line in lines && !Targets(line, filename)
  {
    if |lines| > 0 {
      KeepRowsMembers(lines[1..], filename);
    }
  }

  lemma EmptyMatchesNothing(title: string, filename: string)
    ensures !Matches("", title, filename)
  {
  }

  lemma AnyMatchIgnoresTrailingEmpty(lines: seq<string>, title: string, filename: string)
    ensures AnyMatch(lines + [""], title, filename) <==> AnyMatch(lines, title, filename)
  {
    var all := lines + [""];
    assert !Matches("", title, filename);
    if AnyMatch(all, title, filename) {
      var i :| 0 <= i < |all| && Matches(all[i], title, filename);
      assert lines[i] == all[i];
    }
    if AnyMatch(lines, title, filename) {
      var i :| 0 <= i < |lines| && Matches(lines[i], title, filename);
      assert lines[i] == all[i];
    }
  }

  /** Updating store-written text is `UpdatedLines` on its lines, and the result is store-written text again. */
  lemma UpdateRefinesLines(title: string, filename: string, content: string, text: string)
    requires IsEntryFilename(filename) && LineClosed(text)
    ensures var text' := UpdatedText(title, filename, content, text);
            LineClosed(text') && SplitLines(text') == UpdatedLines(SplitLines(text), title, filename, content)
  {
    hide Row, RowPrefix, LineTarget, Strip, StartsWith, SplitLines;
    var lines := SplitLines(text);
    SplitLinesNoBreak(text);
    SplitLFOfClosed(lines);
    AnyMatchIgnoresTrailingEmpty(lines, title, filename);
    RowScansBack(title, filename, content);
    var row := Row(title, filename, content);
    var lines' := UpdatedLines(lines, title, filename, content);
    if AnyMatch(lines, title, filename) {
      EmptyMatchesNothing(title, filename);
      assert ReplaceRows(lines + [""], title, filename, Strip(row + "\n")) == lines' + [""];
      JoinLFClosed(lines');
    } else {
      CloseLinesAppend(lines, [row]);
      assert CloseLines([row]) == row + "\n";
    }
    ClosedIsLineClosed(lines');
  }

  /** Removing rows from store-written text is `RemovedLines` on its lines, and the trailing line feed stays. */
  lemma RemovalRefinesLines(text: string, filename: string)
    requires LineClosed(text)
    ensures var text' := RemovedText(text, filename);
            LineClosed(text') && SplitLines(text') == RemovedLines(SplitLines(text), filename)
  {
    var kept := KeepRows(SplitLines(text), filename);
    SplitLinesNoBreak(text);
    KeepRowsMembers(SplitLines(text), filename);
    if kept == [] {
      assert RemovedText(text, filename) == CloseLines([""]);
    } else {
      JoinClosedByLF(kept);
    }
    ClosedIsLineClosed(RemovedLines(SplitLines(text), filename));
  }

  /** The rows an update leaves alone: exactly those with another title and another destination. */
  lemma UpdateKeepsUnrelatedRows(lines: seq<string>, title: string, filename: string, content: string, line: string)
    requires IsEntryFilename(filename)
    requires !Matches(line, title, filename)
    ensures line in UpdatedLines(lines, title, filename, content) <==> line in lines
  {
    RowScansBack(title, filename, content);
    var lines' := UpdatedLines(lines, title, filename, content);
    if line in lines {
      var i :| 0 <= i < |lines| && lines[i] == line;
      assert lines'[i] == line;
    }
    if line in lines' {
      var i :| 0 <= i < |lines'| && lines'[i] == line;
      assert i < |lines| && lines[i] == line;
    }
  }

  /** After an update every matching row is a row for this file under this title, and there is one. */
  lemma UpdateInstallsRow(lines: seq<string>, title: string, filename: string, content: string)
    requires IsEntryFilename(filename)
    ensures var lines' := UpdatedLines(lines, title, filename, content);
            && (exists line :: line in lines' && IsRowFor(line, title, filename))
            && (forall line :: line in lines' && Matches(line, title, filename) ==> IsRowFor(line, title, filename))
  {
    RowScansBack(title, filename, content);
    var lines' := UpdatedLines(lines, title, filename, content);
    if AnyMatch(lines, title, filename) {
      var i :| 0 <= i < |lines| && Matches(lines[i], title, filename);
      assert lines'[i] in lines';
    } else {
      assert lines'[|lines|] in lines';
    }
    forall line | line in lines' && Matches(line, title, filename)
      ensures IsRowFor(line, title, filename)
    {
      var i :| 0 <= i < |lines'| && lines'[i] == line;
      if !AnyMatch(lines, title, filename) {
        assert i == |lines|;
      }
    }
  }

  lemma {:induction false} KeepRowsAppend(a: seq<string>, b: seq<string>, filename: string)
    ensures KeepRows(a + b, filename) == KeepRows(a, filename) + KeepRows(b, filename)
  {
    hide LineTarget;
    if |a| == 0 {
      assert a + b == b;
    } else {
      KeepRowsAppend(a[1..], b, filename);
      assert (a + b)[1..] == a[1..] + b;
      ConcatAssoc([a[0]], KeepRows(a[1..], filename), KeepRows(b, filename));
    }
  }

  lemma {:induction false} KeepRowsAll(lines: seq<string>, filename: string)
    requires forall line <- lines :: !Targets(line, filename)
    ensures KeepRows(lines, filename) == lines
  {
    if |lines| > 0 {
      KeepRowsAll(lines[1..], filename);
    }
  }

  /** Removal undoes a fresh append, byte for byte, on any non-empty index. */
  lemma RemovalUndoesAppend(title: string, filename: string, content: string, text: string)
    requires IsEntryFilename(filename) && LineClosed(text) && text != ""
    requires !AnyMatch(SplitLines(text), title, filename)
    ensures RemovedText(UpdatedText(title, filename, content, text), filename) == text
  {
    var lines := SplitLines(text);
    var row := Row(title, filename, content);
    UpdateRefinesLines(title, filename, content, text);
    forall line | line in lines ensures !Targets(line, filename) {
      var i :| 0 <= i < |lines| && lines[i] == line;
      assert !Matches(lines[i], title, filename);
    }
    KeepRowsAppend(lines, [row], filename);
    KeepRowsAll(lines, filename);
    assert KeepRows([row], filename) == [] by { RowScansBack(title, filename, content); }
    assert lines + [] == lines;
    JoinClosedByLF(lines);
  }

  lemma {:induction false} KeepRowsNoLonger(lines: seq<string>, filename: string)
    ensures Utf8Length(CloseLines(KeepRows(lines, filename))) <= Utf8Length(CloseLines(lines))
  {
    if |lines| > 0 {
      var rest := KeepRows(lines[1..], filename);
      KeepRowsNoLonger(lines[1..], filename);
      Utf8LengthConcat(lines[0] + "\n", CloseLines(lines[1..]));
      Utf8LengthConcat(lines[0] + "\n", CloseLines(rest));
    }
  }

  /** A deletion's index rewrite, rendered after the entry is already gone, never trips the size limit. */
  lemma RemovalNeverTooLarge(text: string, filename: string)
    requires LineClosed(text) && Utf8Length(text) <= MAX_INDEX_BYTES
    ensures WithinLimit(RemovedText(text, filename)).Some?
  {
    var lines := SplitLines(text);
    var kept := KeepRows(lines, filename);
    KeepRowsNoLonger(lines, filename);
    if kept == [] {
      assert RemovedText(text, filename) == "\n";
      assert Utf8Length("\n") == 1;
    } else {
      JoinClosedByLF(kept);
    }
  }
}
