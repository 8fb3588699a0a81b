/**
 * Program.splitLines: the way piped input that is not a diff is turned into
 * a list of requested file names. Windows line endings are first turned into
 * '\n', then the text is cut at every '\n'. Empty lines are kept, so a
 * trailing newline gives a trailing "".
 */
module Lines {
  import opened GoStrings

  /** Replace every "\r\n" by "\n" in one pass, then cut the text at every '\n'. */
  function SplitLines(text: string): (lines: seq<string>)
    ensures |lines| == Count(text, '\n') + 1
    ensures forall i :: 0 <= i < |lines| ==> '\n' !in lines[i]
  {
    ReplaceCRLFKeepsLineFeeds(text);
    Split(ReplaceCRLF(text), '\n')
  }

  /** Joining the lines with "\n" gives back the text with every "\r\n" replaced by "\n". */
  lemma SplitLinesJoin(text: string)
    ensures Join(SplitLines(text), "\n") == ReplaceCRLF(text)
  {
    JoinSplit(ReplaceCRLF(text), '\n');
  }

  /** The input without a single line feed is one line, and the empty input is one empty line. */
  lemma SplitLinesSingle(text: string)
    requires '\n' !in text
    ensures SplitLines(text) == [text]
  {
    ReplaceCRLFFixed(text);
    SplitWithoutSeparator(text, '\n');
  }

  /** Lines with no line feed, joined by "\r\n", are the lines read back. */
  lemma {:induction false} SplitLinesOfCRLFText(lines: seq<string>)
    requires |lines| > 0
    requires forall i :: 0 <= i < |lines| ==> '\n' !in lines[i]
    ensures SplitLines(Join(lines, "\r\n")) == lines
  {
    ReplaceCRLFJoin(lines);
    SplitJoin(lines, '\n');
  }

  lemma {:induction false} ReplaceCRLFJoin(lines: seq<string>)
    requires |lines| > 0
    requires forall i :: 0 <= i < |lines| ==> '\n' !in lines[i]
    ensures ReplaceCRLF(Join(lines, "\r\n")) == Join(lines, "\n")
    decreases |lines|
  {
    ReplaceCRLFFixed(lines[0]);
    if |lines| > 1 {
      var head, rest := lines[0], Join(lines[1..], "\r\n");
      var tail := "\r\n" + rest;
      assert Join(lines, "\r\n") == head + tail;
      assert ReplaceCRLF(tail) == "\n" + Join(lines[1..], "\n") by {
        ReplaceCRLFJoin(lines[1..]);
        assert tail[0] == '\r' && tail[1] == '\n' && tail[2..] == rest;
      }
      ReplaceCRLFAppend(head, tail);
    }
  }

  /**
   * Lines with no line feed, joined by "\n", are the lines read back, provided
   * no line but the last ends in '\r' (that '\r' and the following '\n' would
   * be read as one Windows line ending).
   */
  lemma {:induction false} SplitLinesOfLFText(lines: seq<string>)
    requires |lines| > 0
    requires forall i :: 0 <= i < |lines| ==> '\n' !in lines[i]
    requires forall i :: 0 <= i < |lines| - 1 ==> !HasSuffix(lines[i], "\r")
    ensures SplitLines(Join(lines, "\n")) == lines
  {
    ReplaceCRLFJoinLF(lines);
    SplitJoin(lines, '\n');
  }

  lemma {:induction false} ReplaceCRLFJoinLF(lines: seq<string>)
    requires |lines| > 0
    requires forall i :: 0 <= i < |lines| ==> '\n' !in lines[i]
    requires forall i :: 0 <= i < |lines| - 1 ==> !HasSuffix(lines[i], "\r")
    ensures ReplaceCRLF(Join(lines, "\n")) == Join(lines, "\n")
    decreases |lines|
  {
    ReplaceCRLFFixed(lines[0]);
    if |lines| > 1 {
      var head, rest := lines[0], Join(lines[1..], "\n");
      var tail := "\n" + rest;
      assert Join(lines, "\n") == head + tail;
      assert ReplaceCRLF(tail) == tail by {
        ReplaceCRLFJoinLF(lines[1..]);
        assert tail[0] == '\n' && tail[1..] == rest;
      }
      assert !(|head| > 0 && head[|head| - 1] == '\r') by {
        assert !HasSuffix(head, "\r");
        assert |head| > 0 ==> head[|head| - 1..] == [head[|head| - 1]];
      }
      ReplaceCRLFAppend(head, tail);
    }
  }

  /**
   * A trailing newline adds one empty line at the end; when the text already
   * ended in '\r', that '\r' and the new '\n' form one Windows line ending.
   */
  lemma SplitLinesTrailingNewline(text: string)
    ensures !HasSuffix(text, "\r") ==> SplitLines(text + "\n") == SplitLines(text) + [""]
    ensures HasSuffix(text, "\r") ==> SplitLines(text + "\n") == SplitLines(text[..|text| - 1]) + [""]
  {
    if HasSuffix(text, "\r") {
      var t := text[..|text| - 1];
      assert text + "\n" == t + "\r\n";
      ReplaceCRLFAppend(t, "\r\n");
      assert "\r\n"[2..] == [];
      assert ReplaceCRLF("\r\n") == "\n";
      SplitAppendSeparator(ReplaceCRLF(t), '\n');
    } else {
      assert |text| > 0 ==> text[|text| - 1..] == [text[|text| - 1]];
      ReplaceCRLFAppend(text, "\n");
      assert ReplaceCRLF("\n") == "\n";
      SplitAppendSeparator(ReplaceCRLF(text), '\n');
    }
  }

  /**
   * A line that ends in "\r\r\n" keeps one '\r': the replacement is a single
   * pass, so the text produced by a replacement is not looked at again.
   */
  lemma SplitLinesSinglePass()
    ensures SplitLines("a\r\r\n") == ["a\r", ""]
  {
    var s := "a\r\r\n";
    assert s[2..][2..] == [];
    assert ReplaceCRLF(s[2..]) == "\n";
    assert ReplaceCRLF(s[1..]) == "\r\n" by {
      assert s[1..][1..] == s[2..];
    }
    assert ReplaceCRLF(s) == "a\r\n" by {
      assert s[1..] == "\r\r\n";
    }
    SplitAfterFirst("a\r", '\n', "");
    assert "a\r" + "\n" + "" == "a\r\n";
  }

  /** Plain file names, one per line, are read back in order; empty input is one empty name. */
  lemma SplitLinesFileList()
    ensures SplitLines("x.go\ny.go") == ["x.go", "y.go"]
    ensures SplitLines("") == [""]
  {
    assert SplitLines("x.go\ny.go") == ["x.go", "y.go"] by {
      assert Join(["x.go", "y.go"], "\n") == "x.go\ny.go" by {
        JoinPrepend("x.go", ["y.go"], "\n");
        assert ["x.go"] + ["y.go"] == ["x.go", "y.go"];
      }
      SplitLinesOfLFText(["x.go", "y.go"]);
    }
    SplitLinesSingle("");
  }
}
