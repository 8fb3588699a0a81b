/**
 * The text Program.Run writes when the -version flag is set: three fixed
 * lines (version, commit, date) and, only when the module version is known,
 * two more lines for the module version and its checksum.
 */
module Version {
  import opened GoStrings

  /** The output of the -version branch of Run: it opens with the version line and ends with a line feed. */
  function VersionText(version: string, commit: string, date: string, modVersion: string, modSum: string): (text: string)
    ensures HasPrefix(text, "Version: " + version + "\n")
    ensures |text| > 0 && text[|text| - 1] == '\n'
  {
    var out := "Version: " + version + "\n" + "Commit: " + commit + "\n" + "Date: " + date + "\n";
    if modVersion != "" then
      out + "Module Version: " + modVersion + "\n" + "Module Checksum: " + modSum + "\n"
    else
      out
  }

  /** The lines of the version output: the three build lines, then the two module lines when there is a module version. */
  function VersionLines(version: string, commit: string, date: string, modVersion: string, modSum: string): (lines: seq<string>)
    ensures |lines| == if modVersion != "" then 5 else 3
  {
    ["Version: " + version, "Commit: " + commit, "Date: " + date]
    + (if modVersion != "" then ["Module Version: " + modVersion, "Module Checksum: " + modSum] else [])
  }

  /** A value that fits on one output line. */
  predicate OneLine(s: string) {
    '\n' !in s
  }

  /** Three lines and a tail, joined by '\n'. */
  lemma JoinThree(l0: string, l1: string, l2: string, tail: seq<string>)
    requires |tail| > 0
    ensures Join([l0, l1, l2] + tail, "\n") == l0 + "\n" + (l1 + "\n" + (l2 + "\n" + Join(tail, "\n")))
  {
    JoinPrepend(l2, tail, "\n");
    JoinPrepend(l1, [l2] + tail, "\n");
    JoinPrepend(l0, [l1] + ([l2] + tail), "\n");
    assert [l0] + ([l1] + ([l2] + tail)) == [l0, l1, l2] + tail;
  }

  /** The first three lines of the version output, each ended by '\n', followed by `rest`. */
  lemma BuildLines(version: string, commit: string, date: string, rest: string)
    ensures "Version: " + version + "\n" + "Commit: " + commit + "\n" + "Date: " + date + "\n" + rest
         == ("Version: " + version) + "\n" + (("Commit: " + commit) + "\n" + (("Date: " + date) + "\n" + rest))
  {
    var s0, l1, l2 := "Version: " + version + "\n", "Commit: " + commit, "Date: " + date;
    var s1, s2 := l1 + "\n", l2 + "\n";
    Regroup(s0, "Commit: ", commit);
    Regroup(s0, l1, "\n");
    Regroup(s0 + s1, "Date: ", date);
    Regroup(s0 + s1, l2, "\n");
    Regroup(s0, s1, s2);
    Regroup(s0, s1 + s2, rest);
    Regroup(s1, s2, rest);
    Regroup(l2, "\n", rest);
    Regroup(l1, "\n", s2 + rest);
    Regroup("Version: " + version, "\n", s1 + (s2 + rest));
  }

  /** The version output is its lines joined by '\n', ended by one more '\n'. */
  lemma VersionTextIsJoin(version: string, commit: string, date: string, modVersion: string, modSum: string)
    ensures VersionText(version, commit, date, modVersion, modSum)
         == Join(VersionLines(version, commit, date, modVersion, modSum) + [""], "\n")
  {
    var l0, l1, l2 := "Version: " + version, "Commit: " + commit, "Date: " + date;
    var l3, l4 := "Module Version: " + modVersion, "Module Checksum: " + modSum;
    var tail := if modVersion != "" then [l3, l4, ""] else [""];
    var rest := if modVersion != "" then l3 + "\n" + (l4 + "\n" + "") else "";
    assert Join(tail, "\n") == rest by {
      if modVersion != "" {
        JoinPrepend(l4, [""], "\n");
        JoinPrepend(l3, [l4, ""], "\n");
        assert [l3] + [l4, ""] == [l3, l4, ""];
      }
    }
    assert VersionText(version, commit, date, modVersion, modSum)
        == "Version: " + version + "\n" + "Commit: " + commit + "\n" + "Date: " + date + "\n" + rest by {
      if modVersion != "" {
        var out := "Version: " + version + "\n" + "Commit: " + commit + "\n" + "Date: " + date + "\n";
        Regroup(out, "Module Version: ", modVersion);
        Regroup(out, l3, "\n");
        Regroup(out + l3 + "\n", "Module Checksum: ", modSum);
        Regroup(out + l3 + "\n", l4, "\n");
        Regroup(out, l3 + "\n", l4 + "\n");
        Regroup(l3, "\n", l4 + "\n" + "");
      }
    }
    BuildLines(version, commit, date, rest);
    JoinThree(l0, l1, l2, tail);
    assert VersionLines(version, commit, date, modVersion, modSum) + [""] == [l0, l1, l2] + tail;
  }

  /**
   * Read back line by line, the version output is exactly VersionLines, each
   * line ended by '\n' (hence the final empty piece).
   */
  lemma VersionTextLines(version: string, commit: string, date: string, modVersion: string, modSum: string)
    requires OneLine(version) && OneLine(commit) && OneLine(date) && OneLine(modVersion) && OneLine(modSum)
    ensures Split(VersionText(version, commit, date, modVersion, modSum), '\n')
         == VersionLines(version, commit, date, modVersion, modSum) + [""]
  {
    var lines := VersionLines(version, commit, date, modVersion, modSum) + [""];
    VersionTextIsJoin(version, commit, date, modVersion, modSum);
    assert forall i :: 0 <= i < |lines| ==> '\n' !in lines[i];
    SplitJoin(lines, '\n');
  }

  /** No build line begins like a module line. */
  lemma BuildLinesAreNotModuleLines(version: string, commit: string, date: string, prefix: string)
    requires HasPrefix(prefix, "Module ")
    ensures !HasPrefix("Version: " + version, prefix)
    ensures !HasPrefix("Commit: " + commit, prefix)
    ensures !HasPrefix("Date: " + date, prefix)
    ensures !HasPrefix("", prefix)
  {
    assert prefix[0] == 'M';
    assert ("Version: " + version)[0] == 'V';
    assert ("Commit: " + commit)[0] == 'C';
    assert ("Date: " + date)[0] == 'D';
  }

  /** Among the lines of the version output, the module lines are there exactly when the module version is not empty. */
  lemma ModuleLinesInVersionLines(version: string, commit: string, date: string, modVersion: string, modSum: string)
    ensures var lines := VersionLines(version, commit, date, modVersion, modSum) + [""];
      && ((exists i :: 0 <= i < |lines| && HasPrefix(lines[i], "Module Version: ")) <==> modVersion != "")
      && ((exists i :: 0 <= i < |lines| && HasPrefix(lines[i], "Module Checksum: ")) <==> modVersion != "")
  {
    var lines := VersionLines(version, commit, date, modVersion, modSum) + [""];
    if modVersion != "" {
      assert lines[3] == "Module Version: " + modVersion;
      assert HasPrefix(lines[3], "Module Version: ");
      assert lines[4] == "Module Checksum: " + modSum;
      assert HasPrefix(lines[4], "Module Checksum: ");
    } else {
      assert lines == ["Version: " + version, "Commit: " + commit, "Date: " + date, ""];
      BuildLinesAreNotModuleLines(version, commit, date, "Module Version: ");
      BuildLinesAreNotModuleLines(version, commit, date, "Module Checksum: ");
    }
  }

  /**
   * The output shows a "Module Version" line and a "Module Checksum" line
   * exactly when the module version is not empty, and has three or five
   * lines accordingly.
   */
  lemma ModuleLinesOnlyWithModVersion(version: string, commit: string, date: string, modVersion: string, modSum: string)
    requires OneLine(version) && OneLine(commit) && OneLine(date) && OneLine(modVersion) && OneLine(modSum)
    ensures var lines := Split(VersionText(version, commit, date, modVersion, modSum), '\n');
      && |lines| == (if modVersion != "" then 6 else 4)
      && ((exists i :: 0 <= i < |lines| && HasPrefix(lines[i], "Module Version: ")) <==> modVersion != "")
      && ((exists i :: 0 <= i < |lines| && HasPrefix(lines[i], "Module Checksum: ")) <==> modVersion != "")
  {
    VersionTextLines(version, commit, date, modVersion, modSum);
    ModuleLinesInVersionLines(version, commit, date, modVersion, modSum);
  }
}
