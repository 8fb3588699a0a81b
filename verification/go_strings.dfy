/**
 * The few functions of Go's `strings` package that the program relies on,
 * stated over `string` (a sequence of characters), with the facts about them
 * that the rest of the model uses.
 */
module GoStrings {

  /** Whether `s` begins with `prefix`; used to say which lines the version output holds. */
  predicate HasPrefix(s: string, prefix: string) {
    |prefix| <= |s| && s[..|prefix|] == prefix
  }

  /** strings.HasSuffix: whether `s` is some text followed by `suffix`. */
  predicate HasSuffix(s: string, suffix: string): (b: bool)
    ensures b <==> exists front :: s == front + suffix
  {
    if |suffix| <= |s| && s[|s| - |suffix|..] == suffix then
      assert s == s[..|s| - |suffix|] + suffix;
      true
    else
      false
  }

  /** The number of occurrences of the character `c` in `s`. */
  function Count(s: string, c: char): (n: nat)
    ensures n <= |s|
    ensures n == 0 <==> c !in s
  {
    if s == [] then 0
    else (if s[0] == c then 1 else 0) + Count(s[1..], c)
  }

  /** True when `s` holds a carriage return immediately followed by a line feed. */
  predicate HasCRLF(s: string) {
    exists i :: 0 <= i < |s| - 1 && s[i] == '\r' && s[i + 1] == '\n'
  }

  /**
   * strings.ReplaceAll(s, "\r\n", "\n"): one left-to-right pass that replaces
   * every non-overlapping "\r\n" by "\n". Characters produced by a replacement
   * are not looked at again, so "\r\r\n" becomes "\r\n".
   */
  function ReplaceCRLF(s: string): (r: string)
    ensures |r| <= |s|
    decreases |s|
  {
    if |s| >= 2 && s[0] == '\r' && s[1] == '\n' then
      "\n" + ReplaceCRLF(s[2..])
    else if s == [] then
      []
    else
      [s[0]] + ReplaceCRLF(s[1..])
  }

  /** The replacement shortens the text exactly when the text holds a "\r\n". */
  lemma {:induction false} ReplaceCRLFShortens(s: string)
    ensures |ReplaceCRLF(s)| < |s| <==> HasCRLF(s)
    decreases |s|
  {
    if |s| >= 2 && s[0] == '\r' && s[1] == '\n' {
      assert HasCRLF(s) by { assert s[0] == '\r' && s[0 + 1] == '\n'; }
    } else if s != [] {
      ReplaceCRLFShortens(s[1..]);
      assert HasCRLF(s[1..]) ==> HasCRLF(s) by {
        if HasCRLF(s[1..]) {
          var i :| 0 <= i < |s[1..]| - 1 && s[1..][i] == '\r' && s[1..][i + 1] == '\n';
          assert s[i + 1] == '\r' && s[i + 1 + 1] == '\n';
        }
      }
      assert HasCRLF(s) ==> HasCRLF(s[1..]) by {
        if HasCRLF(s) {
          var i :| 0 <= i < |s| - 1 && s[i] == '\r' && s[i + 1] == '\n';
          assert i != 0;
          assert s[1..][i - 1] == '\r' && s[1..][i - 1 + 1] == '\n';
        }
      }
    }
  }

  /**
   * strings.Split(s, sep) for a one-character separator: the pieces between
   * successive separators, empty pieces included, so there is always one more
   * piece than there are separators.
   */
  function Split(s: string, sep: char): (parts: seq<string>)
    ensures |parts| == Count(s, sep) + 1
    ensures forall i :: 0 <= i < |parts| ==> sep !in parts[i]
    decreases |s|
  {
    if s == [] then
      [""]
    else
      var rest := Split(s[1..], sep);
      if s[0] == sep then [""] + rest
      else [[s[0]] + rest[0]] + rest[1..]
  }

  /** strings.Join(parts, sep) for a non-empty list of parts. */
  function Join(parts: seq<string>, sep: string): (s: string)
    requires |parts| > 0
  {
    if |parts| == 1 then parts[0]
    else parts[0] + sep + Join(parts[1..], sep)
  }

  /** Concatenation regrouped. */
  lemma Regroup(x: string, y: string, z: string)
    ensures x + (y + z) == x + y + z
  {
  }

  /** Join unfolded once from the front. */
  lemma JoinPrepend(p: string, parts: seq<string>, sep: string)
    requires |parts| > 0
    ensures Join([p] + parts, sep) == p + sep + Join(parts, sep)
  {
    assert ([p] + parts)[1..] == parts;
  }

  /** Joining the pieces of a split with the separator gives back the text. */
  lemma {:induction false} JoinSplit(s: string, sep: char)
    ensures Join(Split(s, sep), [sep]) == s
    decreases |s|
  {
    if s != [] {
      var rest := Split(s[1..], sep);
      JoinSplit(s[1..], sep);
      assert s == [s[0]] + s[1..];
      if s[0] == sep {
        JoinPrepend("", rest, [sep]);
      } else if |rest| > 1 {
        var parts, r0 := Split(s, sep), rest[0];
        assert parts == [[s[0]] + r0] + rest[1..];
        assert rest == [r0] + rest[1..];
        JoinPrepend([s[0]] + r0, rest[1..], [sep]);
        JoinPrepend(r0, rest[1..], [sep]);
        Regroup([s[0]], r0, [sep]);
        Regroup([s[0]], r0 + [sep], Join(rest[1..], [sep]));
      }
    }
  }

  /** A separator at the end of the text adds one empty piece. */
  lemma {:induction false} SplitAppendSeparator(s: string, sep: char)
    ensures Split(s + [sep], sep) == Split(s, sep) + [""]
    decreases |s|
  {
    if s == [] {
      assert ([sep] + [])[1..] == [];
    } else {
      assert (s + [sep])[1..] == s[1..] + [sep];
      SplitAppendSeparator(s[1..], sep);
    }
  }

  /** A text without the separator is a single piece. */
  lemma {:induction false} SplitWithoutSeparator(s: string, sep: char)
    requires sep !in s
    ensures Split(s, sep) == [s]
    decreases |s|
  {
    if s != [] {
      SplitWithoutSeparator(s[1..], sep);
      assert s == [s[0]] + s[1..];
    }
  }

  /** Splitting `x + sep + y`, where `x` has no separator, gives `x` and then the pieces of `y`. */
  lemma {:induction false} SplitAfterFirst(x: string, sep: char, y: string)
    requires sep !in x
    ensures Split(x + [sep] + y, sep) == [x] + Split(y, sep)
    decreases |x|
  {
    var s := x + [sep] + y;
    if x == [] {
      assert s[1..] == y;
    } else {
      assert s[1..] == x[1..] + [sep] + y;
      SplitAfterFirst(x[1..], sep, y);
      assert [x[0]] + x[1..] == x;
    }
  }

  /** Splitting a join gives back the parts, provided no part holds the separator. */
  lemma {:induction false} SplitJoin(parts: seq<string>, sep: char)
    requires |parts| > 0
    requires forall i :: 0 <= i < |parts| ==> sep !in parts[i]
    ensures Split(Join(parts, [sep]), sep) == parts
    decreases |parts|
  {
    if |parts| == 1 {
      SplitWithoutSeparator(parts[0], sep);
    } else {
      SplitJoin(parts[1..], sep);
      SplitAfterFirst(parts[0], sep, Join(parts[1..], [sep]));
      assert parts == [parts[0]] + parts[1..];
    }
  }

  /** A "\r\n" at the front becomes "\n". */
  lemma ReplaceCRLFPair(t: string)
    ensures ReplaceCRLF("\r\n" + t) == "\n" + ReplaceCRLF(t)
  {
    assert ("\r\n" + t)[2..] == t;
  }

  /** A character at the front that does not start a "\r\n" is kept. */
  lemma ReplaceCRLFCons(c: char, t: string)
    requires !(c == '\r' && |t| > 0 && t[0] == '\n')
    ensures ReplaceCRLF([c] + t) == [c] + ReplaceCRLF(t)
  {
    assert ([c] + t)[1..] == t;
  }

  /**
   * ReplaceCRLF distributes over a concatenation unless the first half ends
   * with '\r' and the second begins with '\n' (a pair the cut would split).
   */
  lemma {:induction false} ReplaceCRLFAppend(a: string, b: string)
    requires !SplitsPair(a, b)
    ensures ReplaceCRLF(a + b) == ReplaceCRLF(a) + ReplaceCRLF(b)
    decreases |a|, 1
  {
    if a == [] {
      assert a + b == b;
    } else if |a| >= 2 && a[0] == '\r' && a[1] == '\n' {
      AppendAfterPair(a[2..], b);
      assert a == "\r\n" + a[2..];
    } else {
      AppendAfterChar(a[0], a[1..], b);
      assert a == [a[0]] + a[1..];
    }
  }

  /** The cut between `a` and `b` falls between a '\r' and a '\n'. */
  predicate SplitsPair(a: string, b: string) {
    |a| > 0 && a[|a| - 1] == '\r' && |b| > 0 && b[0] == '\n'
  }

  lemma {:induction false} AppendAfterPair(a: string, b: string)
    requires !SplitsPair(a, b)
    ensures ReplaceCRLF("\r\n" + a + b) == ReplaceCRLF("\r\n" + a) + ReplaceCRLF(b)
    decreases |a| + 2, 0
  {
    ReplaceCRLFAppend(a, b);
    assert "\r\n" + a + b == "\r\n" + (a + b);
    ReplaceCRLFPair(a + b);
    ReplaceCRLFPair(a);
    Regroup("\n", ReplaceCRLF(a), ReplaceCRLF(b));
  }

  lemma {:induction false} AppendAfterChar(c: char, a: string, b: string)
    requires !(c == '\r' && |a| > 0 && a[0] == '\n')
    requires !SplitsPair([c] + a, b)
    ensures ReplaceCRLF([c] + a + b) == ReplaceCRLF([c] + a) + ReplaceCRLF(b)
    decreases |a| + 1, 0
  {
    assert !SplitsPair(a, b);
    ReplaceCRLFAppend(a, b);
    assert [c] + a + b == [c] + (a + b);
    assert |a| > 0 ==> (a + b)[0] == a[0];
    ReplaceCRLFCons(c, a + b);
    ReplaceCRLFCons(c, a);
    Regroup([c], ReplaceCRLF(a), ReplaceCRLF(b));
  }

  /** A text with no carriage return followed by a line feed is left as it is. */
  lemma {:induction false} ReplaceCRLFFixed(s: string)
    requires !HasCRLF(s)
    ensures ReplaceCRLF(s) == s
    decreases |s|
  {
    if s != [] {
      assert !(s[0] == '\r' && |s| >= 2 && s[1] == '\n');
      ReplaceCRLFFixed(s[1..]);
      assert s == [s[0]] + s[1..];
    }
  }

  /** Replacing "\r\n" by "\n" keeps the number of line feeds. */
  lemma {:induction false} ReplaceCRLFKeepsLineFeeds(s: string)
    ensures Count(ReplaceCRLF(s), '\n') == Count(s, '\n')
    decreases |s|
  {
    if |s| >= 2 && s[0] == '\r' && s[1] == '\n' {
      ReplaceCRLFKeepsLineFeeds(s[2..]);
      assert ("\n" + ReplaceCRLF(s[2..]))[1..] == ReplaceCRLF(s[2..]);
      assert s[1..][1..] == s[2..];
    } else if s != [] {
      ReplaceCRLFKeepsLineFeeds(s[1..]);
      assert ([s[0]] + ReplaceCRLF(s[1..]))[1..] == ReplaceCRLF(s[1..]);
    }
  }
}
