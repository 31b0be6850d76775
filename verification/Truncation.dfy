/** `_cut_lines_to_budget` of src/graphify_daemon/graph_query_api/tools.py. */
module Truncation {

  /** The text returned, in parts: everything, a single line cut short, or whole counts around what was kept. */
  datatype Cut =
    | Whole(text: string)
    | LineTooLong(budget: int, hint: string, kept: string)
    | LinesCut(shown: int, total: int, budget: int, hint: string, kept: string, cutCount: int)

  /** `"\n".join(lines)`. */
  function Join(lines: seq<string>): string {
    if |lines| == 0 then ""
    else if |lines| == 1 then lines[0]
    else Join(lines[..|lines| - 1]) + "\n" + lines[|lines| - 1]
  }

  /** `s[:n]`, where a negative `n` counts from the end. */
  function Head(s: string, n: int): string {
    if n >= |s| then s else if n >= 0 then s[..n] else if |s| + n >= 0 then s[..|s| + n] else ""
  }

  /** `s.rfind("\n")`. */
  function RFind(s: string): (r: int)
    ensures -1 <= r < |s|
    ensures r >= 0 ==> s[r] == '\n'
    ensures forall i :: r < i < |s| ==> s[i] != '\n'
  {
    if |s| == 0 then -1
    else if s[|s| - 1] == '\n' then |s| - 1
    else RFind(s[..|s| - 1])
  }

  /** `s.count("\n")`. */
  function CountNewlines(s: string): nat {
    if |s| == 0 then 0 else CountNewlines(s[..|s| - 1]) + if s[|s| - 1] == '\n' then 1 else 0
  }

  /** What is kept of a text that is too long: up to the last newline after its start, or else the whole budget. */
  function Kept(output: string, charBudget: int): string {
    var found := RFind(Head(output, charBudget));
    Head(output, if found > 0 then found else charBudget)
  }

  function CutLinesToBudget(lines: seq<string>, tokenBudget: int, hint: string): Cut {
    var output := Join(lines);
    var charBudget := tokenBudget * 3;
    if lines == [] || |output| <= charBudget then Whole(output)
    else
      var kept := Kept(output, charBudget);
      var shown := CountNewlines(kept) + 1;
      var cutCount := |lines| - shown;
      if cutCount == 0 && kept != Join(lines[..shown]) then LineTooLong(tokenBudget, hint, kept)
      else LinesCut(shown, |lines|, tokenBudget, hint, kept, cutCount)
  }

  ghost predicate OneLine(s: string) {
    forall j :: 0 <= j < |s| ==> s[j] != '\n'
  }

  ghost predicate NewlineFree(lines: seq<string>) {
    forall i :: 0 <= i < |lines| ==> OneLine(lines[i])
  }

  lemma {:induction false} CountConcat(a: string, b: string)
    ensures CountNewlines(a + b) == CountNewlines(a) + CountNewlines(b)
  {
    if |b| == 0 {
      assert a + b == a;
    } else {
      assert (a + b)[..|a + b| - 1] == a + b[..|b| - 1];
      CountConcat(a, b[..|b| - 1]);
    }
  }

  lemma {:induction false} CountNone(s: string)
    requires OneLine(s)
    ensures CountNewlines(s) == 0
  {
    if |s| > 0 {
      CountNone(s[..|s| - 1]);
    }
  }

  lemma {:induction false} CountJoin(lines: seq<string>)
    requires NewlineFree(lines) && |lines| > 0
    ensures CountNewlines(Join(lines)) == |lines| - 1
  {
    var last := lines[|lines| - 1];
    CountNone(last);
    if |lines| > 1 {
      CountJoin(lines[..|lines| - 1]);
      CountConcat(Join(lines[..|lines| - 1]), "\n");
      CountConcat(Join(lines[..|lines| - 1]) + "\n", last);
    }
  }

  /** The first `k` lines are a prefix of the join, and a newline follows them unless they are all. */
  lemma {:induction false} JoinPrefix(lines: seq<string>, k: nat)
    requires 0 < k <= |lines|
    ensures Join(lines[..k]) <= Join(lines)
    ensures k < |lines| ==> |Join(lines[..k])| < |Join(lines)| && Join(lines)[|Join(lines[..k])|] == '\n'
  {
    if k == |lines| {
      assert lines[..k] == lines;
    } else {
      var init := lines[..|lines| - 1];
      JoinPrefix(init, k);
      assert init[..k] == lines[..k];
      assert Join(lines) == Join(init) + "\n" + lines[|lines| - 1];
    }
  }

  /** Every newline of the join ends the first `k` lines, for some `k`. */
  lemma {:induction false} NewlineEndsLines(lines: seq<string>, at: nat) returns (k: nat)
    requires NewlineFree(lines) && at < |Join(lines)| && Join(lines)[at] == '\n'
    ensures 0 < k < |lines| && |Join(lines[..k])| == at
  {
    var init := lines[..|lines| - 1];
    assert OneLine(lines[|lines| - 1]);
    if |lines| > 1 && at < |Join(init)| {
      k := NewlineEndsLines(init, at);
      assert init[..k] == lines[..k];
    } else {
      k := |lines| - 1;
    }
  }

  lemma {:induction false} CountPrefix(s: string, n: nat)
    requires n <= |s|
    ensures CountNewlines(s[..n]) <= CountNewlines(s)
  {
    CountConcat(s[..n], s[n..]);
    assert s == s[..n] + s[n..];
  }

  predicate IsCut(c: Cut) { !c.Whole? }

  /** A text that is cut keeps a prefix of the join within the character budget. */
  lemma KeepsAPrefix(lines: seq<string>, tokenBudget: int, hint: string)
    requires tokenBudget >= 1
    ensures var c := CutLinesToBudget(lines, tokenBudget, hint);
      && (c.Whole? <==> lines == [] || |Join(lines)| <= 3 * tokenBudget)
      && (c.Whole? ==> c.text == Join(lines))
      && (IsCut(c) ==> c.kept <= Join(lines) && 0 < |c.kept| <= 3 * tokenBudget)
  {
  }

  /** A cut at a newline keeps exactly the first `shown` lines, and with one more line the text would reach the
      budget; a cut with no newline to cut at keeps exactly the budget. */
  lemma CutsAtALineBoundary(lines: seq<string>, tokenBudget: int, hint: string)
    requires tokenBudget >= 1 && NewlineFree(lines) && IsCut(CutLinesToBudget(lines, tokenBudget, hint))
    ensures var c := CutLinesToBudget(lines, tokenBudget, hint);
      var found := RFind(Head(Join(lines), 3 * tokenBudget));
      if found > 0 then
        && c.LinesCut? && 0 < c.shown < |lines|
        && c.kept == Join(lines[..c.shown])
        && |Join(lines[..c.shown + 1])| >= 3 * tokenBudget
      else |c.kept| == 3 * tokenBudget
  {
    var found := RFind(Head(Join(lines), 3 * tokenBudget));
    if found > 0 {
      var k := NewlineEndsLines(lines, found);
      CutAfter(lines, tokenBudget, hint, k);
      OneMoreLineReaches(lines, k, 3 * tokenBudget);
    } else {
      KeptMidLine(Join(lines), 3 * tokenBudget);
    }
  }

  lemma KeptMidLine(output: string, limit: nat)
    requires |output| > limit && RFind(Head(output, limit)) <= 0
    ensures |Kept(output, limit)| == limit
  {
  }

  lemma KeptLines(lines: seq<string>, limit: nat, k: nat)
    requires 0 < k < |lines| && 0 < RFind(Head(Join(lines), limit)) == |Join(lines[..k])|
    ensures Kept(Join(lines), limit) == Join(lines[..k])
  {
    JoinPrefix(lines, k);
  }

  lemma CutAfter(lines: seq<string>, tokenBudget: int, hint: string, k: nat)
    requires tokenBudget >= 1 && NewlineFree(lines) && IsCut(CutLinesToBudget(lines, tokenBudget, hint))
    requires 0 < k < |lines| && 0 < RFind(Head(Join(lines), 3 * tokenBudget)) == |Join(lines[..k])|
    ensures CutLinesToBudget(lines, tokenBudget, hint) ==
            LinesCut(k, |lines|, tokenBudget, hint, Join(lines[..k]), |lines| - k)
  {
    KeptLines(lines, 3 * tokenBudget, k);
    CountJoin(lines[..k]);
  }

  /** The newline that ends line `k` is the last one before `limit`, so line `k + 1` ends at or after it. */
  lemma OneMoreLineReaches(lines: seq<string>, k: nat, limit: nat)
    requires 0 < k < |lines| && limit < |Join(lines)|
    requires RFind(Join(lines)[..limit]) == |Join(lines[..k])|
    ensures |Join(lines[..k + 1])| >= limit
  {
    LongerJoin(lines, k);
    if k + 1 < |lines| {
      JoinPrefix(lines, k + 1);
      forall i | |Join(lines[..k])| < i < limit
        ensures Join(lines)[i] != '\n'
      {
        assert Join(lines)[..limit][i] != '\n';
      }
    } else {
      assert lines[..k + 1] == lines;
    }
  }

  lemma LongerJoin(lines: seq<string>, k: nat)
    requires 0 < k < |lines|
    ensures |Join(lines[..k])| < |Join(lines[..k + 1])|
  {
    assert lines[..k + 1][..k] == lines[..k];
  }

  /** The message with counts always adds up, and never says that no line was cut; the other message is given
      exactly when the kept text has as many lines as there are. */
  lemma NeverSaysZeroLinesCut(lines: seq<string>, tokenBudget: int, hint: string)
    requires tokenBudget >= 1 && NewlineFree(lines) && IsCut(CutLinesToBudget(lines, tokenBudget, hint))
    ensures var c := CutLinesToBudget(lines, tokenBudget, hint);
      && (c.LinesCut? ==> c.shown >= 1 && c.cutCount >= 1 && c.shown + c.cutCount == c.total == |lines|)
      && (c.LineTooLong? <==> CountNewlines(c.kept) + 1 == |lines|)
  {
    var c := CutLinesToBudget(lines, tokenBudget, hint);
    KeepsAPrefix(lines, tokenBudget, hint);
    CountPrefix(Join(lines), |c.kept|);
    CountJoin(lines);
    assert lines[..|lines|] == lines;
  }

  /** For any lines at all, newlines inside them included: the count of cut lines falls below one exactly when the
      kept text has as many newlines as there are lines. */
  lemma {:induction false} MiscountsExactly(lines: seq<string>, tokenBudget: int, hint: string)
    requires tokenBudget >= 1 && IsCut(CutLinesToBudget(lines, tokenBudget, hint))
    ensures var c := CutLinesToBudget(lines, tokenBudget, hint);
      c.LinesCut? && c.cutCount < 1 <==> CountNewlines(Kept(Join(lines), 3 * tokenBudget)) >= |lines|
  {
    KeepsAPrefix(lines, tokenBudget, hint);
    AllShownIsTooLong(lines, Kept(Join(lines), 3 * tokenBudget));
  }

  lemma {:induction false} AllShownIsTooLong(lines: seq<string>, kept: string)
    requires |kept| < |Join(lines)|
    ensures kept != Join(lines[..|lines|])
  {
    assert lines[..|lines|] == lines;
  }

  /** And lines that hold newlines of their own can make it negative. */
  lemma NewlinesInsideALineMiscount(hint: string)
    ensures CutLinesToBudget(["a\nb\ncdef"], 2, hint) == LinesCut(2, 1, 2, hint, "a\nb", -1)
  {
    var output := "a\nb\ncdef";
    assert Join(["a\nb\ncdef"]) == output;
    var head := Head(output, 6);
    assert head == "a\nb\ncd";
    assert head[3] == '\n' && head[4] != '\n' && head[5] != '\n';
    assert RFind(head) == 3;
    var kept := Head(output, 3);
    assert kept == "a\nb" && kept[..2] == "a\n" && kept[..2][..1] == "a" && kept[..2][..1][..0] == "";
    assert CountNewlines(kept[..2][..1]) == 0 && CountNewlines(kept[..2]) == 1 && CountNewlines(kept) == 1;
  }
}
