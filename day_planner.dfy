/** The line-by-line entry builder shared by `parseDayPlanner` (pasted text) and the per-file
    pass of `handleFileSelect`: one open entry at a time, sub-task lines appended to it, the
    open entry pushed when the next entry line arrives and at the end of the input. */
module DayPlanner {
  import opened Wrappers
  import opened Text
  import opened Planner
  import opened EntryLine

  /** What the builder's `if` chain sees in one line. */
  datatype LineKind =
    | Opens(parsed: Option<TimeEntry>)       // trim starts with `- [`; the pattern's entry, or null
    | SubTaskLine(text: string)              // otherwise trim starts with `-`; text after two characters
    | OtherLine                              // anything else

  /** `line.trim().startsWith('- [')` */
  predicate IsEntryLine(line: string) {
    StartsWith(Trim(line), "- [")
  }

  /** The two tests of the loop body, in order: `trim().startsWith('- [')`, then
      `trim().startsWith('-')`; a sub-task's text is `trim().substring(2)`. */
  function Classify(line: string, date: string): LineKind
  {
    if IsEntryLine(line) then Opens(ParseTimeEntry(line, date))
    else if StartsWith(Trim(line), "-") then SubTaskLine(Substring(Trim(line), 2))
    else OtherLine
  }

  function Classifier(date: string): string -> LineKind {
    line => Classify(line, date)
  }

  /** The kind of every line of a document. */
  function ClassifyAll(lines: seq<string>, date: string): (ks: seq<LineKind>)
    ensures |ks| == |lines|
  {
    Map(Classifier(date), lines)
  }

  function Map<A, B>(f: A -> B, xs: seq<A>): (ys: seq<B>)
    ensures |ys| == |xs|
    ensures forall i :: 0 <= i < |xs| ==> ys[i] == f(xs[i])
  {
    seq(|xs|, i requires 0 <= i < |xs| => f(xs[i]))
  }

  lemma MapConcat<A, B>(f: A -> B, xs: seq<A>, ys: seq<A>)
    ensures Map(f, xs + ys) == Map(f, xs) + Map(f, ys)
  {
    assert forall i :: 0 <= i < |xs| + |ys| ==> (xs + ys)[i] == if i < |xs| then xs[i] else ys[i - |xs|];
  }

  /** The builder's variables: the entries pushed so far (`parsedEntries`) and the open
      entry (`currentEntry`, `None` for null). */
  datatype Builder = Builder(parsed: seq<TimeEntry>, current: Option<TimeEntry>)

  function Flush(current: Option<TimeEntry>): seq<TimeEntry> {
    if current.Some? then [current.value] else []
  }

  /** One pass of the loop body. */
  function Step(b: Builder, k: LineKind): Builder {
    match k
    case Opens(p) => Builder(b.parsed + Flush(b.current), p)
    case SubTaskLine(t) =>
      if b.current.Some? then Builder(b.parsed, Some(b.current.value.(subTasks := b.current.value.subTasks + [t])))
      else b
    case OtherLine => b
  }

  /** What the builder pushes from state b on over the remaining lines, with the final flush. */
  function Run(b: Builder, ks: seq<LineKind>): seq<TimeEntry>
    decreases |ks|
  {
    if ks == [] then b.parsed + Flush(b.current)
    else Run(Step(b, ks[0]), ks[1..])
  }

  /** The builder over a document, started with nothing open. */
  function BuildEntries(lines: seq<string>, date: string): seq<TimeEntry> {
    Run(Builder([], None), ClassifyAll(lines, date))
  }

  /** The sub-task texts of the lines before the next entry line. */
  function SubTasksBefore(ks: seq<LineKind>): seq<string> {
    if ks == [] || ks[0].Opens? then []
    else (if ks[0].SubTaskLine? then [ks[0].text] else []) + SubTasksBefore(ks[1..])
  }

  /** A document read as segments: one entry for each entry line that matches the pattern,
      in document order, carrying the sub-task lines between it and the next entry line.
      Lines before the first entry line, and after an entry line that does not match, belong
      to no entry. */
  function Segments(ks: seq<LineKind>): seq<TimeEntry> {
    if ks == [] then []
    else if ks[0].Opens? && ks[0].parsed.Some? then
      [ks[0].parsed.value.(subTasks := ks[0].parsed.value.subTasks + SubTasksBefore(ks[1..]))] + Segments(ks[1..])
    else Segments(ks[1..])
  }

  function DocumentEntries(lines: seq<string>, date: string): seq<TimeEntry> {
    Segments(ClassifyAll(lines, date))
  }

  /** The open entry completed with the sub-tasks still to come. */
  function Pending(current: Option<TimeEntry>, ks: seq<LineKind>): seq<TimeEntry> {
    if current.Some? then [current.value.(subTasks := current.value.subTasks + SubTasksBefore(ks))] else []
  }

  /** From any state, the builder pushes what it has, then the open entry with the sub-tasks
      still to come, then the segments of the rest. */
  lemma {:induction false} RunIsSegments(b: Builder, ks: seq<LineKind>)
    ensures Run(b, ks) == b.parsed + Pending(b.current, ks) + Segments(ks)
    decreases |ks|
  {
    if ks == [] {
      if b.current.Some? {
        assert b.current.value.subTasks + [] == b.current.value.subTasks;
      }
    } else {
      var k, rest := ks[0], ks[1..];
      RunIsSegments(Step(b, k), rest);
      match k
      case Opens(p) =>
        if b.current.Some? {
          assert b.current.value.subTasks + [] == b.current.value.subTasks;
        }
      case SubTaskLine(t) =>
        if b.current.Some? {
          var c := b.current.value;
          assert c.subTasks + [t] + SubTasksBefore(rest) == c.subTasks + SubTasksBefore(ks);
        }
      case OtherLine =>
        assert SubTasksBefore(ks) == SubTasksBefore(rest);
    }
  }

  /** The builder reads a document exactly as its segments say. */
  lemma BuildIsDocument(lines: seq<string>, date: string)
    ensures BuildEntries(lines, date) == DocumentEntries(lines, date)
  {
    RunIsSegments(Builder([], None), ClassifyAll(lines, date));
  }

  lemma RunAdvance(b: Builder, ks: seq<LineKind>, i: nat)
    requires i < |ks|
    ensures Run(b, ks[i..]) == Run(Step(b, ks[i]), ks[i + 1..])
  {
    assert ks[i..][1..] == ks[i + 1..];
  }

  /** The loop of `parseDayPlanner` (and of each file in `handleFileSelect`): the open entry
      is kept in `currentEntry`, its sub-tasks are appended to it, and it is pushed when the
      next entry line comes and after the last line. */
  method ParseLines(lines: seq<string>, date: string) returns (parsedEntries: seq<TimeEntry>)
    ensures parsedEntries == DocumentEntries(lines, date)
  {
    ghost var ks := ClassifyAll(lines, date);
    parsedEntries := [];
    var currentEntry: Option<TimeEntry> := None;
    for i := 0 to |lines|
      invariant Run(Builder(parsedEntries, currentEntry), ks[i..]) == Run(Builder([], None), ks)
    {
      ghost var before := Builder(parsedEntries, currentEntry);
      var line := lines[i];
      var trimmed := Trim(line);
      if StartsWith(trimmed, "- [") {
        if currentEntry.Some? {
          parsedEntries := parsedEntries + [currentEntry.value];
        }
        currentEntry := ParseTimeEntry(line, date);
      } else if currentEntry.Some? && StartsWith(trimmed, "-") {
        var entry := currentEntry.value;
        currentEntry := Some(entry.(subTasks := entry.subTasks + [Substring(trimmed, 2)]));
      }
      assert Builder(parsedEntries, currentEntry) == Step(before, ks[i]);
      RunAdvance(before, ks, i);
    }
    if currentEntry.Some? {
      parsedEntries := parsedEntries + [currentEntry.value];
    }
    BuildIsDocument(lines, date);
  }

  /** `parseDayPlanner(text)`: the text split at `\n`, every entry dated `today`. */
  method ParseDayPlanner(text: string, today: string) returns (entries: seq<TimeEntry>)
    ensures entries == DocumentEntries(Split(text, '\n'), today)
  {
    var lines := Split(text, '\n');
    entries := ParseLines(lines, today);
  }

  lemma ClassifyConcat(xs: seq<string>, ys: seq<string>, date: string)
    ensures ClassifyAll(xs + ys, date) == ClassifyAll(xs, date) + ClassifyAll(ys, date)
  {
    MapConcat(Classifier(date), xs, ys);
  }

  /** The entries opened by the entry lines that match the pattern, in document order. */
  function Opened(ks: seq<LineKind>): seq<TimeEntry> {
    if ks == [] then []
    else (if ks[0].Opens? && ks[0].parsed.Some? then [ks[0].parsed.value] else []) + Opened(ks[1..])
  }

  /** One entry per opened entry, in the same order, differing at most in its sub-tasks. */
  lemma {:induction false} SegmentsFollowOpened(ks: seq<LineKind>)
    ensures |Segments(ks)| == |Opened(ks)|
    ensures forall k :: 0 <= k < |Segments(ks)| ==> Segments(ks)[k].(subTasks := []) == Opened(ks)[k].(subTasks := [])
  {
    if ks != [] {
      SegmentsFollowOpened(ks[1..]);
      var es, os := Segments(ks), Opened(ks);
      if ks[0].Opens? && ks[0].parsed.Some? {
        assert es == [es[0]] + Segments(ks[1..]) && os == [ks[0].parsed.value] + Opened(ks[1..]);
        forall k | 0 <= k < |es| ensures es[k].(subTasks := []) == os[k].(subTasks := []) {
          if k > 0 { assert es[k] == Segments(ks[1..])[k - 1] && os[k] == Opened(ks[1..])[k - 1]; }
        }
      }
    }
  }

  /** Every entry line that matches the pattern opens the entry `parseTimeEntry` builds, dated
      with the document's date and with two `HH:MM` times. */
  lemma OpenedFromLines(lines: seq<string>, date: string, k: nat)
    requires k < |lines|
    requires ClassifyAll(lines, date)[k].Opens? && ClassifyAll(lines, date)[k].parsed.Some?
    ensures IsEntryLine(lines[k])
    ensures ClassifyAll(lines, date)[k].parsed == ParseTimeEntry(lines[k], date)
    ensures var e := ClassifyAll(lines, date)[k].parsed.value;
      e.date == date && e.subTasks == [] && IsClock(e.startTime) && IsClock(e.endTime)
  {
  }

  /** Exactly one entry per line whose trim starts with `- [` and that matches the pattern,
      in document order: the k-th entry has the fields of the k-th entry opened, apart from
      the sub-tasks it collects. */
  lemma OneEntryPerValidLine(lines: seq<string>, date: string)
    ensures var es, os := BuildEntries(lines, date), Opened(ClassifyAll(lines, date));
      && |es| == |os|
      && forall k :: 0 <= k < |es| ==> es[k].(subTasks := []) == os[k].(subTasks := [])
  {
    BuildIsDocument(lines, date);
    SegmentsFollowOpened(ClassifyAll(lines, date));
  }

  /** All entries of a document carry its date and two `HH:MM` times. */
  lemma {:induction false} SegmentsDated(ks: seq<LineKind>, date: string)
    requires forall k :: 0 <= k < |ks| && ks[k].Opens? && ks[k].parsed.Some? ==>
      ks[k].parsed.value.date == date && IsClock(ks[k].parsed.value.startTime) && IsClock(ks[k].parsed.value.endTime)
    ensures forall e :: e in Segments(ks) ==> e.date == date && IsClock(e.startTime) && IsClock(e.endTime)
  {
    if ks != [] {
      SegmentsDated(ks[1..], date);
    }
  }

  lemma EntriesDated(lines: seq<string>, date: string)
    ensures forall e :: e in BuildEntries(lines, date) ==> e.date == date && IsClock(e.startTime) && IsClock(e.endTime)
  {
    var ks := ClassifyAll(lines, date);
    forall k | 0 <= k < |ks| && ks[k].Opens? && ks[k].parsed.Some?
      ensures ks[k].parsed.value.date == date && IsClock(ks[k].parsed.value.startTime) && IsClock(ks[k].parsed.value.endTime)
    {
      OpenedFromLines(lines, date, k);
    }
    SegmentsDated(ks, date);
    BuildIsDocument(lines, date);
  }

  /** Sub-task collection stops at an entry line. */
  lemma {:induction false} SubTasksBeforeStops(xs: seq<LineKind>, ys: seq<LineKind>)
    requires ys == [] || ys[0].Opens?
    ensures SubTasksBefore(xs + ys) == SubTasksBefore(xs)
  {
    if xs == [] {
      assert xs + ys == ys;
    } else {
      assert (xs + ys)[1..] == xs[1..] + ys;
      SubTasksBeforeStops(xs[1..], ys);
    }
  }

  /** Lines that are not entry lines contribute no entry of their own. */
  lemma {:induction false} SkipNonEntryLines(xs: seq<LineKind>, ys: seq<LineKind>)
    requires forall k :: 0 <= k < |xs| ==> !xs[k].Opens?
    ensures Segments(xs + ys) == Segments(ys)
  {
    if xs == [] {
      assert xs + ys == ys;
    } else {
      assert (xs + ys)[1..] == xs[1..] + ys;
      SkipNonEntryLines(xs[1..], ys);
    }
  }

  lemma {:induction false} SegmentsSplit(xs: seq<LineKind>, ys: seq<LineKind>)
    requires ys == [] || ys[0].Opens?
    ensures Segments(xs + ys) == Segments(xs) + Segments(ys)
  {
    if xs == [] {
      assert xs + ys == ys;
    } else {
      assert (xs + ys)[1..] == xs[1..] + ys;
      SegmentsSplit(xs[1..], ys);
      SubTasksBeforeStops(xs[1..], ys);
    }
  }

  /** Every line whose trim starts with `- [`, valid or not, closes the open entry: the
      lines before it and the lines from it on are read independently. */
  lemma EntryLineCloses(before: seq<string>, after: seq<string>, date: string)
    requires after != [] && IsEntryLine(after[0])
    ensures BuildEntries(before + after, date) == BuildEntries(before, date) + BuildEntries(after, date)
  {
    BuildIsDocument(before + after, date);
    BuildIsDocument(before, date);
    BuildIsDocument(after, date);
    ClassifyConcat(before, after, date);
    SegmentsSplit(ClassifyAll(before, date), ClassifyAll(after, date));
  }

  /** An entry line that does not match the pattern (even a plain `- [docs](url)` bullet)
      leaves no entry open: the builder continues exactly as at the start of the input, so
      the sub-task lines after it are dropped. */
  lemma FailedEntryLineOpensNothing(line: string, rest: seq<string>, date: string)
    requires IsEntryLine(line) && ParseTimeEntry(line, date).None?
    ensures BuildEntries([line] + rest, date) == BuildEntries(rest, date)
  {
    BuildIsDocument([line] + rest, date);
    BuildIsDocument(rest, date);
    ClassifyConcat([line], rest, date);
    assert ClassifyAll([line], date) == [Opens(None)];
    assert (ClassifyAll([line], date) + ClassifyAll(rest, date))[1..] == ClassifyAll(rest, date);
  }

  /** With no entry open, a line that is not an entry line (an orphan sub-task, or any
      other line) is dropped. */
  lemma OrphanLineDropped(line: string, rest: seq<string>, date: string)
    requires !IsEntryLine(line)
    ensures BuildEntries([line] + rest, date) == BuildEntries(rest, date)
  {
    BuildIsDocument([line] + rest, date);
    BuildIsDocument(rest, date);
    ClassifyConcat([line], rest, date);
    assert (ClassifyAll([line], date) + ClassifyAll(rest, date))[1..] == ClassifyAll(rest, date);
  }

  /** Sub-tasks go to the most recent open entry, in arrival order: an entry line that
      matches, followed by lines that are not entry lines, yields one entry whose sub-tasks
      are the texts of the sub-task lines among them, in order; the next entry line or the
      end of the input closes it. */
  lemma SubTasksOfEntry(line: string, following: seq<string>, rest: seq<string>, date: string)
    requires IsEntryLine(line) && ParseTimeEntry(line, date).Some?
    requires forall k :: 0 <= k < |following| ==> !IsEntryLine(following[k])
    requires rest == [] || IsEntryLine(rest[0])
    ensures BuildEntries([line] + following + rest, date)
      == [ParseTimeEntry(line, date).value.(subTasks := SubTasksBefore(ClassifyAll(following, date)))]
         + BuildEntries(rest, date)
  {
    var e := ParseTimeEntry(line, date).value;
    var whole := [line] + following + rest;
    var ks, fk, rk := ClassifyAll(whole, date), ClassifyAll(following, date), ClassifyAll(rest, date);
    assert ClassifyAll([line], date) == [Opens(Some(e))];
    assert ks == [Opens(Some(e))] + fk + rk by {
      ClassifyThree([line], following, rest, date);
    }
    assert forall k :: 0 <= k < |fk| ==> !fk[k].Opens? by {
      NoEntryKinds(following, date);
    }
    assert rk == [] || rk[0].Opens?;
    assert Segments(ks) == [e.(subTasks := SubTasksBefore(fk))] + Segments(rk) by {
      SegmentsOfEntry(e, fk, rk);
      assert e.subTasks + SubTasksBefore(fk) == SubTasksBefore(fk);
    }
    BuildIsDocument(whole, date);
    BuildIsDocument(rest, date);
  }

  lemma ClassifyThree(xs: seq<string>, ys: seq<string>, zs: seq<string>, date: string)
    ensures ClassifyAll(xs + ys + zs, date) == ClassifyAll(xs, date) + ClassifyAll(ys, date) + ClassifyAll(zs, date)
  {
    ClassifyConcat(xs, ys, date);
    ClassifyConcat(xs + ys, zs, date);
  }

  lemma NoEntryKinds(lines: seq<string>, date: string)
    requires forall k :: 0 <= k < |lines| ==> !IsEntryLine(lines[k])
    ensures forall k :: 0 <= k < |lines| ==> !ClassifyAll(lines, date)[k].Opens?
  {
  }

  lemma SegmentsOfEntry(e: TimeEntry, fk: seq<LineKind>, rk: seq<LineKind>)
    requires forall k :: 0 <= k < |fk| ==> !fk[k].Opens?
    requires rk == [] || rk[0].Opens?
    ensures Segments([Opens(Some(e))] + fk + rk) == [e.(subTasks := e.subTasks + SubTasksBefore(fk))] + Segments(rk)
  {
    var ks := [Opens(Some(e))] + fk + rk;
    assert ks[1..] == fk + rk;
    SubTasksBeforeStops(fk, rk);
    SkipNonEntryLines(fk, rk);
  }

  /** The text a sub-task line contributes: its trimmed form without the first two characters. */
  lemma SubTaskTextOf(lines: seq<string>, date: string, k: nat)
    requires k < |lines| && ClassifyAll(lines, date)[k].SubTaskLine?
    ensures !IsEntryLine(lines[k]) && StartsWith(Trim(lines[k]), "-")
    ensures ClassifyAll(lines, date)[k].text == Substring(Trim(lines[k]), 2)
  {
  }
}
