/** `handleFileSelect`: the planner files chosen in the browser are filtered by name, sorted
    newest first by the date in their names, and parsed one after the other with that date;
    the entries of all files are concatenated. */
module FileBatch {
  import opened Text
  import opened Planner
  import opened DayPlanner
  import opened Sorting

  /** A chosen file: its name and its text (what `file.text()` resolves to). */
  datatype PlannerFile = PlannerFile(name: string, content: string)

  /** `\d{4}-\d{2}-\d{2}-`: a date of digits and the dash after it. */
  predicate HasDatePrefix(name: string) {
    |name| >= 11
    && IsDigit(name[0]) && IsDigit(name[1]) && IsDigit(name[2]) && IsDigit(name[3])
    && name[4] == '-' && IsDigit(name[5]) && IsDigit(name[6])
    && name[7] == '-' && IsDigit(name[8]) && IsDigit(name[9])
    && name[10] == '-'
  }

  /** `^\d{4}-\d{2}-\d{2}-.+\.md$`: the date prefix, at least one character that is not a
      line break, and the extension `.md` at the very end. */
  predicate IsPlannerFileName(name: string) {
    HasDatePrefix(name) && |name| >= 15
    && (forall k :: 11 <= k < |name| - 3 ==> !IsLineTerminator(name[k]))
    && name[|name| - 3..] == ".md"
  }

  /** `name.split('-').slice(0, 3).join('-')`. */
  function DateKey(name: string): string {
    var parts := Split(name, '-');
    Join(parts[..if |parts| < 3 then |parts| else 3], '-')
  }

  /** The sort key and the date given to the entries of a file. */
  function FileDate(f: PlannerFile): string {
    DateKey(f.name)
  }

  /** For a planner file name the date key is the `YYYY-MM-DD` prefix. */
  lemma DateKeyOfPlannerName(name: string)
    requires IsPlannerFileName(name)
    ensures DateKey(name) == name[..10]
  {
    DateKeyOfDatePrefix(name);
  }

  lemma DateKeyOfDatePrefix(name: string)
    requires HasDatePrefix(name)
    ensures DateKey(name) == name[..10]
  {
    var y, m, d := name[..4], name[5..7], name[8..10];
    var parts := Split(name, '-');
    assert parts[..3] == [y, m, d] by {
      SplitDatePrefix(name);
      assert parts == [y, m, d] + Split(name[11..], '-');
    }
    assert name[..10] == y + "-" + m + "-" + d;
    JoinThree(y, m, d, '-');
  }

  lemma SplitDatePrefix(name: string)
    requires HasDatePrefix(name)
    ensures Split(name, '-') == [name[..4], name[5..7], name[8..10]] + Split(name[11..], '-')
  {
    var y, m, d := name[..4], name[5..7], name[8..10];
    assert Split(name, '-') == [y] + Split(name[5..], '-') by {
      assert '-' !in y by { assert y == [name[0], name[1], name[2], name[3]]; }
      SplitAtFirstDash(name, 4);
    }
    assert Split(name[5..], '-') == [m] + Split(name[8..], '-') by {
      var t := name[5..];
      assert t[..2] == m && t[3..] == name[8..];
      assert '-' !in m by { assert m == [name[5], name[6]]; }
      SplitAtFirstDash(t, 2);
    }
    assert Split(name[8..], '-') == [d] + Split(name[11..], '-') by {
      var t := name[8..];
      assert t[..2] == d && t[3..] == name[11..];
      assert '-' !in d by { assert d == [name[8], name[9]]; }
      SplitAtFirstDash(t, 2);
    }
  }

  lemma SplitAtFirstDash(s: string, i: nat)
    requires i < |s| && s[i] == '-' && '-' !in s[..i]
    ensures Split(s, '-') == [s[..i]] + Split(s[i + 1..], '-')
  {
    SplitPrefix(s[..i], s[i..], '-');
    assert s[..i] + s[i..] == s;
  }

  lemma JoinThree(a: string, b: string, c: string, sep: char)
    ensures Join([a, b, c], sep) == a + [sep] + b + [sep] + c
  {
    assert [a, b, c][1..] == [b, c];
    assert [b, c][1..] == [c];
    assert Join([b, c], sep) == b + [sep] + c;
    assert a + [sep] + (b + [sep] + c) == a + [sep] + b + [sep] + c;
  }

  /** `files.filter(...)` with the planner file name pattern. */
  function PlannerFiles(files: seq<PlannerFile>): (r: seq<PlannerFile>)
    ensures forall f :: f in r <==> f in files && IsPlannerFileName(f.name)
  {
    if files == [] then []
    else
      var init, last := files[..|files| - 1], files[|files| - 1];
      assert files == init + [last];
      PlannerFiles(init) + (if IsPlannerFileName(last.name) then [last] else [])
  }

  /** The entries the builder makes of one file, dated by its name. */
  function FileEntries(f: PlannerFile): seq<TimeEntry> {
    DocumentEntries(Split(f.content, '\n'), FileDate(f))
  }

  /** The entries of the files, file after file. */
  function EntriesOfFiles(fs: seq<PlannerFile>): seq<TimeEntry> {
    if fs == [] then [] else EntriesOfFiles(fs[..|fs| - 1]) + FileEntries(fs[|fs| - 1])
  }

  /** What `handleFileSelect` hands to `setEntries`. */
  function BatchEntries(files: seq<PlannerFile>): seq<TimeEntry> {
    EntriesOfFiles(SortDesc(PlannerFiles(files), FileDate))
  }

  /** The handler: keep the planner files, sort them in place newest first, then parse
      them in that order. */
  method HandleFileSelect(files: seq<PlannerFile>) returns (allEntries: seq<TimeEntry>)
    ensures allEntries == BatchEntries(files)
  {
    var markdownFiles := PlannerFiles(files);
    var a := new PlannerFile[|markdownFiles|](i requires 0 <= i < |markdownFiles| => markdownFiles[i]);
    assert a[..] == markdownFiles;
    SortByKeyDescending(a, FileDate);
    allEntries := ParseFiles(a);
  }

  /** The loop over the sorted files: each file's text is split into lines and run through
      the builder with the date of its name, and its entries are appended. */
  method ParseFiles(markdownFiles: array<PlannerFile>) returns (allEntries: seq<TimeEntry>)
    ensures allEntries == EntriesOfFiles(markdownFiles[..])
  {
    allEntries := [];
    for i := 0 to markdownFiles.Length
      invariant allEntries == EntriesOfFiles(markdownFiles[..i])
    {
      var file := markdownFiles[i];
      var lines := Split(file.content, '\n');
      var date := DateKey(file.name);
      var parsedEntries := ParseLines(lines, date);
      assert markdownFiles[..i + 1] == markdownFiles[..i] + [file];
      EntriesOfFilesAppend(markdownFiles[..i], file);
      allEntries := allEntries + parsedEntries;
    }
    assert markdownFiles[..markdownFiles.Length] == markdownFiles[..];
  }

  lemma EntriesOfFilesAppend(fs: seq<PlannerFile>, f: PlannerFile)
    ensures EntriesOfFiles(fs + [f]) == EntriesOfFiles(fs) + FileEntries(f)
  {
    assert (fs + [f])[..|fs|] == fs;
  }

  /** Every entry of a file carries the file's date. */
  lemma FileEntriesDated(f: PlannerFile)
    ensures forall e :: e in FileEntries(f) ==> e.date == FileDate(f)
  {
    BuildIsDocument(Split(f.content, '\n'), FileDate(f));
    EntriesDated(Split(f.content, '\n'), FileDate(f));
  }

  /** Every entry of a run of files comes from one of them and carries its date. */
  lemma {:induction false} EntriesOfFilesFrom(fs: seq<PlannerFile>)
    ensures forall e :: e in EntriesOfFiles(fs) ==> exists k :: 0 <= k < |fs| && e in FileEntries(fs[k]) && e.date == FileDate(fs[k])
  {
    if fs != [] {
      var init, last := fs[..|fs| - 1], fs[|fs| - 1];
      EntriesOfFilesFrom(init);
      FileEntriesDated(last);
      forall e | e in EntriesOfFiles(fs)
        ensures exists k :: 0 <= k < |fs| && e in FileEntries(fs[k]) && e.date == FileDate(fs[k])
      {
        if e in EntriesOfFiles(init) {
          var k :| 0 <= k < |init| && e in FileEntries(init[k]) && e.date == FileDate(init[k]);
          assert fs[k] == init[k];
        } else {
          assert fs[|fs| - 1] == last;
        }
      }
    }
  }

  /** Only files whose names match contribute, and each entry carries the first ten
      characters of its file's name as its date. */
  lemma BatchFromPlannerFiles(files: seq<PlannerFile>)
    ensures forall e :: e in BatchEntries(files) ==>
      exists f :: f in files && IsPlannerFileName(f.name) && e in FileEntries(f) && e.date == f.name[..10]
  {
    var kept := PlannerFiles(files);
    var sorted := SortDesc(kept, FileDate);
    EntriesOfFilesFrom(sorted);
    SortDescPermutation(kept, FileDate);
    forall e | e in BatchEntries(files)
      ensures exists f :: f in files && IsPlannerFileName(f.name) && e in FileEntries(f) && e.date == f.name[..10]
    {
      var k :| 0 <= k < |sorted| && e in FileEntries(sorted[k]) && e.date == FileDate(sorted[k]);
      var f := sorted[k];
      assert f in multiset(sorted);
      assert f in kept;
      DateKeyOfPlannerName(f.name);
    }
  }

  /** The filter distributes over concatenation. */
  lemma {:induction false} PlannerFilesConcat(xs: seq<PlannerFile>, ys: seq<PlannerFile>)
    ensures PlannerFiles(xs + ys) == PlannerFiles(xs) + PlannerFiles(ys)
    decreases |ys|
  {
    if ys == [] {
      assert xs + ys == xs;
    } else {
      var init, last := ys[..|ys| - 1], ys[|ys| - 1];
      var keep := if IsPlannerFileName(last.name) then [last] else [];
      assert (xs + ys)[..|xs + ys| - 1] == xs + init;
      assert (xs + ys)[|xs + ys| - 1] == last;
      calc {
        PlannerFiles(xs + ys);
        PlannerFiles(xs + init) + keep;
        { PlannerFilesConcat(xs, init); }
        PlannerFiles(xs) + PlannerFiles(init) + keep;
        { assert PlannerFiles(ys) == PlannerFiles(init) + keep; }
        PlannerFiles(xs) + PlannerFiles(ys);
      }
    }
  }

  /** A file whose name does not match changes nothing, wherever it is in the selection. */
  lemma NonPlannerFileIgnored(before: seq<PlannerFile>, f: PlannerFile, after: seq<PlannerFile>)
    requires !IsPlannerFileName(f.name)
    ensures BatchEntries(before + [f] + after) == BatchEntries(before + after)
  {
    assert PlannerFiles([f]) == [] by {
      assert [f][..0] == [];
    }
    calc {
      PlannerFiles(before + [f] + after);
      { PlannerFilesConcat(before + [f], after); }
      PlannerFiles(before + [f]) + PlannerFiles(after);
      { PlannerFilesConcat(before, [f]); }
      PlannerFiles(before) + PlannerFiles(after);
      { PlannerFilesConcat(before, after); }
      PlannerFiles(before + after);
    }
  }

  /** One planner file gives exactly what the builder makes of its text, with the date of
      its name. */
  lemma SingleFile(f: PlannerFile)
    requires IsPlannerFileName(f.name)
    ensures BatchEntries([f]) == DocumentEntries(Split(f.content, '\n'), f.name[..10])
  {
    assert [f][..0] == [];
    assert PlannerFiles([f]) == [f];
    assert SortDesc([f], FileDate) == [f];
    assert EntriesOfFiles([f]) == FileEntries(f) by {
      EntriesOfFilesAppend([], f);
    }
    DateKeyOfPlannerName(f.name);
  }

  /** No entry's date comes before a later entry's date. */
  ghost predicate DatesDescending(es: seq<TimeEntry>) {
    forall i, j :: 0 <= i < j < |es| ==> !LexLess(es[i].date, es[j].date)
  }

  /** Appending entries of one date that no earlier date comes before keeps the order. */
  lemma AppendOneDate(left: seq<TimeEntry>, right: seq<TimeEntry>, date: string)
    requires DatesDescending(left)
    requires forall e :: e in left ==> !LexLess(e.date, date)
    requires forall e :: e in right ==> e.date == date
    ensures DatesDescending(left + right)
  {
    var es := left + right;
    forall i, j | 0 <= i < j < |es| ensures !LexLess(es[i].date, es[j].date) {
      if j < |left| {
        assert es[i] == left[i] && es[j] == left[j];
      } else if i >= |left| {
        assert es[i] in right && es[j] in right;
        LexLessIrreflexive(date);
      } else {
        assert es[i] in left && es[j] in right;
      }
    }
  }

  /** Files in descending date order give entries in descending date order. */
  lemma {:induction false} EntriesOfFilesDescending(fs: seq<PlannerFile>)
    requires SortedDesc(fs, FileDate)
    ensures DatesDescending(EntriesOfFiles(fs))
  {
    if fs != [] {
      var init, last := fs[..|fs| - 1], fs[|fs| - 1];
      assert SortedDesc(init, FileDate);
      EntriesOfFilesDescending(init);
      FileEntriesDated(last);
      forall e | e in EntriesOfFiles(init) ensures !LexLess(e.date, FileDate(last)) {
        EntriesOfFilesFrom(init);
        var k :| 0 <= k < |init| && e in FileEntries(init[k]) && e.date == FileDate(init[k]);
        assert fs[k] == init[k];
      }
      AppendOneDate(EntriesOfFiles(init), FileEntries(last), FileDate(last));
    }
  }

  /** The batch lists its entries newest date first (entries are not re-sorted within a date). */
  lemma BatchDatesDescending(files: seq<PlannerFile>)
    ensures DatesDescending(BatchEntries(files))
  {
    SortDescSorted(PlannerFiles(files), FileDate);
    EntriesOfFilesDescending(SortDesc(PlannerFiles(files), FileDate));
  }

  /** The entries of one file, kept or dropped as a whole by the date filter. */
  lemma WithDateOfFile(f: PlannerFile, d: string)
    ensures WithDate(FileEntries(f), d) == if FileDate(f) == d then FileEntries(f) else []
  {
    FileEntriesDated(f);
    WithDateAll(FileEntries(f), FileDate(f), d);
  }

  lemma {:induction false} WithDateAll(es: seq<TimeEntry>, date: string, d: string)
    requires forall e :: e in es ==> e.date == date
    ensures WithDate(es, d) == if date == d then es else []
  {
    if es != [] {
      WithDateAll(es[1..], date, d);
      assert es[0] in es;
      assert es == [es[0]] + es[1..];
    }
  }

  /** The entries of one date are those of the files with that date, in their input order. */
  lemma {:induction false} WithDateOfFiles(fs: seq<PlannerFile>, d: string)
    ensures WithDate(EntriesOfFiles(fs), d) == EntriesOfFiles(WithKey(fs, FileDate, d))
  {
    if fs != [] {
      var init, last := fs[..|fs| - 1], fs[|fs| - 1];
      WithDateOfFiles(init, d);
      WithDateConcat(EntriesOfFiles(init), FileEntries(last), d);
      WithDateOfFile(last, d);
      if FileDate(last) == d {
        EntriesOfFilesAppend(WithKey(init, FileDate, d), last);
      } else {
        assert WithKey(init, FileDate, d) + [] == WithKey(init, FileDate, d);
      }
    }
  }

  /** The stable sort keeps the files of one date in input order, so the entries of any one
      date come out exactly as the files of that date list them. */
  lemma BatchDateInInputOrder(files: seq<PlannerFile>, d: string)
    ensures WithDate(BatchEntries(files), d) == EntriesOfFiles(WithKey(PlannerFiles(files), FileDate, d))
  {
    WithDateOfFiles(SortDesc(PlannerFiles(files), FileDate), d);
    SortDescStable(PlannerFiles(files), FileDate, d);
  }
}
