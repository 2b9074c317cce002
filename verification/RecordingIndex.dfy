/** Looking recordings up: a walk backwards over the date and hour folders that agrees with a flat listing.

    A folder maps file names to modification times, a day maps hour folders to their contents, and a tree maps date
    folders to days. Comparing paths below one folder compares the names. */
module RecordingIndex {
  import opened Decimals
  import opened Orders
  import opened RecordingNames
  import opened Wrappers

  type Folder = map<string, int>
  type Day = map<string, Folder>
  type Tree = map<string, Day>

  /** A file with the folder it is in; date and hour are empty in the base directory. */
  datatype Entry = Entry(date: string, hour: string, mtime: int, name: string)

  const TWO_64 := 0x1_0000_0000_0000_0000

  predicate IsInt(n: int) {
    -0x8000_0000 <= n < 0x8000_0000
  }

  /** static_cast<size_t> of the number of files asked for */
  function Wanted(requestNum: int): nat
    requires IsInt(requestNum)
  {
    if requestNum < 0 then requestNum + TWO_64 else requestNum
  }

  // ---- paths ----

  function DotFromEnd(name: string): (n: nat)
    ensures n <= |name|
  {
    if name == "" || name[|name| - 1] == '.' then |name| else DotFromEnd(name[..|name| - 1])
  }

  /** std::filesystem's extension of a file name: from the last dot on, unless that dot comes first. */
  function Extension(name: string): (e: string)
    ensures |e| <= |name| && name == name[..|name| - |e|] + e
  {
    if name == "." || name == ".." || DotFromEnd(name) <= 1 then "" else name[DotFromEnd(name) - 1..]
  }

  /** A folder is named like a date or like an hour: eight digits or two. */
  predicate IsDateOrHour(name: string) {
    (|name| == 8 || |name| == 2) && forall i | 0 <= i < |name| :: IsDigit(name[i])
  }

  predicate IsDateName(s: string) {
    |s| == 8 && ValidDate(ParseDate(s)) && DateName(ParseDate(s)) == s
  }

  /** Date and hour folders of recordings are recognised, and no name of another length. */
  lemma DatesAndHoursAreRecognised(d: Date, hour: nat, name: string)
    requires ValidDate(d) && hour < 24
    ensures IsDateOrHour(DateName(d)) && IsDateOrHour(HourName(hour)) && IsDateName(DateName(d))
    ensures IsDateOrHour(name) ==> |name| == 2 || |name| == 8
  {
    DateNameReadsBack(d);
    assert PowerOfTen(2) == 100;
    PrefixZeroIsDigits(hour, 2);
  }

  // ---- orders ----

  /** Earlier date folder, or same date and earlier hour folder. */
  predicate FolderLess(d1: string, h1: string, d2: string, h2: string) {
    StringLess(d1, d2) || (d1 == d2 && StringLess(h1, h2))
  }

  /** Later folder first; within a folder, std::greater on (time, path). */
  predicate Newer(a: Entry, b: Entry) {
    FolderLess(b.date, b.hour, a.date, a.hour) ||
    (a.date == b.date && a.hour == b.hour && (b.mtime < a.mtime || (b.mtime == a.mtime && StringLess(b.name, a.name))))
  }

  lemma NewerIsTotalOrder()
    ensures StrictTotalOrder(Newer)
  {
    StringLessIsTotalOrder();
    hide StringLess;
    var less := StringLess;
    assert forall x: string, y: string :: less(x, y) == StringLess(x, y);
  }

  // ---- what is older ----

  ghost function FilesIn(date: string, hour: string, folder: Folder, ext: string, pivot: int): set<Entry> {
    set n | n in folder && Extension(n) == ext && folder[n] < pivot :: Entry(date, hour, folder[n], n)
  }

  /** The hour folder h lies at or before some hour folder of the day that is named like one. */
  ghost predicate AtOrBeforeLatest(day: Day, h: string) {
    exists l :: l in day && IsDateOrHour(l) && !StringLess(l, h)
  }

  ghost predicate HasLatest(day: Day) {
    exists l :: l in day && IsDateOrHour(l)
  }

  /** Every date from x up to but excluding d has a folder with an hour folder in it. */
  ghost predicate Unbroken(tree: Tree, x: Date, d: Date) {
    forall y | ValidDate(y) && !DateLess(y, x) && DateLess(y, d) :: DateName(y) in tree && HasLatest(tree[DateName(y)])
  }

  /** The folders at or before (d, h) that are reached over an unbroken run of days. */
  ghost predicate Reached(tree: Tree, d: Date, h: string, date: string, hour: string) {
    && date in tree && hour in tree[date] && IsDateName(date)
    && (var x := ParseDate(date);
        if x == d then !StringLess(h, hour)
        else DateLess(x, d) && Unbroken(tree, x, d) && AtOrBeforeLatest(tree[date], hour))
  }

  ghost function Folders(tree: Tree, d: Date, h: string): set<(string, string)> {
    set date, hour | date in tree && hour in tree[date] && Reached(tree, d, h, date, hour) :: (date, hour)
  }

  ghost predicate IsFolder(tree: Tree, f: (string, string)) {
    f.0 in tree && f.1 in tree[f.0]
  }

  ghost function FilesUnder(tree: Tree, folders: set<(string, string)>, ext: string, pivot: int): set<Entry> {
    set f, n | f in folders && IsFolder(tree, f) && n in tree[f.0][f.1] && Extension(n) == ext &&
               tree[f.0][f.1][n] < pivot ::
      Entry(f.0, f.1, tree[f.0][f.1][n], n)
  }

  /** In descending order of folder, time and name. */
  ghost function Listing(files: set<Entry>): seq<Entry> {
    NewerIsTotalOrder();
    Ascending(Newer, files)
  }

  lemma ListingIs(files: set<Entry>)
    ensures StrictlySorted(Newer, Listing(files)) && forall e :: e in Listing(files) <==> e in files
  {
    NewerIsTotalOrder();
    AscendingIs(Newer, files);
  }

  lemma ListingUnion(a: set<Entry>, b: set<Entry>)
    requires forall x, y | x in a && y in b :: Newer(x, y)
    ensures Listing(a + b) == Listing(a) + Listing(b)
  {
    NewerIsTotalOrder();
    AscendingUnion(Newer, a, b);
  }

  lemma ListingUnique(files: set<Entry>, es: seq<Entry>)
    requires StrictlySorted(Newer, es) && forall e :: e in es <==> e in files
    ensures es == Listing(files)
  {
    NewerIsTotalOrder();
    AscendingUnique(Newer, files, es);
  }

  /** Every older file with the extension in a reached folder. */
  ghost function OlderFiles(tree: Tree, d: Date, h: string, ext: string, pivot: int): set<Entry> {
    FilesUnder(tree, Folders(tree, d, h), ext, pivot)
  }

  function Take(es: seq<Entry>, n: nat): seq<Entry> {
    if n < |es| then es[..n] else es
  }

  // ---- one step back ----

  /** The folder itself is reached, and every other reached folder comes before it. */
  lemma FolderIsLast(tree: Tree, d: Date, h: string)
    requires ValidDate(d) && IsFolder(tree, (DateName(d), h))
    ensures (DateName(d), h) in Folders(tree, d, h)
    ensures forall f | f in Folders(tree, d, h) && f != (DateName(d), h) :: FolderLess(f.0, f.1, DateName(d), h)
  {
    StringLessIsTotalOrder();
    var less := StringLess;
    assert forall x: string, y: string :: less(x, y) == StringLess(x, y);
    DateNameReadsBack(d);
    forall date, hour | Reached(tree, d, h, date, hour) && (date, hour) != (DateName(d), h)
      ensures FolderLess(date, hour, DateName(d), h)
    {
      DateNameOrder(ParseDate(date), d);
      hide StringLess, DateName, ParseDate, Unbroken, AtOrBeforeLatest;
    }
    hide StringLess, DateName, ParseDate, Unbroken, AtOrBeforeLatest;
  }

  /** When a folder comes after all others, the listing starts with its files. */
  lemma FolderFirst(tree: Tree, folders: set<(string, string)>, date: string, hour: string, ext: string, pivot: int)
    requires IsFolder(tree, (date, hour)) && (date, hour) in folders
    requires forall f | f in folders && f != (date, hour) :: FolderLess(f.0, f.1, date, hour)
    ensures Listing(FilesUnder(tree, folders, ext, pivot))
            == Listing(FilesIn(date, hour, tree[date][hour], ext, pivot))
             + Listing(FilesUnder(tree, folders - {(date, hour)}, ext, pivot))
  {
    hide Extension, StringLess, FolderLess;
    var next := folders - {(date, hour)};
    var here, rest := FilesIn(date, hour, tree[date][hour], ext, pivot), FilesUnder(tree, next, ext, pivot);
    assert FilesUnder(tree, folders, ext, pivot) == here + rest;
    forall x, y | x in here && y in rest ensures Newer(x, y) {
    }
    ListingUnion(here, rest);
  }

  /** p is the greatest hour folder of the day before h. */
  ghost predicate IsPreviousHour(day: Day, h: string, p: string) {
    p in day && StringLess(p, h) && forall n | n in day && StringLess(n, h) :: !StringLess(p, n)
  }

  ghost predicate IsLatestHour(day: Day, l: string) {
    l in day && IsDateOrHour(l) && forall n | n in day && IsDateOrHour(n) :: !StringLess(l, n)
  }

  lemma HourStep(tree: Tree, d: Date, h: string, p: string)
    requires ValidDate(d) && IsFolder(tree, (DateName(d), h)) && IsPreviousHour(tree[DateName(d)], h, p)
    ensures Folders(tree, d, p) == Folders(tree, d, h) - {(DateName(d), h)}
  {
    StringLessIsTotalOrder();
    var less := StringLess;
    assert forall x: string, y: string :: less(x, y) == StringLess(x, y);
    DateNameReadsBack(d);
    hide StringLess, DateName, ParseDate, Unbroken, AtOrBeforeLatest;
  }

  lemma PassesDate(tree: Tree, d: Date, x: Date)
    requires ValidDate(d) && ValidDate(x) && d != FIRST_DATE && DateLess(x, d)
    ensures var y := PreviousDate(d);
            Unbroken(tree, x, d) <==> DateName(y) in tree && HasLatest(tree[DateName(y)]) &&
                                              (x == y || Unbroken(tree, x, y))
  {
    var y := PreviousDate(d);
    PreviousDateIsPredecessor(d, x);
    PreviousDateIsPredecessor(d, y);
    forall z | ValidDate(z) ensures DateLess(z, d) <==> z == y || DateLess(z, y) {
      PreviousDateIsPredecessor(d, z);
    }
    hide HasLatest, DateName, PreviousDate;
  }

  /** No hour folder before h, and the day before d starts at its latest hour folder l. */
  lemma DateStep(tree: Tree, d: Date, h: string, l: string)
    requires ValidDate(d) && IsFolder(tree, (DateName(d), h)) && d != FIRST_DATE
    requires forall n | n in tree[DateName(d)] :: !StringLess(n, h)
    requires DateName(PreviousDate(d)) in tree && IsLatestHour(tree[DateName(PreviousDate(d))], l)
    ensures Folders(tree, PreviousDate(d), l) == Folders(tree, d, h) - {(DateName(d), h)}
  {
    var y := PreviousDate(d);
    forall date, hour | date in tree && hour in tree[date] && IsDateName(date)
      ensures Reached(tree, y, l, date, hour) <==> Reached(tree, d, h, date, hour) && (date, hour) != (DateName(d), h)
    {
      DateStepAt(tree, d, h, l, date, hour);
    }
    hide Reached, DateName, PreviousDate, IsLatestHour, IsDateName, StringLess;
  }

  lemma DateStepAt(tree: Tree, d: Date, h: string, l: string, date: string, hour: string)
    requires ValidDate(d) && IsFolder(tree, (DateName(d), h)) && d != FIRST_DATE
    requires forall n | n in tree[DateName(d)] :: !StringLess(n, h)
    requires DateName(PreviousDate(d)) in tree && IsLatestHour(tree[DateName(PreviousDate(d))], l)
    requires date in tree && hour in tree[date] && IsDateName(date)
    ensures Reached(tree, PreviousDate(d), l, date, hour) <==>
            Reached(tree, d, h, date, hour) && (date, hour) != (DateName(d), h)
  {
    var x, y := ParseDate(date), PreviousDate(d);
    StringLessIsTotalOrder();
    var less := StringLess;
    assert forall s: string, t: string :: less(s, t) == StringLess(s, t);
    DateNameReadsBack(d);
    DateNameReadsBack(y);
    PreviousDateIsPredecessor(d, x);
    PreviousDateIsPredecessor(d, y);
    hide StringLess, DateName, ParseDate, Unbroken, ValidDate, PreviousDate;
    if DateLess(x, d) {
      PassesDate(tree, d, x);
    }
  }

  /** No hour folder before h, and no usable day before d: the walk ends. */
  lemma LastStep(tree: Tree, d: Date, h: string)
    requires ValidDate(d) && IsFolder(tree, (DateName(d), h))
    requires forall n | n in tree[DateName(d)] :: !StringLess(n, h)
    requires d == FIRST_DATE || DateName(PreviousDate(d)) !in tree || !HasLatest(tree[DateName(PreviousDate(d))])
    ensures Folders(tree, d, h) == {(DateName(d), h)}
  {
    StringLessIsTotalOrder();
    var less := StringLess;
    assert forall s: string, t: string :: less(s, t) == StringLess(s, t);
    DateNameReadsBack(d);
    forall date, hour | date in tree && hour in tree[date] && IsDateName(date)
      ensures Reached(tree, d, h, date, hour) <==> date == DateName(d) && hour == h
    {
      var x := ParseDate(date);
      if DateLess(x, d) && d != FIRST_DATE {
        PassesDate(tree, d, x);
      }
      hide StringLess, DateName, ParseDate, Unbroken, PreviousDate;
    }
    hide StringLess, DateName, ParseDate, Unbroken, Reached, ValidDate, PreviousDate;
  }

  // ---- the loops ----

  ghost function MatchingIn(date: string, hour: string, folder: Folder, names: set<string>, ext: string): set<Entry> {
    set n | n in names && n in folder && Extension(n) == ext :: Entry(date, hour, folder[n], n)
  }

  lemma MatchingGrows(date: string, hour: string, folder: Folder, names: set<string>, n: string, ext: string)
    requires n in folder && n !in names
    ensures var before, e := MatchingIn(date, hour, folder, names, ext), Entry(date, hour, folder[n], n);
            multiset(MatchingIn(date, hour, folder, names + {n}, ext))
            == multiset(before) + (if Extension(n) == ext then multiset{e} else multiset{})
  {
    hide Extension;
    var before, e := MatchingIn(date, hour, folder, names, ext), Entry(date, hour, folder[n], n);
    assert e !in before;
    assert MatchingIn(date, hour, folder, names + {n}, ext) == if Extension(n) == ext then before + {e} else before;
  }

  /** The files of a folder that have the extension, in the order the directory lists them. */
  method GetFiles(date: string, hour: string, folder: Folder, ext: string) returns (files: seq<Entry>)
    ensures multiset(files) == multiset(MatchingIn(date, hour, folder, folder.Keys, ext))
  {
    files := [];
    var todo := folder.Keys;
    ghost var done := {};
    assert MatchingIn(date, hour, folder, done, ext) == {};
    hide MatchingIn, Extension;
    while todo != {}
      invariant todo + done == folder.Keys && todo !! done
      invariant multiset(files) == multiset(MatchingIn(date, hour, folder, done, ext))
      decreases todo
    {
      var n :| n in todo;
      MatchingGrows(date, hour, folder, done, n, ext);
      if Extension(n) == ext {
        files := files + [Entry(date, hour, folder[n], n)];
      }
      todo, done := todo - {n}, done + {n};
    }
    assert done == folder.Keys;
  }

  /** std::sort with std::greater */
  method SortDescending(files: seq<Entry>) returns (r: seq<Entry>)
    ensures Sorted(Newer, r) && multiset(r) == multiset(files)
  {
    r := [];
    var n := 0;
    while n < |files|
      invariant 0 <= n <= |files| && Sorted(Newer, r) && multiset(r) == multiset(files[..n])
    {
      r := InsertEntry(r, files[n]);
      assert files[..n + 1] == files[..n] + [files[n]];
      n := n + 1;
    }
    assert files[..n] == files;
  }

  method InsertEntry(xs: seq<Entry>, x: Entry) returns (r: seq<Entry>)
    requires Sorted(Newer, xs)
    ensures Sorted(Newer, r) && multiset(r) == multiset(xs) + multiset{x}
  {
    ghost var less := Newer;
    NewerIsTotalOrder();
    hide FolderLess;
    var i := 0;
    while i < |xs| && Newer(xs[i], x)
      invariant 0 <= i <= |xs| && forall k | 0 <= k < i :: less(xs[k], x)
    {
      i := i + 1;
    }
    r := xs[..i] + [x] + xs[i..];
    assert xs == xs[..i] + xs[i..];
    InsertKeepsSorted(less, xs, i, x);
  }

  lemma SortedSetIsStrict(files: set<Entry>, es: seq<Entry>)
    requires Sorted(Newer, es) && multiset(es) == multiset(files)
    ensures StrictlySorted(Newer, es) && forall e :: e in es <==> e in files
  {
    var less := Newer;
    NewerIsTotalOrder();
    hide Newer;
    forall i, j | 0 <= i < j < |es| ensures less(es[i], es[j]) {
      assert es == es[..j] + es[j..];
      assert es[i] in es[..j] && es[j] in es[j..];
      assert multiset(es)[es[i]] == multiset(es[..j])[es[i]] + multiset(es[j..])[es[i]];
      assert multiset(files)[es[i]] <= 1;
    }
    forall e ensures e in es <==> e in files {
      assert e in es <==> e in multiset(es);
    }
  }

  function OlderOnly(es: seq<Entry>, pivot: int): seq<Entry> {
    if es == [] then []
    else OlderOnly(es[..|es| - 1], pivot) + (if es[|es| - 1].mtime < pivot then [es[|es| - 1]] else [])
  }

  lemma {:induction false} OlderOnlyIs(es: seq<Entry>, pivot: int)
    requires StrictlySorted(Newer, es)
    ensures StrictlySorted(Newer, OlderOnly(es, pivot))
    ensures forall e :: e in OlderOnly(es, pivot) <==> e in es && e.mtime < pivot
  {
    if es != [] {
      hide Newer;
      var most := es[..|es| - 1];
      OlderOnlyIs(most, pivot);
      assert es == most + [es[|es| - 1]];
      forall i | 0 <= i < |OlderOnly(most, pivot)| ensures Newer(OlderOnly(most, pivot)[i], es[|es| - 1]) {
        assert OlderOnly(most, pivot)[i] in most;
      }
    }
  }

  /** Sorting and then keeping the older files is the listing of the folder. */
  lemma SortedFolder(date: string, hour: string, folder: Folder, ext: string, pivot: int, es: seq<Entry>)
    requires Sorted(Newer, es) && multiset(es) == multiset(MatchingIn(date, hour, folder, folder.Keys, ext))
    ensures OlderOnly(es, pivot) == Listing(FilesIn(date, hour, folder, ext, pivot))
  {
    hide Newer;
    SortedSetIsStrict(MatchingIn(date, hour, folder, folder.Keys, ext), es);
    OlderOnlyIs(es, pivot);
    hide Extension, Sorted;
    ListingUnique(FilesIn(date, hour, folder, ext, pivot), OlderOnly(es, pivot));
  }

  /** Appends until the wanted number is reached; a number already passed is never reached. */
  function Filled(found: seq<Entry>, more: seq<Entry>, wanted: nat): seq<Entry> {
    if wanted <= |found| then found + more else Take(found + more, wanted)
  }

  /** The loop over one folder's files. */
  method AppendOlder(found: seq<Entry>, files: seq<Entry>, pivot: int, wanted: nat) returns (result: seq<Entry>)
    ensures result == Filled(found, OlderOnly(files, pivot), wanted)
  {
    ghost var older := OlderOnly(files, pivot);
    assert files[..0] == [];
    result := found;
    var i := 0;
    hide OlderOnly, Filled;
    while i < |files|
      invariant 0 <= i <= |files| && result == found + OlderOnly(files[..i], pivot)
      invariant |found| < wanted ==> |result| < wanted
    {
      OlderOnlyStep(files, i, pivot);
      if files[i].mtime < pivot {
        result := result + [files[i]];
        if |result| == wanted {
          OlderOnlyPrefix(files, i + 1, pivot);
          FilledEarly(found, OlderOnly(files[..i + 1], pivot), older, wanted);
          return;
        }
      }
      i := i + 1;
    }
    assert files[..i] == files;
    FilledAll(found, older, wanted);
  }

  /** The older files of one folder, newest first. */
  method AppendFolder(found: seq<Entry>, date: string, hour: string, folder: Folder, ext: string, pivot: int,
                      wanted: nat)
    returns (result: seq<Entry>)
    ensures result == Filled(found, Listing(FilesIn(date, hour, folder, ext, pivot)), wanted)
  {
    hide Sorted, Newer, MatchingIn, Listing, OlderOnly, Filled;
    var files := GetFiles(date, hour, folder, ext);
    files := SortDescending(files);
    SortedFolder(date, hour, folder, ext, pivot, files);
    result := AppendOlder(found, files, pivot, wanted);
  }

  lemma OlderOnlyStep(es: seq<Entry>, i: nat, pivot: int)
    requires i < |es|
    ensures OlderOnly(es[..i + 1], pivot) == OlderOnly(es[..i], pivot) + (if es[i].mtime < pivot then [es[i]] else [])
  {
    assert es[..i + 1][..i] == es[..i];
  }

  lemma FilledEarly(found: seq<Entry>, some: seq<Entry>, all: seq<Entry>, wanted: nat)
    requires some <= all && some != [] && |found + some| == wanted
    ensures Filled(found, all, wanted) == found + some
  {
  }

  lemma FilledAll(found: seq<Entry>, all: seq<Entry>, wanted: nat)
    requires |found| < wanted ==> |found + all| < wanted
    ensures Filled(found, all, wanted) == found + all
  {
  }

  lemma {:induction false} OlderOnlyPrefix(es: seq<Entry>, i: nat, pivot: int)
    requires i <= |es|
    ensures OlderOnly(es[..i], pivot) <= OlderOnly(es, pivot)
    decreases |es|
  {
    if i == |es| {
      assert es[..i] == es;
    } else {
      assert es[..|es| - 1][..i] == es[..i];
      OlderOnlyPrefix(es[..|es| - 1], i, pivot);
    }
  }

  /** The greatest hour folder before `hour`, or an empty name. */
  method PreviousHour(day: Day, hour: string) returns (prev: string)
    requires "" !in day
    ensures prev == "" ==> forall n | n in day :: !StringLess(n, hour)
    ensures prev != "" ==> IsPreviousHour(day, hour, prev)
  {
    StringLessIsTotalOrder();
    ghost var less := StringLess;
    assert forall x: string, y: string :: less(x, y) == StringLess(x, y);
    hide StringLess;
    prev := "";
    var todo := day.Keys;
    while todo != {}
      invariant todo <= day.Keys
      invariant prev == "" ==> forall n | n in day && n !in todo :: !StringLess(n, hour)
      invariant prev != "" ==> prev in day && StringLess(prev, hour)
      invariant prev != "" ==> forall n | n in day && n !in todo && StringLess(n, hour) :: !StringLess(prev, n)
      decreases todo
    {
      var name :| name in todo;
      if StringLess(name, hour) && (prev == "" || StringLess(prev, name)) {
        prev := name;
      }
      todo := todo - {name};
    }
  }

  /** The greatest folder named like a date or an hour, or an empty name. */
  method FindLatestSubDir(day: Day) returns (latest: string)
    ensures latest == "" ==> !HasLatest(day)
    ensures latest != "" ==> IsLatestHour(day, latest)
  {
    StringLessIsTotalOrder();
    ghost var less := StringLess;
    assert forall x: string, y: string :: less(x, y) == StringLess(x, y);
    assert forall n: string | n != "" :: StringLess("", n);
    hide StringLess;
    latest := "";
    var todo := day.Keys;
    while todo != {}
      invariant todo <= day.Keys
      invariant latest == "" ==> forall n | n in day && n !in todo :: !IsDateOrHour(n)
      invariant latest != "" ==> latest in day && IsDateOrHour(latest)
      invariant latest != "" ==> forall n | n in day && n !in todo && IsDateOrHour(n) :: !StringLess(latest, n)
      decreases todo
    {
      var name :| name in todo;
      if IsDateOrHour(name) && StringLess(latest, name) {
        latest := name;
      }
      todo := todo - {name};
    }
  }

  /** The date folder of the day before; there is no such name before the first date. */
  method GetPreviousDate(date: string) returns (prev: Option<string>)
    requires IsDateName(date)
    ensures prev == if ParseDate(date) == FIRST_DATE then None else Some(DateName(PreviousDate(ParseDate(date))))
  {
    hide DateName;
    var d := ParseDate(date);
    if d == FIRST_DATE {
      return None;
    }
    if d.day > 1 {
      d := d.(day := d.day - 1);
    } else if d.month > 1 {
      d := Date(d.year, d.month - 1, DaysIn(d.year, d.month - 1));
    } else {
      d := Date(d.year - 1, 12, 31);
    }
    prev := Some(DateName(d));
  }

  // ---- from a folder on ----

  predicate Later(a: string, b: string) {
    StringLess(b, a)
  }

  lemma LaterIsTotalOrder()
    ensures StrictTotalOrder(Later)
  {
    StringLessIsTotalOrder();
    var less := StringLess;
    assert forall x: string, y: string :: Later(x, y) == less(y, x);
    hide StringLess;
  }

  lemma LatestExists(day: Day)
    requires HasLatest(day)
    ensures exists l :: IsLatestHour(day, l)
  {
    LaterIsTotalOrder();
    var less := Later;
    var names := set n | n in day && IsDateOrHour(n);
    var w :| w in day && IsDateOrHour(w);
    assert w in names;
    LeastExists(less, names);
    var l :| IsLeast(less, names, l);
    forall n | n in day && IsDateOrHour(n) ensures !StringLess(l, n) {
      assert n in names && less(n, l) == StringLess(l, n) && less(l, n) == Later(l, n);
      hide StringLess;
    }
    assert IsLatestHour(day, l);
  }

  /** The hour folder that FindLatestSubDir picks. */
  ghost function LatestHour(day: Day): (l: string)
    requires HasLatest(day)
    ensures IsLatestHour(day, l)
  {
    LatestExists(day);
    var l :| IsLatestHour(day, l);
    l
  }

  lemma LatestHourIs(day: Day, l: string)
    requires IsLatestHour(day, l)
    ensures HasLatest(day) && l == LatestHour(day)
  {
    StringLessIsTotalOrder();
    var less := StringLess;
    assert less(l, LatestHour(day)) == StringLess(l, LatestHour(day));
    assert less(LatestHour(day), l) == StringLess(LatestHour(day), l);
  }

  /** The hour folders of one date at or before h. */
  ghost function OwnHours(tree: Tree, date: string, h: string): set<(string, string)> {
    set hour | date in tree && hour in tree[date] && !StringLess(h, hour) :: (date, hour)
  }

  /** A date folder that the walk can enter from the one after it. */
  ghost predicate Enterable(tree: Tree, date: Option<string>) {
    date.Some? && IsDateName(date.value) && date.value in tree && HasLatest(tree[date.value])
  }

  /** What follows the first folder when its date is no calendar date. */
  ghost function StrayTail(tree: Tree, stray: Option<string>): set<(string, string)> {
    if Enterable(tree, stray) then Folders(tree, ParseDate(stray.value), LatestHour(tree[stray.value])) else {}
  }

  /** The folders the walk visits from (date, hour) on. `stray` is the date folder that the C library computes as the
      previous one for a name that is no calendar date; only the first folder can have such a name. */
  ghost function FoldersFrom(tree: Tree, date: string, hour: string, stray: Option<string>): set<(string, string)> {
    if IsDateName(date) then Folders(tree, ParseDate(date), hour)
    else OwnHours(tree, date, hour) + StrayTail(tree, stray)
  }

  /** What is listed from (date, hour) on. */
  ghost function Remaining(tree: Tree, date: string, hour: string, stray: Option<string>, ext: string, pivot: int)
    : seq<Entry>
  {
    if IsDateName(date) then Listing(OlderFiles(tree, ParseDate(date), hour, ext, pivot))
    else (
      Listing(FilesUnder(tree, OwnHours(tree, date, hour), ext, pivot))
      + Listing(FilesUnder(tree, StrayTail(tree, stray), ext, pivot))
    )
  }

  /** What is listed after the files of (date, hour) itself. */
  ghost function After(tree: Tree, date: string, hour: string, stray: Option<string>, ext: string, pivot: int)
    : seq<Entry>
  {
    if IsDateName(date) then
      Listing(FilesUnder(tree, Folders(tree, ParseDate(date), hour) - {(date, hour)}, ext, pivot))
    else (
      Listing(FilesUnder(tree, OwnHours(tree, date, hour) - {(date, hour)}, ext, pivot))
      + Listing(FilesUnder(tree, StrayTail(tree, stray), ext, pivot))
    )
  }

  /** `next` is where the walk goes from (date, hour). */
  ghost predicate IsNext(tree: Tree, date: string, hour: string, stray: Option<string>, next: Option<(string, string)>)
  {
    match next
    case None =>
      if IsDateName(date) then Folders(tree, ParseDate(date), hour) == {(date, hour)}
      else OwnHours(tree, date, hour) == {(date, hour)} && !Enterable(tree, stray)
    case Some(f) =>
      && IsFolder(tree, f)
      && if IsDateName(date) then
           IsDateName(f.0) &&
           Folders(tree, ParseDate(f.0), f.1) == Folders(tree, ParseDate(date), hour) - {(date, hour)}
         else if f.0 == date then OwnHours(tree, date, f.1) == OwnHours(tree, date, hour) - {(date, hour)}
         else OwnHours(tree, date, hour) == {(date, hour)} && Enterable(tree, stray) && f.0 == stray.value &&
              f.1 == LatestHour(tree[f.0])
  }

  /** The folder to look into next: the hour before, or the latest hour of the day before. */
  method StepBack(tree: Tree, date: string, hour: string, stray: Option<string>)
    returns (next: Option<(string, string)>)
    requires IsFolder(tree, (date, hour)) && (forall d | d in tree :: "" !in tree[d])
    requires stray.Some? ==> IsDateName(stray.value)
    ensures IsNext(tree, date, hour, stray, next)
  {
    ghost var d := if |date| == 8 then ParseDate(date) else FIRST_DATE;
    hide Folders, FolderLess, HasLatest, PreviousDate, DateName, ParseDate, StringLess, ValidDate, IsLatestHour;
    var prevHour := PreviousHour(tree[date], hour);
    if prevHour != "" {
      if IsDateName(date) { HourStep(tree, d, hour, prevHour); } else { OwnHourStep(tree, date, hour, prevHour); }
      return Some((date, prevHour));
    }
    if !IsDateName(date) { OwnLastHour(tree, date, hour); }
    var prevDate := if IsDateName(date) then None else stray;
    if IsDateName(date) {
      prevDate := GetPreviousDate(date);
    }
    if prevDate == None || prevDate.value !in tree {
      if IsDateName(date) { LastStep(tree, d, hour); }
      return None;
    }
    if IsDateName(date) { DateNameReadsBack(PreviousDate(d)); }
    var latestHour := FindLatestSubDir(tree[prevDate.value]);
    if latestHour == "" {
      if IsDateName(date) { LastStep(tree, d, hour); }
      return None;
    }
    LatestHourIs(tree[prevDate.value], latestHour);
    LatestIsFolder(tree[prevDate.value], latestHour);
    if IsDateName(date) { DateStep(tree, d, hour, latestHour); }
    next := Some((prevDate.value, latestHour));
  }

  lemma LatestIsFolder(day: Day, l: string)
    requires IsLatestHour(day, l)
    ensures l in day
  {
  }

  lemma OwnHourStep(tree: Tree, date: string, h: string, p: string)
    requires IsFolder(tree, (date, h)) && IsPreviousHour(tree[date], h, p)
    ensures OwnHours(tree, date, p) == OwnHours(tree, date, h) - {(date, h)}
  {
    StringLessIsTotalOrder();
    var less := StringLess;
    assert forall x: string, y: string :: less(x, y) == StringLess(x, y);
    hide StringLess;
  }

  lemma OwnLastHour(tree: Tree, date: string, h: string)
    requires IsFolder(tree, (date, h)) && forall n | n in tree[date] :: !StringLess(n, h)
    ensures OwnHours(tree, date, h) == {(date, h)}
  {
    StringLessIsTotalOrder();
    var less := StringLess;
    assert forall x: string, y: string :: less(x, y) == StringLess(x, y);
    hide StringLess;
  }

  lemma OwnFolderIsLast(tree: Tree, date: string, h: string)
    requires IsFolder(tree, (date, h))
    ensures (date, h) in OwnHours(tree, date, h)
    ensures forall f | f in OwnHours(tree, date, h) && f != (date, h) :: FolderLess(f.0, f.1, date, h)
  {
    StringLessIsTotalOrder();
    var less := StringLess;
    assert forall x: string, y: string :: less(x, y) == StringLess(x, y);
    hide StringLess;
  }

  lemma RemainingSplits(tree: Tree, date: string, hour: string, stray: Option<string>, ext: string, pivot: int)
    requires IsFolder(tree, (date, hour))
    ensures Remaining(tree, date, hour, stray, ext, pivot)
            == Listing(FilesIn(date, hour, tree[date][hour], ext, pivot)) + After(tree, date, hour, stray, ext, pivot)
  {
    hide Folders, OwnHours, StrayTail, FilesUnder, FilesIn, Listing, FolderLess;
    if IsDateName(date) {
      FolderIsLast(tree, ParseDate(date), hour);
      FolderFirst(tree, Folders(tree, ParseDate(date), hour), date, hour, ext, pivot);
    } else {
      OwnFolderIsLast(tree, date, hour);
      FolderFirst(tree, OwnHours(tree, date, hour), date, hour, ext, pivot);
    }
  }

  lemma AfterIs(tree: Tree, date: string, hour: string, stray: Option<string>, next: Option<(string, string)>,
                ext: string, pivot: int)
    requires IsNext(tree, date, hour, stray, next)
    ensures After(tree, date, hour, stray, ext, pivot)
            == if next == None then [] else Remaining(tree, next.value.0, next.value.1, stray, ext, pivot)
  {
    hide Folders, OwnHours, IsDateName, ParseDate, Listing, FilesUnder;
    NothingUnderNone(tree, ext, pivot);
    assert {(date, hour)} - {(date, hour)} == {};
  }

  lemma NothingUnderNone(tree: Tree, ext: string, pivot: int)
    ensures Listing(FilesUnder(tree, {}, ext, pivot)) == []
  {
    ListingIs(FilesUnder(tree, {}, ext, pivot));
  }

  /** Fewer folders remain. */
  lemma NextIsSmaller(tree: Tree, date: string, hour: string, stray: Option<string>, next: Option<(string, string)>)
    requires IsFolder(tree, (date, hour)) && IsNext(tree, date, hour, stray, next) && next.Some?
    ensures FoldersFrom(tree, next.value.0, next.value.1, stray) < FoldersFrom(tree, date, hour, stray)
  {
    hide ParseDate, DateName, ValidDate, LatestHour;
    if IsDateName(date) {
      FolderIsLast(tree, ParseDate(date), hour);
    } else {
      OwnFolderIsLast(tree, date, hour);
      TailIsDated(tree, stray, date, hour);
    }
    hide Folders, OwnHours, StrayTail, FolderLess, IsDateName;
  }

  lemma TailIsDated(tree: Tree, stray: Option<string>, date: string, hour: string)
    requires !IsDateName(date)
    ensures (date, hour) !in StrayTail(tree, stray)
  {
  }

  /** The loop over folders: it takes the first so many of what is listed. */
  method WalkBack(tree: Tree, startDate: string, startHour: string, stray: Option<string>, ext: string, pivot: int,
                  wanted: nat)
    returns (result: seq<Entry>)
    requires IsFolder(tree, (startDate, startHour)) && (forall d | d in tree :: "" !in tree[d])
    requires stray.Some? ==> IsDateName(stray.value)
    ensures result == Take(Remaining(tree, startDate, startHour, stray, ext, pivot), wanted)
  {
    hide Remaining, After, FilesIn, Listing, FoldersFrom, IsDateName, Filled, IsNext;
    var date, hour := startDate, startHour;
    ghost var all := Remaining(tree, date, hour, stray, ext, pivot);
    result := [];
    while |result| < wanted
      invariant IsFolder(tree, (date, hour))
      invariant |result| < wanted || (result == [] && wanted == 0)
      invariant all == result + Remaining(tree, date, hour, stray, ext, pivot)
      decreases FoldersFrom(tree, date, hour, stray)
    {
      RemainingSplits(tree, date, hour, stray, ext, pivot);
      ghost var rest := After(tree, date, hour, stray, ext, pivot);
      FilledSplit(result, Listing(FilesIn(date, hour, tree[date][hour], ext, pivot)), rest, wanted);
      result := AppendFolder(result, date, hour, tree[date][hour], ext, pivot, wanted);
      if |result| == wanted {
        return;
      }
      assert all == result + rest;
      var next := StepBack(tree, date, hour, stray);
      AfterIs(tree, date, hour, stray, next, ext, pivot);
      if next == None {
        return;
      }
      NextIsSmaller(tree, date, hour, stray, next);
      NextIsFolder(tree, date, hour, stray, next);
      date, hour := next.value.0, next.value.1;
    }
  }

  lemma NextIsFolder(tree: Tree, date: string, hour: string, stray: Option<string>, next: Option<(string, string)>)
    requires IsNext(tree, date, hour, stray, next) && next.Some?
    ensures IsFolder(tree, next.value)
  {
  }

  lemma FilledSplit(found: seq<Entry>, here: seq<Entry>, rest: seq<Entry>, wanted: nat)
    requires |found| < wanted
    ensures var r := Filled(found, here, wanted);
            if |r| == wanted then r == Take(found + (here + rest), wanted)
            else |r| < wanted && r + rest == found + (here + rest)
  {
  }

  datatype Location = InBase(name: string) | InHour(date: string, hour: string, name: string)

  predicate Exists(base: Folder, tree: Tree, file: Location) {
    match file
    case InBase(name) => name in base
    case InHour(date, hour, name) => date in tree && hour in tree[date] && name in tree[date][hour]
  }

  function TimeOf(base: Folder, tree: Tree, file: Location): int
    requires Exists(base, tree, file)
  {
    match file
    case InBase(name) => base[name]
    case InHour(date, hour, name) => tree[date][hour][name]
  }

  /** All files older than the given one, newest first: of its own folder when that is the base directory, else of all
      the folders at or before its own over an unbroken run of days. */
  ghost function AllOlder(base: Folder, tree: Tree, file: Location, stray: Option<string>): seq<Entry>
    requires Exists(base, tree, file)
  {
    var ext, pivot := Extension(file.name), TimeOf(base, tree, file);
    match file
    case InBase(_) => Listing(FilesIn("", "", base, ext, pivot))
    case InHour(date, hour, _) => Remaining(tree, date, hour, stray, ext, pivot)
  }

  /** For files under a calendar date this is the flat listing. */
  lemma AllOlderOfDate(base: Folder, tree: Tree, file: Location, stray: Option<string>)
    requires Exists(base, tree, file) && file.InHour? && IsDateName(file.date)
    ensures AllOlder(base, tree, file, stray)
            == Listing(OlderFiles(tree, ParseDate(file.date), file.hour, Extension(file.name),
                                  TimeOf(base, tree, file)))
  {
  }

  /** For files in the base directory: exactly the older files with the extension beside it, newest first. */
  lemma AllOlderOfBase(base: Folder, tree: Tree, name: string, stray: Option<string>)
    requires name in base
    ensures var all := AllOlder(base, tree, InBase(name), stray);
            && (forall e :: e in all <==>
                  e == Entry("", "", e.mtime, e.name) && e.name in base && base[e.name] == e.mtime &&
                  e.mtime < base[name] && Extension(e.name) == Extension(name))
            && (forall i, j | 0 <= i < j < |all| ::
                  all[j].mtime < all[i].mtime || (all[j].mtime == all[i].mtime && StringLess(all[j].name, all[i].name)))
  {
    ListingIs(FilesIn("", "", base, Extension(name), base[name]));
    hide Extension, Listing, StringLess;
    var all := AllOlder(base, tree, InBase(name), stray);
    forall i, j | 0 <= i < j < |all| ensures
        all[j].mtime < all[i].mtime || (all[j].mtime == all[i].mtime && StringLess(all[j].name, all[i].name)) {
      assert Newer(all[i], all[j]) && all[i] in all && all[j] in all;
      NotEarlierThanItself();
    }
  }

  lemma NotEarlierThanItself()
    ensures !FolderLess("", "", "", "")
  {
  }

  /** The first so many of all older files. In the base directory a request for no files is a request for all. The date
      folder above the file can have any name. */
  method FindOlderFiles(base: Folder, tree: Tree, file: Location, stray: Option<string>, requestNum: int)
    returns (result: seq<Entry>)
    requires IsInt(requestNum) && (stray.Some? ==> IsDateName(stray.value))
    requires forall d | d in tree :: "" !in tree[d]
    ensures !Exists(base, tree, file) ==> result == []
    ensures Exists(base, tree, file) ==>
              var all := AllOlder(base, tree, file, stray);
              result == if file.InBase? && requestNum == 0 then all else Take(all, Wanted(requestNum))
  {
    if !Exists(base, tree, file) {
      return [];
    }
    hide FilesIn, Listing, Extension, Take, Filled, Remaining, IsDateName;
    var pivot, ext := TimeOf(base, tree, file), Extension(file.name);
    if file.InBase? {
      result := AppendFolder([], "", "", base, ext, pivot, Wanted(requestNum));
      FilledFromNothing(Listing(FilesIn("", "", base, ext, pivot)), Wanted(requestNum));
      return;
    }
    result := WalkBack(tree, file.date, file.hour, stray, ext, pivot, Wanted(requestNum));
  }

  lemma FilledFromNothing(all: seq<Entry>, wanted: nat)
    ensures Filled([], all, wanted) == if wanted == 0 then all else Take(all, wanted)
  {
    assert [] + all == all;
  }

  // ---- what the listing holds ----

  ghost predicate IsFile(tree: Tree, e: Entry) {
    IsFolder(tree, (e.date, e.hour)) && e.name in tree[e.date][e.hour] && e.mtime == tree[e.date][e.hour][e.name]
  }

  /** The flat listing holds exactly the files with the extension, older than the given time, in the folders at or
      before (d, h) that an unbroken run of days reaches, once each and in descending order. */
  lemma FlatListingIs(tree: Tree, d: Date, h: string, ext: string, pivot: int)
    ensures var all := Listing(OlderFiles(tree, d, h, ext, pivot));
            && StrictlySorted(Newer, all)
            && forall e :: e in all <==>
                 IsFile(tree, e) && Extension(e.name) == ext && e.mtime < pivot && Reached(tree, d, h, e.date, e.hour)
  {
    ListingIs(OlderFiles(tree, d, h, ext, pivot));
    hide Newer, Listing, StrictlySorted, Extension, Reached;
    assert forall date, hour | Reached(tree, d, h, date, hour) :: IsFolder(tree, (date, hour)) by {
      ReachedExists(tree, d, h); }
    forall e
      ensures e in OlderFiles(tree, d, h, ext, pivot) <==>
        IsFile(tree, e) && Extension(e.name) == ext && e.mtime < pivot && Reached(tree, d, h, e.date, e.hour)
    {
    }
  }

  lemma ReachedExists(tree: Tree, d: Date, h: string)
    ensures forall date, hour | Reached(tree, d, h, date, hour) :: IsFolder(tree, (date, hour))
  {
  }

  /** Files of earlier folders are no newer than files of later ones. */
  ghost predicate FoldersAgreeWithTimes(tree: Tree) {
    forall a, b | IsFile(tree, a) && IsFile(tree, b) && FolderLess(a.date, a.hour, b.date, b.hour) :: a.mtime <= b.mtime
  }

  /** Then what was taken is globally newest first, and nothing left out is newer than anything taken. */
  lemma TakenAreTheNewest(tree: Tree, d: Date, h: string, ext: string, pivot: int, wanted: nat)
    requires FoldersAgreeWithTimes(tree)
    ensures var all := OlderFiles(tree, d, h, ext, pivot);
            var taken := Take(Listing(all), wanted);
            && (forall i, j | 0 <= i < j < |taken| :: taken[j].mtime <= taken[i].mtime)
            && (forall e, i | e in all && e !in taken && 0 <= i < |taken| :: e.mtime <= taken[i].mtime)
  {
    var files := OlderFiles(tree, d, h, ext, pivot);
    var all := Listing(files);
    var taken := Take(all, wanted);
    FlatListingIs(tree, d, h, ext, pivot);
    ListingIs(files);
    hide Listing, OlderFiles, Reached, Extension;
    forall i, j | 0 <= i < j < |all| ensures all[j].mtime <= all[i].mtime {
      assert Newer(all[i], all[j]);
      assert all[i] in all && all[j] in all;
    }
    forall e, i | e in files && e !in taken && 0 <= i < |taken| ensures e.mtime <= taken[i].mtime {
      var j :| 0 <= j < |all| && all[j] == e;
      assert i < j;
    }
  }
}
