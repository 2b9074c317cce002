/** Making room on the disk: each rotation deletes the oldest recording with its thumbnail, or an empty folder. */
module RecordingRotation {
  import opened Orders
  import opened RecordingNames
  import opened RecordingIndex
  import opened Wrappers

  datatype Item = DateItem(date: string) | HourItem(date: string, hour: string)
                | FileItem(date: string, hour: string, name: string)

  // ---- files and folders ----

  function StemOf(name: string): string {
    name[..|name| - |Extension(name)|]
  }

  predicate IsMedia(name: string) {
    Extension(name) == ".mp4" || Extension(name) == ".jpg"
  }

  /** The recording of a thumbnail, the thumbnail of a recording. */
  function Counterpart(name: string): string {
    StemOf(name) + (if Extension(name) == ".mp4" then ".jpg" else ".mp4")
  }

  function MediaIn(folder: Folder): (media: set<string>)
    ensures media <= folder.Keys
  {
    set n | n in folder && IsMedia(n)
  }

  /** Everything below the record path. */
  ghost function Items(tree: Tree): set<Item> {
    (set d | d in tree :: DateItem(d))
    + (set d, h | d in tree && h in tree[d] :: HourItem(d, h))
    + (set d, h, n | d in tree && h in tree[d] && n in tree[d][h] :: FileItem(d, h, n))
  }

  ghost predicate IsMediaItem(i: Item) {
    i.FileItem? && IsMedia(i.name)
  }

  /** The order in which recordings were made: date folder, hour folder, file stem. */
  ghost predicate OlderItem(a: Item, b: Item)
    requires a.FileItem? && b.FileItem?
  {
    FolderLess(a.date, a.hour, b.date, b.hour) ||
    (a.date == b.date && a.hour == b.hour && StringLess(StemOf(a.name), StemOf(b.name)))
  }

  /** A folder's names follow its stems: when the stem of m is a proper prefix of the stem of n, a file with m's stem
      comes before n by name. It says nothing of other pairs, whose stems decide before the extensions are reached. */
  ghost predicate NamesFollowStems(media: set<string>) {
    forall m, n | m in media && n in media && StemOf(m) < StemOf(n) ::
      exists m' :: m' in media && StemOf(m') == StemOf(m) && StringLess(m', n)
  }

  ghost predicate StemOrdered(tree: Tree) {
    forall d, h | d in tree && h in tree[d] :: NamesFollowStems(MediaIn(tree[d][h]))
  }

  // ---- one rotation ----

  /** The first name in name order. */
  ghost function Oldest(names: set<string>): (m: string)
    requires names != {}
    ensures IsLeast(StringLess, names, m)
  {
    StringLessIsTotalOrder();
    LeastExists(StringLess, names);
    var m :| IsLeast(StringLess, names, m);
    m
  }

  ghost function WithoutHour(tree: Tree, d: string, h: string): Tree
    requires d in tree
  {
    var day := tree[d] - {h};
    if day == map[] then tree - {d} else tree[d := day]
  }

  ghost function WithoutMedia(tree: Tree, d: string, h: string, n: string): Tree
    requires d in tree && h in tree[d]
  {
    var folder := tree[d][h] - {n, Counterpart(n)};
    if folder == map[] then WithoutHour(tree, d, h) else tree[d := tree[d][h := folder]]
  }

  ghost function Rotated(tree: Tree): Tree {
    if tree == map[] then tree
    else
      var d := Oldest(tree.Keys);
      if tree[d] == map[] then tree - {d}
      else
        var h := Oldest(tree[d].Keys);
        var media := MediaIn(tree[d][h]);
        if media == {} then tree[d := tree[d] - {h}] else WithoutMedia(tree, d, h, Oldest(media))
  }

  class RecordingStore {
    var tree: Tree

    constructor (tree: Tree)
      ensures this.tree == tree
    {
      this.tree := tree;
    }

    /** The loop that looks for the least name. */
    static method FindOldest(names: set<string>) returns (oldest: Option<string>)
      ensures oldest == if names == {} then None else Some(Oldest(names))
    {
      StringLessIsTotalOrder();
      ghost var less := StringLess;
      assert forall x: string, y: string :: less(x, y) == StringLess(x, y);
      hide StringLess;
      oldest := None;
      var todo := names;
      while todo != {}
        invariant todo <= names
        invariant oldest == None ==> todo == names
        invariant oldest.Some? ==> IsLeast(less, names - todo, oldest.value)
        decreases todo
      {
        var name :| name in todo;
        ghost var seen, was := names - todo, oldest;
        if oldest == None || StringLess(name, oldest.value) {
          oldest := Some(name);
        }
        todo := todo - {name};
        assert names - todo == seen + {name};
        forall x | x in seen ensures x == oldest.value || less(oldest.value, x) {
          if oldest != was {
            assert less(name, was.value);
            assert x == was.value || less(was.value, x);
          }
        }
        assert oldest.value == name || less(oldest.value, name);
      }
      assert names - todo == names;
    }

    method RotateFiles()
      modifies this
      ensures tree == Rotated(old(tree))
    {
      hide Oldest, MediaIn, Counterpart, Extension, WithoutMedia;
      var date := FindOldest(tree.Keys);
      assert tree == map[] <==> tree.Keys == {};
      if date == None {
        return;
      }
      var hour := FindOldest(tree[date.value].Keys);
      assert tree[date.value] == map[] <==> tree[date.value].Keys == {};
      if hour == None {
        tree := tree - {date.value};
        return;
      }
      var file := FindOldest(MediaIn(tree[date.value][hour.value]));
      if file == None {
        tree := tree[date.value := tree[date.value] - {hour.value}];
        return;
      }
      RemoveMedia(date.value, hour.value, file.value);
    }

    /** The cleaner's loop: it rotates until there is enough space, or until it is aborted before round `rounds`. */
    method MakeRoom(enough: Tree -> bool, rounds: nat) returns (done: bool, ghost k: nat)
      modifies this
      ensures k <= rounds && tree == RotatedTimes(old(tree), k)
      ensures forall i: nat | i < k :: !RoomAfter(enough, old(tree), i)
      ensures done == enough(tree) && (!done ==> k == rounds)
      ensures |Items(old(tree))| <= rounds ==> (done <==> EndsWithRoom(enough, old(tree)))
    {
      hide Items, Rotated;
      var round := 0;
      while round < rounds && !enough(tree)
        invariant 0 <= round <= rounds && tree == RotatedTimes(old(tree), round)
        invariant forall i: nat | i < round :: !RoomAfter(enough, old(tree), i)
      {
        RotateFiles();
        round := round + 1;
      }
      done, k := enough(tree), round;
      assert done == RoomAfter(enough, old(tree), k);
      RoomWithinAllItems(enough, old(tree));
    }

    /** Removes a file with its counterpart, and the folders that this leaves empty. */
    method RemoveMedia(date: string, hour: string, name: string)
      requires date in tree && hour in tree[date] && name in tree[date][hour]
      modifies this
      ensures tree == WithoutMedia(old(tree), date, hour, name)
    {
      hide Counterpart;
      var folder := tree[date][hour] - {name};
      if Counterpart(name) in folder {
        folder := folder - {Counterpart(name)};
      }
      assert folder == tree[date][hour] - {name, Counterpart(name)};
      if folder == map[] {
        var day := tree[date] - {hour};
        if day == map[] {
          tree := tree - {date};
        } else {
          tree := tree[date := day];
        }
      } else {
        tree := tree[date := tree[date][hour := folder]];
      }
    }
  }

  // ---- what one rotation removes ----

  ghost predicate InTree(tree: Tree, i: Item) {
    match i
    case DateItem(d) => d in tree
    case HourItem(d, h) => d in tree && h in tree[d]
    case FileItem(d, h, n) => d in tree && h in tree[d] && n in tree[d][h]
  }

  lemma ItemsAre(tree: Tree)
    ensures forall i :: i in Items(tree) <==> InTree(tree, i)
  {
    forall i ensures i in Items(tree) <==> InTree(tree, i) {
      match i
      case DateItem(d) =>
      case HourItem(d, h) =>
      case FileItem(d, h, n) =>
    }
  }

  /** i is gone after a step that changes the tree to after. */
  ghost predicate Gone(tree: Tree, after: Tree, i: Item) {
    InTree(tree, i) && !InTree(after, i)
  }

  lemma HourRemoved(tree: Tree, d: string, h: string)
    requires d in tree && h in tree[d]
    ensures var after := WithoutHour(tree, d, h);
            && !InTree(after, HourItem(d, h))
            && (forall i | InTree(after, i) :: InTree(tree, i))
            && (forall i | Gone(tree, after, i) && i.FileItem? :: i.date == d && i.hour == h)
  {
    var after := WithoutHour(tree, d, h);
    assert forall k | k in tree[d] && k != h :: k in tree[d] - {h};
  }

  lemma MediaRemoved(tree: Tree, d: string, h: string, n: string)
    requires d in tree && h in tree[d] && n in tree[d][h]
    ensures var after := WithoutMedia(tree, d, h, n);
            && !InTree(after, FileItem(d, h, n)) && !InTree(after, FileItem(d, h, Counterpart(n)))
            && (forall i | InTree(after, i) :: InTree(tree, i))
            && (forall i | Gone(tree, after, i) && i.FileItem? ::
                  i.date == d && i.hour == h && i.name in {n, Counterpart(n)})
  {
    hide Counterpart, WithoutHour;
    HourRemoved(tree, d, h);
    var after, both := WithoutMedia(tree, d, h, n), {n, Counterpart(n)};
    assert forall k | k in tree[d][h] && k !in both :: k in tree[d][h] - both;
  }

  /** A rotation adds nothing; when there is a folder, something goes. */
  lemma RotationShrinks(tree: Tree)
    ensures Items(Rotated(tree)) <= Items(tree)
    ensures tree != map[] ==> Items(Rotated(tree)) < Items(tree)
  {
    ItemsAre(tree);
    ItemsAre(Rotated(tree));
    hide Items, WithoutMedia, MediaIn, Counterpart;
    if tree != map[] {
      var d := Oldest(tree.Keys);
      if tree[d] == map[] {
        assert Gone(tree, Rotated(tree), DateItem(d));
      } else {
        var h := Oldest(tree[d].Keys);
        if MediaIn(tree[d][h]) == {} {
          assert Gone(tree, Rotated(tree), HourItem(d, h));
        } else {
          var n := Oldest(MediaIn(tree[d][h]));
          MediaRemoved(tree, d, h, n);
          assert Gone(tree, Rotated(tree), FileItem(d, h, n));
        }
      }
    }
  }

  lemma NothingAdded(tree: Tree, i: Item)
    requires InTree(Rotated(tree), i)
    ensures InTree(tree, i)
  {
    RotationShrinks(tree);
    ItemsAre(tree);
    ItemsAre(Rotated(tree));
  }

  /** The media that a rotation removes: the first media file of the first folder and its counterpart. */
  lemma RemovedMedia(tree: Tree, r: Item)
    requires Gone(tree, Rotated(tree), r) && IsMediaItem(r)
    ensures var d := Oldest(tree.Keys);
            && r.date == d && tree[d] != map[]
            && var h := Oldest(tree[d].Keys);
               && r.hour == h && MediaIn(tree[d][h]) != {}
               && var n := Oldest(MediaIn(tree[d][h]));
                  && r.name in {n, Counterpart(n)}
                  && !InTree(Rotated(tree), FileItem(d, h, n)) && !InTree(Rotated(tree), FileItem(d, h, Counterpart(n)))
  {
    var d := Oldest(tree.Keys);
    assert tree[d] != map[];
    var h := Oldest(tree[d].Keys);
    hide WithoutMedia, Counterpart, Extension;
    assert r.date == d && r.hour == h ==> r.name in MediaIn(tree[d][h]);
    if MediaIn(tree[d][h]) != {} {
      MediaRemoved(tree, d, h, Oldest(MediaIn(tree[d][h])));
    }
  }

  // ---- oldest first ----

  lemma CounterpartIs(n: string)
    requires IsMedia(n)
    ensures StemOf(Counterpart(n)) == StemOf(n) && IsMedia(Counterpart(n)) && Counterpart(n) != n
  {
    ExtensionAppended(StemOf(n), 'j', 'p', 'g');
    ExtensionAppended(StemOf(n), 'm', 'p', '4');
  }

  lemma DotBefore(s: string, c: char)
    requires c != '.'
    ensures DotFromEnd(s + [c]) == DotFromEnd(s)
  {
    assert (s + [c])[..|s|] == s;
  }

  lemma ExtensionAppended(stem: string, x: char, y: char, z: char)
    requires x != '.' && y != '.' && z != '.' && stem != ""
    ensures Extension(stem + ['.', x, y, z]) == ['.', x, y, z]
  {
    var s := stem + ['.'];
    assert DotFromEnd(s) == |s|;
    DotBefore(s, x);
    DotBefore(s + [x], y);
    DotBefore(s + [x] + [y], z);
    assert s + [x] + [y] + [z] == stem + ['.', x, y, z];
  }

  /** A name is its stem and its extension. */
  lemma SameStem(m: string, n: string)
    requires IsMedia(m) && IsMedia(n) && StemOf(m) == StemOf(n)
    ensures m == n || m == Counterpart(n)
  {
    assert m == StemOf(m) + Extension(m) && n == StemOf(n) + Extension(n);
  }

  /** Unless one is a prefix of the other, two strings compare like any of their extensions. */
  lemma {:induction false} PrefixesDecide(a: string, b: string, x: string, y: string)
    requires StringLess(a, b) && !(a <= b)
    ensures StringLess(a + x, b + y)
  {
    assert (a + x)[0] == a[0] && (b + y)[0] == b[0];
    if a[0] == b[0] {
      assert (a + x)[1..] == a[1..] + x && (b + y)[1..] == b[1..] + y;
      assert a == [a[0]] + a[1..] && b == [b[0]] + b[1..];
      PrefixesDecide(a[1..], b[1..], x, y);
    }
  }

  /** In a folder whose names follow its stems, an earlier stem has an earlier name. */
  lemma EarlierStemHasEarlierName(media: set<string>, m: string, n: string)
    requires NamesFollowStems(media) && m in media && n in media && StringLess(StemOf(m), StemOf(n))
    ensures exists m' :: m' in media && StemOf(m') == StemOf(m) && StringLess(m', n)
  {
    if StemOf(m) <= StemOf(n) {
      StringLessIsTotalOrder();
      assert StemOf(m) != StemOf(n) by { NotLessThanItself(StemOf(m)); }
    } else {
      PrefixesDecide(StemOf(m), StemOf(n), Extension(m), Extension(n));
      assert m == StemOf(m) + Extension(m) && n == StemOf(n) + Extension(n);
    }
  }

  lemma NotLessThanItself(s: string)
    ensures !StringLess(s, s)
  {
    LexIrreflexive(CharLess, s);
  }

  lemma NotLessThanOldest(names: set<string>, n: string)
    requires n in names
    ensures n == Oldest(names) || StringLess(Oldest(names), n)
    ensures !StringLess(n, Oldest(names))
  {
    StringLessIsTotalOrder();
    var less := StringLess;
    assert forall x: string, y: string :: less(x, y) == StringLess(x, y);
    hide StringLess;
  }

  lemma FirstMediaHasFirstStem(media: set<string>, m: string)
    requires NamesFollowStems(media) && m in media && IsMedia(m) && IsMedia(Oldest(media))
    ensures var n := Oldest(media);
            m == n || m == Counterpart(n) || StringLess(StemOf(n), StemOf(m))
  {
    var n := Oldest(media);
    StringLessIsTotalOrder();
    var less := StringLess;
    assert less(StemOf(m), StemOf(n)) == StringLess(StemOf(m), StemOf(n));
    assert less(StemOf(n), StemOf(m)) == StringLess(StemOf(n), StemOf(m));
    hide StringLess, StemOf, Extension, IsMedia, Counterpart, NamesFollowStems;
    if StemOf(m) == StemOf(n) {
      SameStem(m, n);
    } else if StringLess(StemOf(m), StemOf(n)) {
      EarlierStemHasEarlierName(media, m, n);
      var m' :| m' in media && StemOf(m') == StemOf(m) && StringLess(m', n);
      NotLessThanOldest(media, m');
      assert false;
    }
  }

  /** Oldest first: every media file that goes is older than every media file that stays. In particular none goes
      while an older stem stays, and of two files with the same stem neither stays behind. */
  lemma RemovedIsOlderThanRemaining(tree: Tree, r: Item, m: Item)
    requires StemOrdered(tree) && Gone(tree, Rotated(tree), r) && InTree(Rotated(tree), m)
    requires IsMediaItem(r) && IsMediaItem(m)
    ensures OlderItem(r, m)
  {
    NothingAdded(tree, m);
    RemovedMedia(tree, r);
    var d, h := r.date, r.hour;
    hide Rotated, Extension, StringLess, Counterpart, StemOf, NamesFollowStems;
    NotLessThanOldest(tree.Keys, m.date);
    if m.date == d {
      NotLessThanOldest(tree[d].Keys, m.hour);
      if m.hour == h {
        var media := MediaIn(tree[d][h]);
        FirstMediaHasFirstStem(media, m.name);
        CounterpartIs(Oldest(media));
      }
    }
  }

  /** A rotation removes one recording at most: all the media files that go have one folder and one stem. */
  lemma OnlyTheCounterpartGoesAlong(tree: Tree, r: Item, s: Item)
    requires Gone(tree, Rotated(tree), r) && Gone(tree, Rotated(tree), s) && IsMediaItem(r) && IsMediaItem(s)
    ensures r.date == s.date && r.hour == s.hour && StemOf(r.name) == StemOf(s.name)
  {
    RemovedMedia(tree, r);
    RemovedMedia(tree, s);
    hide Rotated, StemOf, Extension, Counterpart;
    CounterpartIs(Oldest(MediaIn(tree[r.date][r.hour])));
  }

  /** No date folder and no hour folder is empty. */
  ghost predicate NothingEmpty(tree: Tree) {
    forall d | d in tree :: tree[d] != map[] && forall h | h in tree[d] :: tree[d][h] != map[]
  }

  ghost predicate MediaEverywhere(tree: Tree) {
    forall d, h | d in tree && h in tree[d] :: MediaIn(tree[d][h]) != {}
  }

  /** When a recording goes, the folders that this empties go with it. */
  lemma NoEmptyFolderIsLeft(tree: Tree)
    requires NothingEmpty(tree) && MediaEverywhere(tree)
    ensures NothingEmpty(Rotated(tree))
  {
    hide MediaIn, Counterpart, WithoutMedia;
    if tree != map[] {
      var d := Oldest(tree.Keys);
      var h := Oldest(tree[d].Keys);
      FoldersGoWithMedia(tree, d, h, Oldest(MediaIn(tree[d][h])));
    }
  }

  lemma FoldersGoWithMedia(tree: Tree, d: string, h: string, n: string)
    requires NothingEmpty(tree) && d in tree && h in tree[d]
    ensures NothingEmpty(WithoutMedia(tree, d, h, n))
  {
    hide Counterpart;
  }

  // ---- rotating again and again ----

  ghost function RotatedTimes(tree: Tree, k: nat): Tree {
    if k == 0 then tree else Rotated(RotatedTimes(tree, k - 1))
  }

  /** A rotation takes whole stems, so that names go on following stems. */
  lemma RotationKeepsStems(tree: Tree)
    requires StemOrdered(tree)
    ensures StemOrdered(Rotated(tree))
  {
    hide Rotated, NamesFollowStems;
    var after := Rotated(tree);
    forall d, h | d in after && h in after[d] ensures NamesFollowStems(MediaIn(after[d][h])) {
      NothingAdded(tree, HourItem(d, h));
      FolderKeepsStems(tree, d, h);
    }
  }

  lemma FolderKeepsStems(tree: Tree, d: string, h: string)
    requires d in tree && h in tree[d] && NamesFollowStems(MediaIn(tree[d][h]))
    requires var after := Rotated(tree); d in after && h in after[d]
    ensures NamesFollowStems(MediaIn(Rotated(tree)[d][h]))
  {
    hide Rotated, Extension, StemOf, StringLess, IsMedia, MediaIn;
    var before, after := MediaIn(tree[d][h]), MediaIn(Rotated(tree)[d][h]);
    forall m, n | m in after && n in after && StemOf(m) < StemOf(n)
      ensures exists m' :: m' in after && StemOf(m') == StemOf(m) && StringLess(m', n)
    {
      MediaStays(tree, d, h, m, m);
      MediaStays(tree, d, h, n, n);
      var m' :| m' in before && StemOf(m') == StemOf(m) && StringLess(m', n);
      MediaStays(tree, d, h, m, m');
    }
  }

  /** Of the media that stay nothing is new, and no file with their stems is missing. */
  lemma MediaStays(tree: Tree, d: string, h: string, m: string, n: string)
    requires d in tree && h in tree[d] && StemOf(m) == StemOf(n)
    requires var after := Rotated(tree); d in after && h in after[d] && m in MediaIn(after[d][h])
    ensures m in MediaIn(tree[d][h]) && (n in MediaIn(tree[d][h]) ==> n in MediaIn(Rotated(tree)[d][h]))
  {
    NothingAdded(tree, FileItem(d, h, m));
    hide Rotated, Extension, StemOf;
    if n in MediaIn(tree[d][h]) && Gone(tree, Rotated(tree), FileItem(d, h, n)) {
      StemGoesWhole(tree, d, h, n, m);
    }
  }

  lemma StemGoesWhole(tree: Tree, d: string, h: string, m: string, n: string)
    requires Gone(tree, Rotated(tree), FileItem(d, h, m)) && IsMedia(m) && IsMedia(n) && StemOf(m) == StemOf(n)
    ensures !InTree(Rotated(tree), FileItem(d, h, n))
  {
    RemovedMedia(tree, FileItem(d, h, m));
    hide Rotated, Extension, StemOf, Counterpart;
    var o := Oldest(MediaIn(tree[d][h]));
    CounterpartIs(o);
    SameStem(n, o);
  }

  lemma {:induction false} StaysOrdered(tree: Tree, k: nat)
    requires StemOrdered(tree)
    ensures StemOrdered(RotatedTimes(tree, k))
  {
    hide Rotated, StemOrdered;
    if k > 0 {
      StaysOrdered(tree, k - 1);
      RotationKeepsStems(RotatedTimes(tree, k - 1));
    }
  }

  lemma {:induction false} RemainedBefore(tree: Tree, i: nat, j: nat, m: Item)
    requires i <= j && InTree(RotatedTimes(tree, j), m)
    ensures InTree(RotatedTimes(tree, i), m)
    decreases j
  {
    hide Rotated, InTree;
    if i < j {
      NothingAdded(RotatedTimes(tree, j - 1), m);
      RemainedBefore(tree, i, j - 1, m);
    }
  }

  lemma NothingLeftToRotate()
    ensures Rotated(map[]) == map[]
  {
  }

  /** As long as a folder is left every rotation shrinks the tree. */
  lemma {:induction false} EverythingGoesInTheEnd(tree: Tree, k: nat)
    ensures RotatedTimes(tree, k) == map[] || |Items(RotatedTimes(tree, k))| + k <= |Items(tree)|
  {
    hide Rotated, Items;
    if k > 0 {
      EverythingGoesInTheEnd(tree, k - 1);
      NothingLeftToRotate();
      var before := RotatedTimes(tree, k - 1);
      if before != map[] {
        RotationShrinks(before);
        SmallerSet(Items(Rotated(before)), Items(before));
      }
    }
  }

  lemma FoldersAreItems(tree: Tree)
    requires tree != map[]
    ensures Items(tree) != {}
  {
    var d :| d in tree;
    assert DateItem(d) in Items(tree);
  }

  /** After as many rotations as there are items the tree is empty. */
  lemma EmptyAfterAllItems(tree: Tree, k: nat)
    requires |Items(tree)| <= k
    ensures RotatedTimes(tree, k) == map[]
  {
    EverythingGoesInTheEnd(tree, k);
    hide Items, RotatedTimes;
    if RotatedTimes(tree, k) != map[] {
      FoldersAreItems(RotatedTimes(tree, k));
    }
  }

  lemma SmallerSet<T>(a: set<T>, b: set<T>)
    requires a < b
    ensures |a| < |b|
  {
    assert b == a + (b - a);
    assert b - a != {};
  }

  // ---- in which order ----

  ghost predicate GoneAt(tree: Tree, i: nat, r: Item) {
    Gone(RotatedTimes(tree, i), RotatedTimes(tree, i + 1), r)
  }

  /** Repeated rotations delete media in (date, hour, stem) order. */
  ghost predicate DeletesInOrder(tree: Tree) {
    forall i: nat, j: nat, r, s | i < j && IsMediaItem(r) && IsMediaItem(s) &&
                                    GoneAt(tree, i, r) && GoneAt(tree, j, s) ::
      OlderItem(r, s)
  }

  lemma DeletedInOrder(tree: Tree, i: nat, j: nat, r: Item, s: Item)
    requires StemOrdered(tree) && i < j && IsMediaItem(r) && IsMediaItem(s) && GoneAt(tree, i, r) && GoneAt(tree, j, s)
    ensures OlderItem(r, s)
  {
    hide StemOrdered, Rotated;
    StaysOrdered(tree, i);
    RemainedBefore(tree, i + 1, j, s);
    RemovedIsOlderThanRemaining(RotatedTimes(tree, i), r, s);
  }

  /** Everything goes at some rotation. */
  lemma {:induction false} GoesAt(tree: Tree, k: nat, r: Item) returns (i: nat)
    requires InTree(tree, r) && !InTree(RotatedTimes(tree, k), r)
    ensures i < k && GoneAt(tree, i, r)
  {
    hide InTree, Rotated;
    if InTree(RotatedTimes(tree, k - 1), r) {
      i := k - 1;
    } else {
      i := GoesAt(tree, k - 1, r);
    }
  }

  lemma {:induction false} PrefixIsLess(a: string, b: string)
    requires a < b
    ensures StringLess(a, b)
  {
    if a != "" {
      PrefixIsLess(a[1..], b[1..]);
    }
  }

  /** A file whose name comes before every name with a smaller stem goes first, out of order. */
  lemma MisnamedGoesFirst(tree: Tree, d: string, h: string, m: string, n: string, i: nat, j: nat)
    requires d in tree && h in tree[d] && m in MediaIn(tree[d][h]) && n in MediaIn(tree[d][h])
    requires StemOf(m) < StemOf(n)
    requires forall m' | m' in MediaIn(tree[d][h]) && StemOf(m') == StemOf(m) :: !StringLess(m', n)
    requires GoneAt(tree, i, FileItem(d, h, n)) && GoneAt(tree, j, FileItem(d, h, m))
    ensures i < j
  {
    hide Rotated, RotatedTimes, Extension, StemOf, StringLess, IsMedia;
    if j <= i {
      RemainedBefore(tree, j, i, FileItem(d, h, n));
      FirstOfItsStem(tree, d, h, m, n, j);
      assert false;
    }
  }

  lemma FirstOfItsStem(tree: Tree, d: string, h: string, m: string, n: string, j: nat)
    requires d in tree && h in tree[d] && m in MediaIn(tree[d][h]) && n in MediaIn(tree[d][h])
    requires GoneAt(tree, j, FileItem(d, h, m)) && InTree(RotatedTimes(tree, j), FileItem(d, h, n))
    requires StemOf(m) != StemOf(n)
    ensures exists m' :: m' in MediaIn(tree[d][h]) && StemOf(m') == StemOf(m) && StringLess(m', n)
  {
    var t := RotatedTimes(tree, j);
    RemovedMedia(t, FileItem(d, h, m));
    hide Rotated, RotatedTimes, Extension, StemOf, StringLess, Counterpart;
    var o := Oldest(MediaIn(t[d][h]));
    CounterpartIs(o);
    NotLessThanOldest(MediaIn(t[d][h]), n);
    RemainedBefore(tree, 0, j, FileItem(d, h, o));
    NoRotationsYet(tree);
    assert o in MediaIn(tree[d][h]);
  }

  lemma NoRotationsYet(tree: Tree)
    ensures RotatedTimes(tree, 0) == tree
  {
  }

  /** The exact condition: media go in (date, hour, stem) order if and only if in every folder names follow stems. */
  lemma InOrderExactlyWhenNamesFollowStems(tree: Tree)
    ensures DeletesInOrder(tree) <==> StemOrdered(tree)
  {
    hide StemOf, Extension, StringLess, RotatedTimes, Gone, OlderItem, MediaIn, Items;
    if StemOrdered(tree) {
      forall i: nat, j: nat, r, s | i < j && IsMediaItem(r) && IsMediaItem(s) &&
                                      GoneAt(tree, i, r) && GoneAt(tree, j, s)
        ensures r.FileItem? && s.FileItem? && OlderItem(r, s)
      {
        DeletedInOrder(tree, i, j, r, s);
      }
    } else {
      var d, h :| d in tree && h in tree[d] && !NamesFollowStems(MediaIn(tree[d][h]));
      var m, n :| m in MediaIn(tree[d][h]) && n in MediaIn(tree[d][h]) && StemOf(m) < StemOf(n) &&
                  !exists m' :: m' in MediaIn(tree[d][h]) && StemOf(m') == StemOf(m) && StringLess(m', n);
      OutOfOrder(tree, d, h, m, n);
    }
  }

  lemma OutOfOrder(tree: Tree, d: string, h: string, m: string, n: string)
    requires d in tree && h in tree[d] && m in MediaIn(tree[d][h]) && n in MediaIn(tree[d][h])
    requires StemOf(m) < StemOf(n)
    requires forall m' | m' in MediaIn(tree[d][h]) && StemOf(m') == StemOf(m) :: !StringLess(m', n)
    ensures !DeletesInOrder(tree)
  {
    var k := |Items(tree)|;
    EmptyAfterAllItems(tree, k);
    hide Items, RotatedTimes;
    var i := GoesAt(tree, k, FileItem(d, h, n));
    var j := GoesAt(tree, k, FileItem(d, h, m));
    MisnamedGoesFirst(tree, d, h, m, n, i, j);
    hide GoneAt, StringLess, StemOf, Extension;
    PrefixIsLess(StemOf(m), StemOf(n));
    StemsNotBothLess(StemOf(m), StemOf(n));
    FoldersNotLess(d, h);
    assert IsMediaItem(FileItem(d, h, n)) && IsMediaItem(FileItem(d, h, m));
    assert !OlderItem(FileItem(d, h, n), FileItem(d, h, m));
  }

  /** They do not when a stem continues another by a character that sorts before the dot of the extension. */
  lemma HyphenGoesFirst(d: string, h: string)
    ensures !DeletesInOrder(map[d := map[h := map["a.mp4" := 0, "a-b.mp4" := 1]]])
  {
    var folder: Folder := map["a.mp4" := 0, "a-b.mp4" := 1];
    var tree := map[d := map[h := folder]];
    var m, n := "a.mp4", "a-b.mp4";
    assert m == "a" + ".mp4" && n == "a-b" + ".mp4";
    ExtensionAppended("a", 'm', 'p', '4');
    ExtensionAppended("a-b", 'm', 'p', '4');
    StemOfNamed("a", ".mp4");
    StemOfNamed("a-b", ".mp4");
    DotIsAfterHyphen();
    hide StemOf, Extension, StringLess;
    assert m in folder && n in folder && IsMedia(m) && IsMedia(n);
    assert tree[d][h] == folder && m in MediaIn(folder) && n in MediaIn(folder);
    assert StemOf(m) == "a" < "a-b" == StemOf(n);
    assert forall m' | m' in MediaIn(folder) && StemOf(m') == StemOf(m) :: m' == m;
    OutOfOrder(tree, d, h, m, n);
  }

  lemma DotIsAfterHyphen()
    ensures !StringLess("a.mp4", "a-b.mp4")
  {
    assert "a.mp4"[1..] == ".mp4" && "a-b.mp4"[1..] == "-b.mp4";
    assert !LexLess(CharLess, ".mp4", "-b.mp4");
  }

  lemma StemsNotBothLess(a: string, b: string)
    requires StringLess(a, b)
    ensures !StringLess(b, a)
  {
    if StringLess(b, a) {
      StringLessIsTotalOrder();
      LexTransitive(CharLess, a, b, a);
      NotLessThanItself(a);
    }
  }

  lemma FoldersNotLess(d: string, h: string)
    ensures !FolderLess(d, h, d, h)
  {
    NotLessThanItself(d);
    NotLessThanItself(h);
  }

  /** Stems of equal length, as recorded files have, are never prefixes of each other. */
  lemma EqualStemsAreOrdered(tree: Tree)
    requires forall d, h, m, n | d in tree && h in tree[d] && m in MediaIn(tree[d][h]) && n in MediaIn(tree[d][h]) ::
               |StemOf(m)| == |StemOf(n)|
    ensures StemOrdered(tree)
  {
    hide StemOf, MediaIn;
  }

  // ---- making room ----

  /** The loop of the cleaner ends without being aborted: there is enough space after some rotations. */
  ghost predicate EndsWithRoom(enough: Tree -> bool, tree: Tree) {
    exists k: nat :: RoomAfter(enough, tree, k)
  }

  ghost predicate RoomAfter(enough: Tree -> bool, tree: Tree, k: nat) {
    enough(RotatedTimes(tree, k))
  }

  /** It does exactly when there is enough space after at most as many rotations as there are items. */
  lemma RoomWithinAllItems(enough: Tree -> bool, tree: Tree)
    ensures EndsWithRoom(enough, tree) <==> exists k: nat :: k <= |Items(tree)| && RoomAfter(enough, tree, k)
  {
    hide Items;
    if EndsWithRoom(enough, tree) {
      var k: nat :| RoomAfter(enough, tree, k);
      var all: nat := |Items(tree)|;
      if k > all {
        EmptyAfterAllItems(tree, k);
        EmptyAfterAllItems(tree, all);
        assert RoomAfter(enough, tree, all);
      }
    }
  }

  /** When other data fills the disk the loop spins on an empty tree. */
  lemma EmptyTreeSpins(enough: Tree -> bool)
    requires !enough(map[])
    ensures !EndsWithRoom(enough, map[])
  {
    assert Items(map[]) == {};
    forall k: nat ensures !enough(RotatedTimes(map[], k)) {
      EmptyAfterAllItems(map[], k);
    }
  }

  /** For files named after the moment they were begun, older means earlier. */
  lemma OlderIsEarlier(a: Moment, b: Moment, ext1: string, ext2: string)
    requires ValidMoment(a) && ValidMoment(b) && ext1 in {".mp4", ".jpg"} && ext2 in {".mp4", ".jpg"}
    ensures var first := FileItem(DateName(a.date), HourName(a.hour), StemName(a) + ext1);
            var second := FileItem(DateName(b.date), HourName(b.hour), StemName(b) + ext2);
            OlderItem(first, second) <==> Earlier(a, b)
  {
    DateNameOrder(a.date, b.date);
    DateNameReadsBack(a.date);
    DateNameReadsBack(b.date);
    TwoDigitsOrder(a.hour, b.hour);
    NamesAreChronological(a, b);
    hide DateName, HourName, StemName, StringLess, ParseDate, Extension;
    StemOfNamed(StemName(a), ext1);
    StemOfNamed(StemName(b), ext2);
  }

  lemma StemOfNamed(stem: string, ext: string)
    requires stem != "" && ext in {".mp4", ".jpg"}
    ensures StemOf(stem + ext) == stem
  {
    ExtensionAppended(stem, 'm', 'p', '4');
    ExtensionAppended(stem, 'j', 'p', 'g');
  }
}
