/** The overlay object: `Rescan` recomputes its text and style from a directory, `Draw` renders them. */
module OsdOverlay {
  import opened Orders
  import opened NaturalOrder
  import opened Bytes
  import opened PackedFrame
  import opened OsdDraw
  import StyleFile
  import opened Text

  const MAX_LINE := 255
  const SEPARATOR := " | "

  /** What opening one directory entry shows. */
  datatype Entry = NotRegular | Unreadable | Regular(bytes: string)

  // ---- the line a file contributes ----

  predicate IsTrailing(c: char) {
    c == '\r' || c == ' ' || c == '\t'
  }

  function DropTrailing(s: string): string {
    if s != "" && IsTrailing(s[|s| - 1]) then DropTrailing(s[..|s| - 1]) else s
  }

  /** The first line of at most 255 bytes of text, without trailing blanks; empty when there is none. */
  function FirstLine(e: Entry): string {
    if e.Regular? then
      var text := Before(if |e.bytes| > MAX_LINE then e.bytes[..MAX_LINE] else e.bytes, '\0');
      DropTrailing(Before(text, '\n'))
    else ""
  }

  function LinesOf(names: seq<string>, open: string -> Entry): seq<string> {
    if names == [] then []
    else
      var rest := LinesOf(names[..|names| - 1], open);
      var line := FirstLine(open(names[|names| - 1]));
      if line == "" then rest else rest + [line]
  }

  /** Lines with the separator between them. */
  function Joined(lines: seq<string>): string {
    if lines == [] then "" else
    if |lines| == 1 then lines[0] else Joined(lines[..|lines| - 1]) + SEPARATOR + lines[|lines| - 1]
  }

  function Composed(names: seq<string>, open: string -> Entry): string {
    Joined(LinesOf(names, open))
  }

  lemma {:induction false} LinesAreNotEmpty(names: seq<string>, open: string -> Entry)
    ensures forall i | 0 <= i < |LinesOf(names, open)| :: LinesOf(names, open)[i] != ""
    ensures Composed(names, open) == "" <==> LinesOf(names, open) == []
  {
    if names != [] {
      LinesAreNotEmpty(names[..|names| - 1], open);
    }
  }

  lemma NothingComposed(open: string -> Entry)
    ensures Composed([], open) == ""
  {
  }

  /** What one more file adds to the text. */
  lemma ComposedNext(names: seq<string>, k: nat, open: string -> Entry)
    requires k < |names|
    ensures var before, line := Composed(names[..k], open), FirstLine(open(names[k]));
            Composed(names[..k + 1], open)
            == if line == "" then before else if before == "" then line else before + SEPARATOR + line
  {
    hide FirstLine;
    LinesAreNotEmpty(names[..k], open);
    assert names[..k + 1][..k] == names[..k];
    var lines, line := LinesOf(names[..k], open), FirstLine(open(names[k]));
    if line != "" {
      assert LinesOf(names[..k + 1], open) == lines + [line];
      hide LinesOf;
      assert (lines + [line])[..|lines|] == lines;
    }
  }

  // ---- sorting ----

  function Select(names: seq<string>, p: string -> bool): seq<string> {
    if names == [] then []
    else Select(names[..|names| - 1], p) + (if p(names[|names| - 1]) then [names[|names| - 1]] else [])
  }

  lemma {:induction false} SelectCounts(names: seq<string>, p: string -> bool, x: string)
    ensures multiset(Select(names, p))[x] == if p(x) then multiset(names)[x] else 0
  {
    if names != [] {
      SelectCounts(names[..|names| - 1], p, x);
      assert names == names[..|names| - 1] + [names[|names| - 1]];
    }
  }

  /** std::sort with the natural comparator: some sorted arrangement of the names. */
  method SortNames(names: seq<string>) returns (r: seq<string>)
    ensures Sorted(NaturalLess, r) && multiset(r) == multiset(names)
  {
    hide NaturalLess;
    r := [];
    var n := 0;
    while n < |names|
      invariant 0 <= n <= |names| && Sorted(NaturalLess, r) && multiset(r) == multiset(names[..n])
    {
      r := InsertName(r, names[n]);
      assert names[..n + 1] == names[..n] + [names[n]];
      n := n + 1;
    }
    assert names[..n] == names;
  }

  method InsertName(xs: seq<string>, x: string) returns (r: seq<string>)
    requires Sorted(NaturalLess, xs)
    ensures Sorted(NaturalLess, r) && multiset(r) == multiset(xs) + multiset{x}
  {
    hide NaturalLess;
    ghost var less := NaturalLess;
    NaturalLessIsTotalOrder();
    var i := 0;
    while i < |xs|
      invariant 0 <= i <= |xs| && forall k | 0 <= k < i :: less(xs[k], x)
    {
      var before := CompareNatural(xs[i], x);
      if !before {
        break;
      }
      i := i + 1;
    }
    r := xs[..i] + [x] + xs[i..];
    assert xs == xs[..i] + xs[i..];
    InsertKeepsSorted(less, xs, i, x);
  }

  // ---- what a rescan finds ----

  /** `sorted` holds exactly the names of the listing that p selects, in order. */
  ghost predicate Arranged(less: (string, string) -> bool, listing: seq<string>, p: string -> bool,
                           sorted: seq<string>) {
    Sorted(less, sorted) && multiset(sorted) == multiset(Select(listing, p))
  }

  lemma ArrangementUnique(less: (string, string) -> bool, a: seq<string>, b: seq<string>, p: string -> bool,
                          xs: seq<string>, ys: seq<string>)
    requires StrictTotalOrder(less) && multiset(a) == multiset(b)
    requires Arranged(less, a, p, xs) && Arranged(less, b, p, ys)
    ensures xs == ys
  {
    forall x: string ensures multiset(Select(a, p))[x] == multiset(Select(b, p))[x] {
      SelectCounts(a, p, x);
      SelectCounts(b, p, x);
    }
    SortedUnique(less, xs, ys);
  }

  function TextNames(glob: string -> bool, isPosition: string -> bool): string -> bool {
    n => glob(n) && !isPosition(n)
  }

  /** The text and the style that a listing of the directory leads to. */
  ghost predicate Found(listing: seq<string>, glob: string -> bool, isPosition: string -> bool, open: string -> Entry,
                        text: string, style: OsdStyle)
  {
    && (exists names :: Arranged(NaturalLess, listing, TextNames(glob, isPosition), names) &&
                        text == Composed(names, open))
    && (exists positions :: Arranged(NaturalLess, listing, isPosition, positions) &&
                            style == StyleOf(positions, open))
  }

  function StyleOf(positions: seq<string>, open: string -> Entry): OsdStyle {
    if positions == [] then StyleFile.DEFAULT_STYLE
    else match open(positions[0])
         case Regular(bytes) => StyleFile.Parsed(StyleFile.DEFAULT_STYLE, bytes)
         case _ => StyleFile.DEFAULT_STYLE
  }

  /** Text and style do not depend on the order in which the directory lists its entries. */
  lemma ListingOrderDoesNotMatter(a: seq<string>, b: seq<string>, glob: string -> bool, isPosition: string -> bool,
                                  open: string -> Entry, t: string, s: OsdStyle, t': string, s': OsdStyle)
    requires multiset(a) == multiset(b)
    requires Found(a, glob, isPosition, open, t, s) && Found(b, glob, isPosition, open, t', s')
    ensures t == t' && s == s'
  {
    var less := NaturalLess;
    NaturalLessIsTotalOrder();
    var isText := TextNames(glob, isPosition);
    var xs :| Arranged(less, a, isText, xs) && t == Composed(xs, open);
    var ys :| Arranged(less, b, isText, ys) && t' == Composed(ys, open);
    ArrangementUnique(less, a, b, isText, xs, ys);
    var ps :| Arranged(less, a, isPosition, ps) && s == StyleOf(ps, open);
    var qs :| Arranged(less, b, isPosition, qs) && s' == StyleOf(qs, open);
    ArrangementUnique(less, a, b, isPosition, ps, qs);
  }

  // ---- what the text is ----

  /** The texts of two groups of files are put together with one separator between them, if neither is empty. */
  lemma {:induction false} ComposedInOrder(a: seq<string>, b: seq<string>, open: string -> Entry)
    ensures Composed(a + b, open) ==
            if Composed(b, open) == "" then Composed(a, open)
            else if Composed(a, open) == "" then Composed(b, open)
            else Composed(a, open) + " | " + Composed(b, open)
    decreases |b|
  {
    hide FirstLine, Composed;
    if b == [] {
      assert a + b == a;
      NothingComposed(open);
    } else {
      var most, ab := b[..|b| - 1], a + b;
      ComposedInOrder(a, most, open);
      ComposedNext(b, |b| - 1, open);
      ComposedNext(ab, |ab| - 1, open);
      assert b[..|b|] == b && ab[..|ab|] == ab && ab[..|ab| - 1] == a + most;
    }
  }

  lemma ComposedOfOne(name: string, open: string -> Entry)
    ensures Composed([name], open) == FirstLine(open(name))
  {
    hide FirstLine, Composed;
    ComposedNext([name], 0, open);
    assert [name][..0] == [] && [name][..1] == [name];
    NothingComposed(open);
  }

  predicate AllTrailing(s: string) {
    forall i | 0 <= i < |s| :: IsTrailing(s[i])
  }

  lemma {:induction false} TrailingDropped(line: string, blanks: string)
    requires AllTrailing(blanks) && (line == "" || !IsTrailing(line[|line| - 1]))
    ensures DropTrailing(line + blanks) == line
    decreases |blanks|
  {
    var s := line + blanks;
    if blanks == "" {
      assert s == line;
    } else {
      assert s[|s| - 1] == blanks[|blanks| - 1] && s[..|s| - 1] == line + blanks[..|blanks| - 1];
      TrailingDropped(line, blanks[..|blanks| - 1]);
    }
  }

  /** A file contributes its first line without the blanks at its end, whatever follows, if the line is not longer
      than 255 bytes. */
  lemma FirstLineIs(line: string, blanks: string, rest: string)
    requires '\n' !in line && '\0' !in line && AllTrailing(blanks) && |line| + |blanks| <= 255
    requires (line == "" || !IsTrailing(line[|line| - 1])) && (rest == "" || rest[0] == '\n')
    ensures FirstLine(Regular(line + blanks + rest)) == line
  {
    hide DropTrailing, Before;
    var bytes, shown := line + blanks + rest, line + blanks;
    var tail := if |bytes| > MAX_LINE then rest[..MAX_LINE - |shown|] else rest;
    assert (if |bytes| > MAX_LINE then bytes[..MAX_LINE] else bytes) == shown + tail;
    assert '\0' !in shown && '\n' !in shown;
    BeforeOfSum(shown, tail, '\0');
    NewlineFirst(tail);
    BeforeOfSum(shown, Before(tail, '\0'), '\n');
    assert shown + "" == shown;
    TrailingDropped(line, blanks);
  }

  /** Tabs, spaces and carriage returns at the end of a line do not show. */
  lemma BlanksDoNotShow(line: string, rest: string)
    requires '\n' !in line && '\0' !in line && |line| <= 252 && (rest == "" || rest[0] == '\n')
    requires line == "" || line[|line| - 1] !in {' ', '\t', '\r'}
    ensures FirstLine(Regular(line + " \t\r" + rest)) == line
  {
    FirstLineIs(line, " \t\r", rest);
  }

  lemma NewlineFirst(tail: string)
    requires tail == "" || tail[0] == '\n'
    ensures Before(Before(tail, '\0'), '\n') == ""
  {
  }

  /** The first of two names of text files contributes the first part of the text; style files contribute none. */
  lemma TwoFilesInOrder(listing: seq<string>, glob: string -> bool, isPosition: string -> bool, open: string -> Entry,
                        text: string, style: OsdStyle, a: string, b: string, p: string)
    requires multiset(listing) == multiset{a, b, p} && Found(listing, glob, isPosition, open, text, style)
    requires glob(a) && glob(b) && !isPosition(a) && !isPosition(b) && isPosition(p) && NaturalLess(a, b)
    requires FirstLine(open(a)) != "" && FirstLine(open(b)) != ""
    ensures text == FirstLine(open(a)) + " | " + FirstLine(open(b))
  {
    hide NaturalLess, FirstLine, Composed, Select, Arranged;
    var isText := TextNames(glob, isPosition);
    var names :| Arranged(NaturalLess, listing, isText, names) && text == Composed(names, open);
    SelectOfThree(listing, isText, a, b, p);
    TwoInOrder(listing, isText, names, a, b);
    ComposedInOrder([a], [b], open);
    ComposedOfOne(a, open);
    ComposedOfOne(b, open);
    assert [a] + [b] == [a, b];
  }

  lemma SelectOfThree(listing: seq<string>, p: string -> bool, a: string, b: string, c: string)
    requires multiset(listing) == multiset{a, b, c} && p(a) && p(b) && !p(c)
    ensures multiset(Select(listing, p)) == multiset{a, b}
  {
    forall x: string ensures multiset(Select(listing, p))[x] == multiset{a, b}[x] {
      SelectCounts(listing, p, x);
      hide Select;
    }
  }

  lemma TwoInOrder(listing: seq<string>, p: string -> bool, names: seq<string>, a: string, b: string)
    requires Arranged(NaturalLess, listing, p, names) && multiset(Select(listing, p)) == multiset{a, b}
    requires NaturalLess(a, b)
    ensures names == [a, b]
  {
    var less := NaturalLess;
    NaturalLessIsTotalOrder();
    assert less(a, b) == NaturalLess(a, b);
    hide NaturalLess, Select;
    assert !less(b, a) && multiset([a, b]) == multiset{a, b};
    SortedUnique(less, names, [a, b]);
  }

  /** The style file whose name comes first decides. */
  lemma FirstStyleFileDecides(listing: seq<string>, glob: string -> bool, isPosition: string -> bool,
                              open: string -> Entry, text: string, style: OsdStyle, p: string)
    requires Found(listing, glob, isPosition, open, text, style) && p in listing && isPosition(p)
    requires forall n | n in listing && isPosition(n) :: n == p || NaturalLess(p, n)
    ensures style == if open(p).Regular? then StyleFile.Parsed(StyleFile.DEFAULT_STYLE, open(p).bytes)
                     else OsdStyle(Top, Right, 0, 0, Box, 2)
  {
    var less := NaturalLess;
    NaturalLessIsTotalOrder();
    assert forall n | n in listing && isPosition(n) :: n == p || less(p, n);
    hide NaturalLess;
    var ps :| Arranged(NaturalLess, listing, isPosition, ps) && style == StyleOf(ps, open);
    forall n: string ensures n in ps <==> n in listing && isPosition(n) {
      SelectCounts(listing, isPosition, n);
      assert multiset(ps)[n] == multiset(Select(listing, isPosition))[n];
    }
    var i :| 0 <= i < |ps| && ps[i] == p;
    assert ps[0] in ps;
    assert i > 0 ==> !less(ps[i], ps[0]);
    assert ps[0] == p;
  }

  datatype Listing = Entries(names: seq<string>) | NoDirectory

  class OsdOverlay {
    const glob: string -> bool
    const isPosition: string -> bool
    const font: Font
    var text: string
    var style: OsdStyle

    constructor (glob: string -> bool, isPosition: string -> bool, font: Font)
      ensures this.glob == glob && this.isPosition == isPosition && this.font == font
      ensures text == "" && style == StyleFile.DEFAULT_STYLE
    {
      this.glob, this.isPosition, this.font := glob, isPosition, font;
      text, style := "", StyleFile.DEFAULT_STYLE;
    }

    /** Recomputes text and style; without a directory there is nothing to draw. Reports whether a default
        style file has to be created. */
    method Rescan(listing: Listing, open: string -> Entry) returns (createDefault: bool)
      modifies this
      ensures match listing
              case NoDirectory => text == "" && style == StyleFile.DEFAULT_STYLE && !createDefault
              case Entries(names) =>
                Found(names, glob, isPosition, open, text, style) &&
                (createDefault <==> forall n | n in names :: !isPosition(n))
    {
      createDefault := false;
      if listing.NoDirectory? {
        text, style := "", StyleFile.DEFAULT_STYLE;
        return;
      }
      var names, positions := Classify(listing.names);
      var sorted := SortNames(names);
      assert Arranged(NaturalLess, listing.names, TextNames(glob, isPosition), sorted);
      var composed := Compose(sorted, open);
      NonePositioned(listing.names, isPosition);
      createDefault := |positions| == 0;
      var ps := SortNames(positions);
      assert Arranged(NaturalLess, listing.names, isPosition, ps);
      assert ps == [] <==> positions == [] by {
        assert |multiset(ps)| == |ps| && |multiset(positions)| == |positions|;
      }
      var found := ReadStyle(ps, open);
      text, style := composed, found;
    }

    /** The loop over the directory entries: style files first, then what the pattern selects. */
    method Classify(listing: seq<string>) returns (names: seq<string>, positions: seq<string>)
      ensures names == Select(listing, TextNames(glob, isPosition)) && positions == Select(listing, isPosition)
    {
      names, positions := [], [];
      var k := 0;
      while k < |listing|
        invariant 0 <= k <= |listing|
        invariant names == Select(listing[..k], TextNames(glob, isPosition))
        invariant positions == Select(listing[..k], isPosition)
      {
        assert listing[..k + 1][..k] == listing[..k];
        if isPosition(listing[k]) {
          positions := positions + [listing[k]];
        } else if glob(listing[k]) {
          names := names + [listing[k]];
        }
        k := k + 1;
      }
      assert listing[..k] == listing;
    }

    method ReadStyle(positions: seq<string>, open: string -> Entry) returns (found: OsdStyle)
      ensures found == StyleOf(positions, open)
    {
      found := StyleFile.DEFAULT_STYLE;
      if |positions| > 0 {
        var first := open(positions[0]);
        var ok, parsed := StyleFile.ParseStyleFile(
          if first.Regular? then StyleFile.Content(first.bytes) else StyleFile.Unreadable, found);
        found := parsed;
      }
    }

    /** The loop that joins the lines. */
    method Compose(names: seq<string>, open: string -> Entry) returns (composed: string)
      ensures composed == Composed(names, open)
    {
      hide FirstLine, Composed;
      composed := "";
      var k := 0;
      assert names[..0] == [];
      NothingComposed(open);
      while k < |names|
        invariant 0 <= k <= |names| && composed == Composed(names[..k], open)
      {
        ComposedNext(names, k, open);
        var line := FirstLine(open(names[k]));
        if line != "" {
          if composed != "" {
            composed := composed + SEPARATOR;
          }
          composed := composed + line;
        }
        k := k + 1;
      }
      assert names[..k] == names;
    }

    /** Draws the cached text over a frame. */
    method Draw(img: array<Byte>, g: Geometry)
      requires Fits(img[..], g)
      modifies img
      ensures if text == "" then img[..] == old(img[..])
              else Drawn(font, text, style, Place(text, style, g.width, g.height), g, old(img[..]), img[..])
    {
      DrawText(img, g, font, text, style);
    }
  }

  lemma {:induction false} NonePositioned(names: seq<string>, p: string -> bool)
    ensures Select(names, p) == [] <==> forall n | n in names :: !p(n)
  {
    if names != [] {
      NonePositioned(names[..|names| - 1], p);
      assert forall n :: n in names <==> n in names[..|names| - 1] || n == names[|names| - 1];
    }
  }
}
