/** The recorder of cameras that deliver H.264: it passes frames through from the first keyframe by which both
    parameter sets have been seen. The scan for them skips over every start code it finds. */
module RawH264Recorder {
  import opened Bytes

  const NAL_SPS := 7
  const NAL_PPS := 8

  /** Length of the start code at position i (3 or 4 bytes), or 0 when there is none. */
  function StartCode(d: seq<Byte>, i: int): int
    requires 0 <= i && i + 3 < |d|
  {
    if d[i] == 0 && d[i + 1] == 0 && d[i + 2] == 1 then 3
    else if d[i] == 0 && d[i + 1] == 0 && d[i + 2] == 0 && d[i + 3] == 1 then 4
    else 0
  }

  /** The byte after the start code at i, which holds the NAL unit type in its low five bits. */
  function Header(d: seq<Byte>, i: int): Byte
    requires 0 <= i && i + 4 < |d|
  {
    d[i + StartCode(d, i)]
  }

  /** The scan of every position: whether some start code announces a NAL unit of the type. */
  ghost predicate Announces(d: seq<Byte>, nal: int) {
    exists i | 0 <= i < |d| - 4 :: StartCode(d, i) != 0 && Header(d, i) % 32 == nal
  }

  /** In the terms of Annex B of ITU-T H.264: the bytes 0 0 1, or 0 0 0 1, and then a byte whose low five bits are the
      type. */
  predicate StartsUnit(d: seq<Byte>, i: int, nal: int)
    requires 0 <= i < |d| - 4
  {
    (d[i..i + 3] == [0, 0, 1] && d[i + 3] % 32 == nal) || (d[i..i + 4] == [0, 0, 0, 1] && d[i + 4] % 32 == nal)
  }

  lemma AnnouncesByStartCode(d: seq<Byte>, nal: int)
    ensures Announces(d, nal) <==> exists i | 0 <= i < |d| - 4 :: StartsUnit(d, i, nal)
  {
    forall i | 0 <= i < |d| - 4 ensures StartsUnit(d, i, nal) <==> StartCode(d, i) != 0 && Header(d, i) % 32 == nal {
      var three, four := d[i..i + 3], d[i..i + 4];
      assert three[0] == four[0] == d[i] && three[1] == four[1] == d[i + 1] && three[2] == four[2] == d[i + 2];
      assert four[3] == d[i + 3];
      assert three == [d[i], d[i + 1], d[i + 2]] && four == [d[i], d[i + 1], d[i + 2], d[i + 3]];
    }
  }

  /** A NAL unit header is never zero in a conforming stream: type 0 is unspecified (Table 7-1 of ITU-T H.264). */
  ghost predicate HeadersNonZero(d: seq<Byte>) {
    forall i | 0 <= i < |d| - 4 && StartCode(d, i) != 0 :: Header(d, i) != 0
  }

  /** The header byte of the start code at i begins another start code, the tail of which is not a start code within
      the range: a three-byte one, or a four-byte one at the last position. */
  predicate Hides(d: seq<Byte>, i: int)
    requires 0 <= i < |d| - 4
  {
    StartCode(d, i) != 0 &&
    var k := i + StartCode(d, i);
    k < |d| - 4 && (StartCode(d, k) == 3 || (StartCode(d, k) == 4 && k + 5 == |d|))
  }

  ghost predicate NothingHidden(d: seq<Byte>) {
    forall i | 0 <= i < |d| - 4 :: !Hides(d, i)
  }

  /** The scan of the recorder from position i on: after a start code it resumes behind the header byte. */
  predicate SkippingScan(d: seq<Byte>, i: nat, nal: int)
    decreases |d| - i
  {
    i + 4 < |d| &&
    if StartCode(d, i) != 0 then Header(d, i) % 32 == nal || SkippingScan(d, i + StartCode(d, i) + 1, nal)
    else SkippingScan(d, i + 1, nal)
  }

  // ---- which headers it inspects ----

  /** Position h holds the header of some start code. */
  ghost predicate IsHeader(d: seq<Byte>, h: int) {
    exists i | 0 <= i < |d| - 4 :: StartCode(d, i) != 0 && i + StartCode(d, i) == h
  }

  /** The skipping scan from position i on visits position p. */
  predicate Visits(d: seq<Byte>, i: nat, p: int)
    decreases |d| - i
  {
    i + 4 < |d| && (i == p || Visits(d, if StartCode(d, i) != 0 then i + StartCode(d, i) + 1 else i + 1, p))
  }

  /** It inspects the header at position h. */
  ghost predicate Inspects(d: seq<Byte>, h: int) {
    exists p | 0 <= p < |d| - 4 :: Visits(d, 0, p) && StartCode(d, p) != 0 && p + StartCode(d, p) == h
  }

  /** What it visits after a position it visits. */
  lemma {:induction false} VisitsNext(d: seq<Byte>, i: nat, p: int)
    requires Visits(d, i, p)
    ensures i <= p < |d| - 4
    ensures var next := if StartCode(d, p) != 0 then p + StartCode(d, p) + 1 else p + 1;
            next < |d| - 4 ==> Visits(d, i, next)
    decreases |d| - i
  {
    if i != p {
      VisitsNext(d, if StartCode(d, i) != 0 then i + StartCode(d, i) + 1 else i + 1, p);
    }
  }

  /** A position is visited, or skipped after a start code that is. */
  lemma {:induction false} VisitedOrSkipped(d: seq<Byte>, q: int)
    requires 0 <= q < |d| - 4
    ensures Visits(d, 0, q) || exists p | 0 <= p < q ::
              Visits(d, 0, p) && StartCode(d, p) != 0 && q <= p + StartCode(d, p)
    decreases q
  {
    if 0 < q {
      VisitedOrSkipped(d, q - 1);
      if Visits(d, 0, q - 1) {
        VisitsNext(d, 0, q - 1);
      } else {
        var p :| 0 <= p < q - 1 && Visits(d, 0, p) && StartCode(d, p) != 0 && q - 1 <= p + StartCode(d, p);
        VisitsNext(d, 0, p);
      }
    }
  }

  /** What is skipped after a start code at p is the tail of the same one, or begins on its header. */
  lemma SkippedStartCodes(d: seq<Byte>, p: int, q: int)
    requires 0 <= p < |d| - 4 && StartCode(d, p) != 0 && p < q <= p + StartCode(d, p) && q < |d| - 4
    ensures StartCode(d, q) != 0 ==>
              q == p + StartCode(d, p) || (q == p + 1 && q + StartCode(d, q) == p + StartCode(d, p))
  {
  }

  /** The header at position h belongs to the start code that a visited start code hides. */
  ghost predicate Hidden(d: seq<Byte>, h: int) {
    exists p | 0 <= p < |d| - 4 :: Visits(d, 0, p) && Hides(d, p) && HiddenHeader(d, p) == h
  }

  function HiddenHeader(d: seq<Byte>, p: int): int
    requires 0 <= p < |d| - 4 && Hides(d, p)
  {
    var k := p + StartCode(d, p);
    k + StartCode(d, k)
  }

  /** Every header is inspected or hidden. */
  lemma InspectedOrHidden(d: seq<Byte>, i: int)
    requires 0 <= i < |d| - 4 && StartCode(d, i) != 0
    ensures Inspects(d, i + StartCode(d, i)) || Hidden(d, i + StartCode(d, i))
  {
    VisitedOrSkipped(d, i);
    if !Visits(d, 0, i) {
      var p :| 0 <= p < i && Visits(d, 0, p) && StartCode(d, p) != 0 && i <= p + StartCode(d, p);
      SkippedStartCodes(d, p, i);
      if i == p + StartCode(d, p) && !Hides(d, p) {
        VisitsNext(d, 0, p);
        assert Visits(d, 0, i + 1) && StartCode(d, i + 1) == 3;
      } else if i == p + StartCode(d, p) {
        assert HiddenHeader(d, p) == i + StartCode(d, i);
      }
    }
  }

  /** A hidden header is not inspected. */
  lemma HiddenIsNotInspected(d: seq<Byte>, p: int)
    requires Visits(d, 0, p) && 0 <= p < |d| - 4 && Hides(d, p)
    ensures IsHeader(d, HiddenHeader(d, p)) && !Inspects(d, HiddenHeader(d, p))
  {
    var k := p + StartCode(d, p);
    var h := k + StartCode(d, k);
    forall q | 0 <= q < |d| - 4 && StartCode(d, q) != 0 && q + StartCode(d, q) == h ensures !Visits(d, 0, q) {
      if Visits(d, 0, q) {
        assert q == k;
        SkippedNotVisited(d, 0, p, q);
      }
    }
  }

  /** Positions between a visited one and its successor are not visited. */
  lemma {:induction false} SkippedNotVisited(d: seq<Byte>, i: nat, p: int, q: int)
    requires Visits(d, i, p) && 0 <= p < q && p < |d| - 4 && StartCode(d, p) != 0 && q <= p + StartCode(d, p)
    ensures !Visits(d, i, q)
    decreases |d| - i
  {
    var next := if StartCode(d, i) != 0 then i + StartCode(d, i) + 1 else i + 1;
    if i == p {
      VisitsFrom(d, next, q);
    } else {
      VisitsFrom(d, next, p);
      SkippedNotVisited(d, next, p, q);
    }
  }

  lemma {:induction false} VisitsFrom(d: seq<Byte>, i: nat, q: int)
    ensures Visits(d, i, q) ==> i <= q
    decreases |d| - i
  {
    if i + 4 < |d| && i != q {
      VisitsFrom(d, if StartCode(d, i) != 0 then i + StartCode(d, i) + 1 else i + 1, q);
    }
  }

  /** A start code that hides one leads to a visited one that does. */
  lemma HidingIsVisited(d: seq<Byte>, i: int)
    requires 0 <= i < |d| - 4 && Hides(d, i)
    ensures exists p | 0 <= p < |d| - 4 :: Visits(d, 0, p) && Hides(d, p)
  {
    VisitedOrSkipped(d, i);
    if !Visits(d, 0, i) {
      var p :| 0 <= p < i && Visits(d, 0, p) && StartCode(d, p) != 0 && i <= p + StartCode(d, p);
      SkippedStartCodes(d, p, i);
      if i == p + StartCode(d, p) && !Hides(d, p) {
        VisitsNext(d, 0, p);
        assert Visits(d, 0, i + 1) && Hides(d, i + 1);
      } else {
        assert Hides(d, p);
      }
    }
  }

  /** The exact condition: the skipping scan inspects the headers of all start codes in its range if and only if no
      start code hides one. */
  lemma InspectsAllExactlyWhenNothingHidden(d: seq<Byte>)
    ensures NothingHidden(d) <==> forall h :: IsHeader(d, h) ==> Inspects(d, h)
  {
    if NothingHidden(d) {
      forall h | IsHeader(d, h) ensures Inspects(d, h) {
        var i :| 0 <= i < |d| - 4 && StartCode(d, i) != 0 && i + StartCode(d, i) == h;
        InspectedOrHidden(d, i);
      }
    } else {
      var i :| 0 <= i < |d| - 4 && Hides(d, i);
      HidingIsVisited(d, i);
      var p :| 0 <= p < |d| - 4 && Visits(d, 0, p) && Hides(d, p);
      HiddenIsNotInspected(d, p);
    }
  }

  // ---- what it reports ----

  /** The scan reports a type when some position it visits announces it. */
  lemma {:induction false} ScanReportsVisited(d: seq<Byte>, i: nat, nal: int)
    ensures SkippingScan(d, i, nal) <==>
            exists p | 0 <= p < |d| - 4 :: Visits(d, i, p) && StartCode(d, p) != 0 && Header(d, p) % 32 == nal
    decreases |d| - i
  {
    if i + 4 < |d| {
      var next := if StartCode(d, i) != 0 then i + StartCode(d, i) + 1 else i + 1;
      ScanReportsVisited(d, next, nal);
      forall p ensures Visits(d, i, p) <==> p == i || Visits(d, next, p) {
      }
    }
  }

  /** The skipping scan reports nothing that is not there. */
  lemma SkippingScanIsSound(d: seq<Byte>, nal: int)
    requires SkippingScan(d, 0, nal)
    ensures Announces(d, nal)
  {
    ScanReportsVisited(d, 0, nal);
  }

  /** Some position announces the type, and no start code that the scan visits hides its header. */
  ghost predicate AnnouncesOpenly(d: seq<Byte>, nal: int) {
    exists i | 0 <= i < |d| - 4 ::
      StartCode(d, i) != 0 && Header(d, i) % 32 == nal && !Hidden(d, i + StartCode(d, i))
  }

  /** The exact condition for a type: it is reported unless every position that announces it is hidden. */
  lemma ReportsExactlyTheOpenlyAnnounced(d: seq<Byte>, nal: int)
    ensures SkippingScan(d, 0, nal) <==> AnnouncesOpenly(d, nal)
  {
    ScanReportsVisited(d, 0, nal);
    if SkippingScan(d, 0, nal) {
      var i :| 0 <= i < |d| - 4 && Visits(d, 0, i) && StartCode(d, i) != 0 && Header(d, i) % 32 == nal;
      if Hidden(d, i + StartCode(d, i)) {
        var p :| 0 <= p < |d| - 4 && Visits(d, 0, p) && Hides(d, p) && HiddenHeader(d, p) == i + StartCode(d, i);
        HiddenIsNotInspected(d, p);
        assert false;
      }
    }
    if AnnouncesOpenly(d, nal) {
      var i :| 0 <= i < |d| - 4 && StartCode(d, i) != 0 && Header(d, i) % 32 == nal && !Hidden(d, i + StartCode(d, i));
      InspectedOrHidden(d, i);
      var p :| 0 <= p < |d| - 4 && Visits(d, 0, p) && StartCode(d, p) != 0 &&
               p + StartCode(d, p) == i + StartCode(d, i);
      assert Header(d, p) == Header(d, i);
    }
  }

  /** It misses no type when nothing is hidden. */
  lemma SkippingScanIsComplete(d: seq<Byte>, nal: int)
    requires NothingHidden(d) && Announces(d, nal)
    ensures SkippingScan(d, 0, nal)
  {
    var i :| 0 <= i < |d| - 4 && StartCode(d, i) != 0 && Header(d, i) % 32 == nal;
    assert !Hidden(d, i + StartCode(d, i));
    ReportsExactlyTheOpenlyAnnounced(d, nal);
  }

  lemma NonZeroHeadersHideNothing(d: seq<Byte>)
    requires HeadersNonZero(d)
    ensures NothingHidden(d)
  {
    forall i | 0 <= i < |d| - 4 && StartCode(d, i) != 0 ensures !Hides(d, i) {
      assert Header(d, i) != 0;
    }
  }

  /** In a conforming stream the skipping scan is the full scan. */
  lemma SkippingScanIsFullScan(d: seq<Byte>, nal: int)
    requires HeadersNonZero(d)
    ensures SkippingScan(d, 0, nal) <==> Announces(d, nal)
  {
    NonZeroHeadersHideNothing(d);
    if SkippingScan(d, 0, nal) {
      SkippingScanIsSound(d, nal);
    }
    if Announces(d, nal) {
      SkippingScanIsComplete(d, nal);
    }
  }

  /** With a zero header byte it does miss a parameter set. */
  lemma ZeroHeaderHidesSps()
    ensures var d: seq<Byte> := [0, 0, 1, 0, 0, 1, 0x67, 0x42];
            Announces(d, NAL_SPS) && !SkippingScan(d, 0, NAL_SPS)
  {
    var d: seq<Byte> := [0, 0, 1, 0, 0, 1, 0x67, 0x42];
    assert StartCode(d, 0) == 3 && Header(d, 0) == 0;
    assert StartCode(d, 3) == 3 && Header(d, 3) == 0x67;
    assert !SkippingScan(d, 4, NAL_SPS);
  }

  datatype Frame = Frame(data: seq<Byte>, key: bool)

  datatype State = State(sps: bool, pps: bool, started: bool)

  const RELEASED := State(false, false, false)

  class RawH264Recorder {
    var hasSps: bool
    var hasPps: bool
    var hasFirstKeyframe: bool

    constructor ()
      ensures Abstract() == RELEASED
    {
      hasSps, hasPps, hasFirstKeyframe := false, false, false;
    }

    ghost function Abstract(): State
      reads this
    {
      State(hasSps, hasPps, hasFirstKeyframe)
    }

    /** The loop of the skipping scan; it never reads past the data. Flags that were set stay set. */
    method CheckNALUnits(d: seq<Byte>)
      modifies this
      ensures hasFirstKeyframe == old(hasFirstKeyframe)
      ensures hasSps == (old(hasSps) || SkippingScan(d, 0, NAL_SPS))
      ensures hasPps == (old(hasPps) || SkippingScan(d, 0, NAL_PPS))
    {
      if |d| < 4 {
        return;
      }
      var i := 0;
      while i < |d| - 4
        invariant 0 <= i && hasFirstKeyframe == old(hasFirstKeyframe)
        invariant hasSps || SkippingScan(d, i, NAL_SPS) <==> old(hasSps) || SkippingScan(d, 0, NAL_SPS)
        invariant hasPps || SkippingScan(d, i, NAL_PPS) <==> old(hasPps) || SkippingScan(d, 0, NAL_PPS)
      {
        if d[i] == 0 && d[i + 1] == 0 && (d[i + 2] == 1 || (d[i + 2] == 0 && d[i + 3] == 1)) {
          var startCodeSize := if d[i + 2] == 1 then 3 else 4;
          var nalUnitType := d[i + startCodeSize] % 32;
          if nalUnitType == NAL_SPS {
            hasSps := true;
          } else if nalUnitType == NAL_PPS {
            hasPps := true;
          }
          i := i + startCodeSize;
        }
        i := i + 1;
      }
    }

    /** Whether the frame is handed on. */
    method Encode(f: Frame) returns (emitted: bool)
      modifies this
      ensures Abstract() == AfterEncode(old(Abstract()), f)
      ensures emitted == Abstract().started
    {
      if f.key && !hasFirstKeyframe {
        CheckNALUnits(f.data);
        if hasSps && hasPps {
          hasFirstKeyframe := true;
        }
      }
      emitted := hasFirstKeyframe;
    }

    method ReleaseEncoder()
      modifies this
      ensures Abstract() == RELEASED
    {
      hasSps, hasPps, hasFirstKeyframe := false, false, false;
    }
  }

  function AfterEncode(s: State, f: Frame): State {
    if f.key && !s.started then
      var sps, pps := s.sps || SkippingScan(f.data, 0, NAL_SPS), s.pps || SkippingScan(f.data, 0, NAL_PPS);
      State(sps, pps, sps && pps)
    else s
  }

  function AfterFrames(fs: seq<Frame>): State {
    if fs == [] then RELEASED else AfterEncode(AfterFrames(fs[..|fs| - 1]), fs[|fs| - 1])
  }

  predicate ShowsNal(f: Frame, nal: int) {
    f.key && SkippingScan(f.data, 0, nal)
  }

  /** The scan finds the type in some keyframe among the frames. */
  ghost predicate Seen(fs: seq<Frame>, nal: int) {
    exists k | 0 <= k < |fs| :: ShowsNal(fs[k], nal)
  }

  /** Frame k is a keyframe by which both parameter sets have been seen. */
  ghost predicate CompletesAt(fs: seq<Frame>, k: int)
    requires 0 <= k < |fs|
  {
    fs[k].key && Seen(fs[..k + 1], NAL_SPS) && Seen(fs[..k + 1], NAL_PPS)
  }

  ghost predicate Ready(fs: seq<Frame>) {
    exists k | 0 <= k < |fs| :: CompletesAt(fs, k)
  }

  lemma SeenGrows(fs: seq<Frame>, nal: int)
    requires fs != []
    ensures Seen(fs, nal) <==> Seen(fs[..|fs| - 1], nal) || ShowsNal(fs[|fs| - 1], nal)
  {
    hide ShowsNal;
    var before := fs[..|fs| - 1];
    assert forall k | 0 <= k < |before| :: before[k] == fs[k];
    if Seen(fs, nal) {
      var k :| 0 <= k < |fs| && ShowsNal(fs[k], nal);
      assert k < |before| ==> ShowsNal(before[k], nal);
    }
  }

  lemma CompletesInPrefix(fs: seq<Frame>, n: nat, k: nat)
    requires k < n <= |fs|
    ensures CompletesAt(fs[..n], k) == CompletesAt(fs, k)
  {
    assert fs[..n][..k + 1] == fs[..k + 1];
  }

  lemma ReadyPrefix(fs: seq<Frame>, n: nat)
    requires n <= |fs|
    ensures Ready(fs[..n]) <==> exists k | 0 <= k < n :: CompletesAt(fs, k)
  {
    hide CompletesAt;
    var p := fs[..n];
    if Ready(p) {
      var k :| 0 <= k < |p| && CompletesAt(p, k);
      CompletesInPrefix(fs, n, k);
    }
    if k :| 0 <= k < n && CompletesAt(fs, k) {
      CompletesInPrefix(fs, n, k);
      assert CompletesAt(p, k);
    }
  }

  lemma {:induction false} StateTells(fs: seq<Frame>)
    ensures var s := AfterFrames(fs);
            && s.started == Ready(fs)
            && (!s.started ==> s.sps == Seen(fs, NAL_SPS) && s.pps == Seen(fs, NAL_PPS))
  {
    if fs != [] {
      StateTells(fs[..|fs| - 1]);
      SeenGrows(fs, NAL_SPS);
      SeenGrows(fs, NAL_PPS);
      ReadyPrefix(fs, |fs| - 1);
      assert fs[..|fs|] == fs;
      assert CompletesAt(fs, |fs| - 1) ==> Ready(fs);
    }
  }

  /** Over any frames since the last release: frame n is handed on exactly when a keyframe up to it completed the
      parameter sets, and from then on every frame is. */
  lemma EmittedFromFirstCompleteKeyframe(fs: seq<Frame>, n: nat, m: nat)
    requires n <= m < |fs|
    ensures AfterFrames(fs[..n + 1]).started <==> exists k | 0 <= k <= n :: CompletesAt(fs, k)
    ensures AfterFrames(fs[..n + 1]).started ==> AfterFrames(fs[..m + 1]).started
  {
    hide CompletesAt, AfterFrames, Seen, Ready;
    StateTells(fs[..n + 1]);
    StateTells(fs[..m + 1]);
    ReadyPrefix(fs, n + 1);
    ReadyPrefix(fs, m + 1);
  }
}
