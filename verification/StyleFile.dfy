/** The `key value` file that places and styles the overlay.

    A std::string is a Dafny string of characters below 256; the parser treats the others as ordinary bytes. */
module StyleFile {
  import opened Bytes
  import opened Decimals
  import opened OsdDraw
  import opened Text

  const DEFAULT_STYLE := OsdStyle(Top, Right, 0, 0, Box, 2)
  const MAX_READ := 1023
  const LONG_MAX := 0x7FFF_FFFF_FFFF_FFFF

  predicate IsSpace(c: char) {
    c == ' ' || 9 <= c as int <= 13
  }

  // ---- text helpers, and the loops that compute them ----

  function TrimLeft(s: string): string {
    if s != "" && IsSpace(s[0]) then TrimLeft(s[1..]) else s
  }

  function TrimRight(s: string): string {
    if s != "" && IsSpace(s[|s| - 1]) then TrimRight(s[..|s| - 1]) else s
  }

  function Trim(s: string): string {
    TrimRight(TrimLeft(s))
  }

  lemma DropLast(s: string, a: nat, b: nat)
    requires a < b <= |s|
    ensures s[a..b][|s[a..b]| - 1] == s[b - 1] && s[a..b][..|s[a..b]| - 1] == s[a..b - 1]
  {
  }

  method TrimSpaces(s: string) returns (r: string)
    ensures r == Trim(s)
  {
    var a, b := 0, |s|;
    assert s[0..] == s;
    while a < b && IsSpace(s[a])
      invariant 0 <= a <= b && TrimLeft(s[a..]) == TrimLeft(s)
    {
      assert s[a..][1..] == s[a + 1..];
      a := a + 1;
    }
    assert TrimLeft(s) == s[a..];
    assert s[a..b] == s[a..];
    while b > a && IsSpace(s[b - 1])
      invariant a <= b <= |s| && TrimRight(s[a..b]) == Trim(s)
    {
      DropLast(s, a, b);
      b := b - 1;
    }
    r := s[a..b];
  }

  function LowerChar(c: char): char {
    if 'A' <= c <= 'Z' then (c as int + 32) as char else c
  }

  function Lower(s: string): (r: string)
    ensures |r| == |s| && forall i | 0 <= i < |s| :: r[i] == LowerChar(s[i])
  {
    seq(|s|, i requires 0 <= i < |s| => LowerChar(s[i]))
  }

  /** strtol in base 10 on a 64-bit long: optional sign, digits, saturation; 0 when there is no number. */
  function Strtol(s: string): int {
    var t := TrimLeft(s);
    if t != "" && t[0] == '-' then
      var v: int := DigitsValue(t[1..], 0);
      if v > LONG_MAX + 1 then -LONG_MAX - 1 else -v
    else
      var v := DigitsValue(if t != "" && t[0] == '+' then t[1..] else t, 0);
      if v > LONG_MAX then LONG_MAX else v
  }

  // ---- what one line sets ----

  datatype Setting =
    | SetVAlign(v: VAlign)
    | SetHAlign(h: HAlign)
    | SetVOffset(n: int)
    | SetHOffset(n: int)
    | SetBg(bg: BgMode)
    | SetScale(n: int)
    | Nothing

  function KeyLength(line: string): (n: nat)
    ensures n <= |line| && (forall i | 0 <= i < n :: !IsSpace(line[i])) && (n < |line| ==> IsSpace(line[n]))
  {
    if line == "" || IsSpace(line[0]) then 0 else 1 + KeyLength(line[1..])
  }

  function SettingOf(key: string, val: string): Setting {
    if key == "v_align" then
      if val == "top" || val == "up" then SetVAlign(Top)
      else if val == "bottom" || val == "down" then SetVAlign(Bottom)
      else Nothing
    else if key == "h_align" then
      if val == "left" then SetHAlign(Left)
      else if val == "right" then SetHAlign(Right)
      else Nothing
    else if key == "v_offset" then SetVOffset(Wrap32(Strtol(val)))
    else if key == "h_offset" then SetHOffset(Wrap32(Strtol(val)))
    else if key == "style" then
      if val == "box" then SetBg(Box)
      else if val == "box-semi" || val == "semi" then SetBg(BoxSemi)
      else if val == "none" then SetBg(NoBox)
      else if val == "shadow" then SetBg(Shadow)
      else Nothing
    else if key == "scale" then
      var n := Wrap32(Strtol(val));
      if 1 <= n <= 16 then SetScale(n) else Nothing
    else Nothing
  }

  /** A line's key and value: comment dropped, surrounding space dropped, split at the first space, lower case. */
  function LineParts(raw: string): (string, string) {
    var line := Trim(Before(raw, '#'));
    (Lower(line[..KeyLength(line)]), Lower(Trim(line[KeyLength(line)..])))
  }

  function LineSetting(raw: string): Setting {
    var (key, val) := LineParts(raw);
    if val == "" then Nothing else SettingOf(key, val)
  }

  function Apply(style: OsdStyle, s: Setting): OsdStyle {
    match s
    case SetVAlign(v) => style.(vAlign := v)
    case SetHAlign(h) => style.(hAlign := h)
    case SetVOffset(n) => style.(vOffset := n)
    case SetHOffset(n) => style.(hOffset := n)
    case SetBg(bg) => style.(bg := bg)
    case SetScale(n) => style.(scale := n)
    case Nothing => style
  }

  /** The settings of the lines, applied in order; `read` says what one line sets. */
  function ApplyLines(read: string -> Setting, style: OsdStyle, lines: seq<string>): OsdStyle
    decreases |lines|
  {
    if lines == [] then style else ApplyLines(read, Apply(style, read(lines[0])), lines[1..])
  }

  function Clamped(style: OsdStyle): OsdStyle {
    style.(vOffset := if style.vOffset < 0 then 0 else style.vOffset,
           hOffset := if style.hOffset < 0 then 0 else style.hOffset)
  }

  /** The bytes a file contributes: at most 1023, up to the first NUL. */
  function TextOf(file: string): string {
    Before(if |file| > MAX_READ then file[..MAX_READ] else file, '\0')
  }

  /** What parsing a file makes of a style. */
  function Parsed(style: OsdStyle, file: string): OsdStyle {
    Clamped(ApplyLines(LineSetting, style, Split(TextOf(file), '\n')))
  }

  // ---- the loop ----

  method FindChar(s: string, c: char, from: nat) returns (at: nat)
    requires from <= |s|
    ensures from <= at <= |s| && s[from..at] == Before(s[from..], c)
  {
    at := from;
    while at < |s| && s[at] != c
      invariant from <= at <= |s| && at + |Before(s[at..], c)| == from + |Before(s[from..], c)|
    {
      assert s[at..][1..] == s[at + 1..];
      at := at + 1;
    }
  }

  method ParseLine(style: OsdStyle, raw: string) returns (r: OsdStyle)
    ensures r == Apply(style, LineSetting(raw))
  {
    r := style;
    var hash := FindChar(raw, '#', 0);
    assert raw[0..] == raw;
    assert raw[..hash] == Before(raw, '#');
    var line := TrimSpaces(raw[..hash]);
    var sp := 0;
    while sp < |line| && !IsSpace(line[sp])
      invariant 0 <= sp <= |line| && forall i | 0 <= i < sp :: !IsSpace(line[i])
    {
      sp := sp + 1;
    }
    assert sp == KeyLength(line);
    var val := TrimSpaces(line[sp..]);
    if val == "" {
      return;
    }
    r := Apply(style, SettingOf(Lower(line[..sp]), Lower(val)));
  }

  datatype Readable = Content(bytes: string) | Unreadable

  /** The effect of the lines that start at or after pos. */
  function ApplyRest(read: string -> Setting, style: OsdStyle, content: string, pos: nat): OsdStyle
    requires pos <= |content| + 1
  {
    if pos <= |content| then ApplyLines(read, style, Split(content[pos..], '\n')) else style
  }

  lemma FirstLineApplied(read: string -> Setting, style: OsdStyle, content: string, pos: nat, nl: nat)
    requires pos <= nl <= |content| && content[pos..nl] == Before(content[pos..], '\n')
    ensures ApplyRest(read, style, content, pos) ==
            ApplyRest(read, Apply(style, read(content[pos..nl])), content, nl + 1)
  {
    var rest, first := content[pos..], content[pos..nl];
    SplitStep(rest, '\n');
    hide Split, Before, ApplyLines;
    if nl < |content| {
      assert rest[|first| + 1..] == content[nl + 1..];
      ApplyFirst(read, style, first, Split(content[nl + 1..], '\n'));
    } else {
      assert first == rest;
      assert Split(rest, '\n') == [first] + [];
      ApplyFirst(read, style, first, []);
    }
  }

  lemma ApplyFirst(read: string -> Setting, style: OsdStyle, first: string, rest: seq<string>)
    ensures ApplyLines(read, style, [first] + rest) == ApplyLines(read, Apply(style, read(first)), rest)
  {
    assert ([first] + rest)[1..] == rest;
  }

  /** Parses the file into `style`; nothing happens when the file cannot be read. */
  method ParseStyleFile(file: Readable, style: OsdStyle) returns (ok: bool, r: OsdStyle)
    ensures ok == file.Content?
    ensures r == if file.Content? then Parsed(style, file.bytes) else style
  {
    r := style;
    ok := file.Content?;
    if ok {
      r := ParseText(TextOf(file.bytes), style);
    }
  }

  method ParseText(content: string, style: OsdStyle) returns (r: OsdStyle)
    ensures r == Clamped(ApplyLines(LineSetting, style, Split(content, '\n')))
  {
    ghost var read := LineSetting;
    r := style;
    var pos := 0;
    assert content[0..] == content;
    while pos <= |content|
      invariant 0 <= pos <= |content| + 1
      invariant ApplyRest(read, style, content, 0) == ApplyRest(read, r, content, pos)
      decreases |content| + 1 - pos
    {
      var nl := FindChar(content, '\n', pos);
      FirstLineApplied(read, r, content, pos, nl);
      r := ParseLine(r, content[pos..nl]);
      pos := nl + 1;
    }
    r := Clamped(r);
  }

  // ---- the last valid setting wins ----

  predicate SameKind(s: Setting, t: Setting) {
    match s
    case SetVAlign(_) => t.SetVAlign?
    case SetHAlign(_) => t.SetHAlign?
    case SetVOffset(_) => t.SetVOffset?
    case SetHOffset(_) => t.SetHOffset?
    case SetBg(_) => t.SetBg?
    case SetScale(_) => t.SetScale?
    case Nothing => t.Nothing?
  }

  /** The part of a style that settings of s's kind write, as the setting that would write it. */
  function Part(style: OsdStyle, s: Setting): Setting {
    match s
    case SetVAlign(_) => SetVAlign(style.vAlign)
    case SetHAlign(_) => SetHAlign(style.hAlign)
    case SetVOffset(_) => SetVOffset(style.vOffset)
    case SetHOffset(_) => SetHOffset(style.hOffset)
    case SetBg(_) => SetBg(style.bg)
    case SetScale(_) => SetScale(style.scale)
    case Nothing => Nothing
  }

  /** Lines that do not set a part of the style leave it alone. */
  lemma {:induction false} OtherLinesKeep(read: string -> Setting, style: OsdStyle, lines: seq<string>, s: Setting)
    requires forall i | 0 <= i < |lines| :: !SameKind(s, read(lines[i]))
    ensures Part(ApplyLines(read, style, lines), s) == Part(style, s)
    decreases |lines|
  {
    if lines != [] {
      assert !SameKind(s, read(lines[0]));
      OtherLinesKeep(read, Apply(style, read(lines[0])), lines[1..], s);
    }
  }

  lemma {:induction false} ApplyAppended(read: string -> Setting, style: OsdStyle, a: seq<string>, b: seq<string>)
    ensures ApplyLines(read, style, a + b) == ApplyLines(read, ApplyLines(read, style, a), b)
    decreases |a|
  {
    if a == [] {
      assert a + b == b;
    } else {
      assert (a + b)[1..] == a[1..] + b;
      ApplyAppended(read, Apply(style, read(a[0])), a[1..], b);
    }
  }

  /** Whatever came before, the last line that sets a part of the style decides it. */
  lemma LastSettingWins(style: OsdStyle, lines: seq<string>, k: nat)
    requires k < |lines| && LineSetting(lines[k]) != Nothing
    requires forall i | k < i < |lines| :: !SameKind(LineSetting(lines[k]), LineSetting(lines[i]))
    ensures var s := LineSetting(lines[k]); Part(ApplyLines(LineSetting, style, lines), s) == s
  {
    hide LineSetting;
    var s := LineSetting(lines[k]);
    assert lines == lines[..k] + ([lines[k]] + lines[k + 1..]);
    ApplyAppended(LineSetting, style, lines[..k], [lines[k]] + lines[k + 1..]);
    var mid := ApplyLines(LineSetting, style, lines[..k]);
    ApplyAppended(LineSetting, mid, [lines[k]], lines[k + 1..]);
    var after := ApplyLines(LineSetting, mid, [lines[k]]);
    assert after == Apply(mid, s) by {
      assert [lines[k]][1..] == [];
    }
    OtherLinesKeep(LineSetting, after, lines[k + 1..], s);
  }

  // ---- lines that change nothing ----

  /** Which keys have which values. */
  predicate Recognised(key: string, val: string) {
    val != "" &&
    match key
    case "v_align" => val in {"top", "up", "bottom", "down"}
    case "h_align" => val in {"left", "right"}
    case "v_offset" => true
    case "h_offset" => true
    case "style" => val in {"box", "box-semi", "semi", "none", "shadow"}
    case "scale" => 1 <= Wrap32(Strtol(val)) <= 16
    case _ => false
  }

  /** A line sets something exactly when it names a known key with a value that this key has. */
  lemma SetsExactlyTheRecognised(raw: string)
    ensures LineSetting(raw) == Nothing <==> !Recognised(LineParts(raw).0, LineParts(raw).1)
  {
    hide LineParts, Strtol, Wrap32;
  }

  /** What follows a '#' does not matter; in particular a line that starts with one sets nothing. */
  lemma CommentsMeanNothing(a: string, b: string)
    ensures LineSetting(a + ['#'] + b) == LineSetting(a)
  {
    BeforeAppended(a, b, '#');
    assert LineParts(a + ['#'] + b) == LineParts(a);
    hide LineParts, SettingOf;
  }

  /** A place in a file where a line can begin. */
  predicate AtLineStart(before: string) {
    before == "" || before[|before| - 1] == '\n'
  }

  /** A line with a key or a value that is not known, or with a comment only, can be put in anywhere, at the very
      beginning too, without changing what the file means, as long as the parser reads all of it. */
  lemma NothingLinesChangeNothing(style: OsdStyle, before: string, line: string, after: string)
    requires AtLineStart(before) && '\n' !in line && '\0' !in line
    requires !Recognised(LineParts(line).0, LineParts(line).1)
    requires |before + (line + "\n" + after)| <= MAX_READ
    ensures Parsed(style, before + (line + "\n" + after)) == Parsed(style, before + after)
  {
    SetsExactlyTheRecognised(line);
    BeforeOfSum(before, line + "\n" + after, '\0');
    BeforeOfSum(before, after, '\0');
    BeforeOfSum(line + "\n", after, '\0');
    if '\0' !in before {
      hide LineParts, LineSetting, Recognised;
      var b := Before(after, '\0');
      assert TextOf(before + after) == before + b;
      assert TextOf(before + (line + "\n" + after)) == before + (line + "\n" + b);
      LineInserted(style, before, line, b);
    }
  }

  lemma LineInserted(style: OsdStyle, before: string, line: string, after: string)
    requires AtLineStart(before) && '\n' !in line && LineSetting(line) == Nothing
    ensures ApplyLines(LineSetting, style, Split(before + (line + "\n" + after), '\n'))
            == ApplyLines(LineSetting, style, Split(before + after, '\n'))
  {
    var rest, others := line + "\n" + after, Split(after, '\n');
    SplitAppended(line, after, '\n');
    SplitOfOne(line, '\n');
    hide LineSetting, Split;
    if before == "" {
      assert before + rest == rest && before + after == after;
      ApplyFirst(LineSetting, style, line, others);
    } else {
      var a := before[..|before| - 1];
      assert before == a + ['\n'];
      SplitAppended(a, rest, '\n');
      SplitAppended(a, after, '\n');
      var first := Split(a, '\n');
      ApplyAppended(LineSetting, style, first, [line] + others);
      ApplyAppended(LineSetting, style, first, others);
      ApplyFirst(LineSetting, ApplyLines(LineSetting, style, first), line, others);
    }
  }

  // ---- joining files ----

  /** Clamping the offsets early or late makes no difference. */
  lemma {:induction false} ClampEarly(read: string -> Setting, style: OsdStyle, lines: seq<string>)
    ensures Clamped(ApplyLines(read, Clamped(style), lines)) == Clamped(ApplyLines(read, style, lines))
    decreases |lines|
  {
    if lines != [] {
      var s := read(lines[0]);
      ClampEarly(read, Apply(style, s), lines[1..]);
      ClampEarly(read, Apply(Clamped(style), s), lines[1..]);
      assert Clamped(Apply(Clamped(style), s)) == Clamped(Apply(style, s));
    }
  }

  lemma {:induction false} TextOfShort(file: string)
    requires |file| <= MAX_READ && '\0' !in file
    ensures TextOf(file) == file
  {
  }

  /** Parsing two files joined by a line break is parsing one after the other. */
  lemma ParsingJoinedFiles(style: OsdStyle, a: string, b: string)
    requires |a| + 1 + |b| <= MAX_READ && '\0' !in a && '\0' !in b
    ensures Parsed(style, a + "\n" + b) == Parsed(Parsed(style, a), b)
  {
    TextOfShort(a);
    TextOfShort(b);
    TextOfShort(a + "\n" + b);
    SplitAppended(a, b, '\n');
    ApplyAppended(LineSetting, style, Split(a, '\n'), Split(b, '\n'));
    ClampEarly(LineSetting, ApplyLines(LineSetting, style, Split(a, '\n')), Split(b, '\n'));
  }

  // ---- printing a style ----

  function VAlignText(v: VAlign): string {
    match v case Top => "top" case Bottom => "bottom"
  }

  function HAlignText(h: HAlign): string {
    match h case Left => "left" case Right => "right"
  }

  function BgText(bg: BgMode): string {
    match bg case Box => "box" case BoxSemi => "box-semi" case NoBox => "none" case Shadow => "shadow"
  }

  /** The line that makes a setting, in the format of the default file; an empty line sets nothing. */
  function SettingText(t: Setting): string
    requires PrintableSetting(t)
  {
    match t
    case SetVAlign(v) => "v_align" + " " + VAlignText(v)
    case SetHAlign(h) => "h_align" + " " + HAlignText(h)
    case SetVOffset(n) => "v_offset" + " " + Decimal(n)
    case SetHOffset(n) => "h_offset" + " " + Decimal(n)
    case SetBg(bg) => "style" + " " + BgText(bg)
    case SetScale(n) => "scale" + " " + Decimal(n)
    case Nothing => ""
  }

  predicate PrintableSetting(t: Setting) {
    match t
    case SetVOffset(n) => 0 <= n < TWO_32 / 2
    case SetHOffset(n) => 0 <= n < TWO_32 / 2
    case SetScale(n) => 1 <= n <= 16
    case _ => true
  }

  predicate Printable(s: OsdStyle) {
    0 <= s.vOffset < TWO_32 / 2 && 0 <= s.hOffset < TWO_32 / 2 && 1 <= s.scale <= 16
  }

  /** Settings that determine a style, with the empty line that follows the last line break. */
  function Settings(s: OsdStyle): (ts: seq<Setting>)
    requires Printable(s)
    ensures forall i | 0 <= i < |ts| :: PrintableSetting(ts[i])
  {
    [SetVAlign(s.vAlign), SetHAlign(s.hAlign), SetVOffset(s.vOffset), SetHOffset(s.hOffset), SetBg(s.bg),
     SetScale(s.scale), Nothing]
  }

  function PrintedLines(s: OsdStyle): seq<string>
    requires Printable(s)
  {
    var ts := Settings(s);
    seq(|ts|, i requires 0 <= i < |ts| => SettingText(ts[i]))
  }

  function Printed(s: OsdStyle): string
    requires Printable(s)
  {
    Join(PrintedLines(s), '\n')
  }

  // ---- parsing what was printed ----

  /** A word survives trimming, comment removal and lower-casing. */
  predicate IsWord(s: string) {
    s != "" && forall i | 0 <= i < |s| :: !IsSpace(s[i]) && s[i] != '#' && s[i] != '\0' && !('A' <= s[i] <= 'Z')
  }

  lemma TrimWord(s: string)
    requires s != "" && !IsSpace(s[0]) && !IsSpace(s[|s| - 1])
    ensures Trim(s) == s
    ensures Trim(" " + s) == s
  {
    assert (" " + s)[1..] == s;
  }

  /** How a line with one space, at k, is taken apart. */
  lemma LineSplits(raw: string, k: nat)
    requires 0 < k < |raw| - 1 && raw[k] == ' '
    requires forall i | 0 <= i < |raw| && i != k :: !IsSpace(raw[i]) && raw[i] != '#'
    ensures Trim(Before(raw, '#')) == raw && KeyLength(raw) == k
  {
    assert Before(raw, '#') == raw;
    TrimWord(raw);
  }

  lemma LowerWord(s: string)
    requires IsWord(s)
    ensures Lower(s) == s
  {
  }

  lemma WordLineSets(key: string, val: string)
    requires IsWord(key) && IsWord(val)
    ensures LineParts(key + " " + val) == (key, val)
  {
    var raw := key + " " + val;
    WordsJoined(raw, key, val);
    LineSplits(raw, |key|);
    TrimWord(val);
    LowerWord(key);
    LowerWord(val);
  }

  lemma WordsJoined(raw: string, key: string, val: string)
    requires IsWord(key) && IsWord(val) && raw == key + " " + val
    ensures raw[..|key|] == key && raw[|key|..] == " " + val
    ensures 0 < |key| < |raw| - 1 && raw[|key|] == ' '
    ensures forall i | 0 <= i < |raw| && i != |key| :: !IsSpace(raw[i]) && raw[i] != '#'
  {
    forall i | 0 <= i < |raw| && i != |key| ensures !IsSpace(raw[i]) && raw[i] != '#' {
      assert raw[i] == if i < |key| then key[i] else val[i - |key| - 1];
    }
  }

  lemma OffsetOfDecimal(n: nat)
    requires n < TWO_32 / 2
    ensures IsWord(Decimal(n)) && Wrap32(Strtol(Decimal(n))) == n
  {
    ValueOfDecimal(n);
  }

  lemma VAlignLine(v: VAlign)
    ensures LineSetting("v_align" + " " + VAlignText(v)) == SetVAlign(v) && IsWord("v_align") && IsWord(VAlignText(v))
  {
    hide LineParts, Strtol, Wrap32;
    WordLineSets("v_align", VAlignText(v));
  }

  lemma HAlignLine(h: HAlign)
    ensures LineSetting("h_align" + " " + HAlignText(h)) == SetHAlign(h) && IsWord("h_align") && IsWord(HAlignText(h))
  {
    hide LineParts, Strtol, Wrap32;
    WordLineSets("h_align", HAlignText(h));
  }

  lemma VOffsetLine(n: nat)
    requires n < TWO_32 / 2
    ensures LineSetting("v_offset" + " " + Decimal(n)) == SetVOffset(n) && IsWord("v_offset") && IsWord(Decimal(n))
  {
    hide LineParts;
    OffsetOfDecimal(n);
    WordLineSets("v_offset", Decimal(n));
  }

  lemma HOffsetLine(n: nat)
    requires n < TWO_32 / 2
    ensures LineSetting("h_offset" + " " + Decimal(n)) == SetHOffset(n) && IsWord("h_offset") && IsWord(Decimal(n))
  {
    hide LineParts;
    OffsetOfDecimal(n);
    WordLineSets("h_offset", Decimal(n));
  }

  lemma BgLine(bg: BgMode)
    ensures LineSetting("style" + " " + BgText(bg)) == SetBg(bg) && IsWord("style") && IsWord(BgText(bg))
  {
    hide LineParts, Strtol, Wrap32;
    WordLineSets("style", BgText(bg));
  }

  lemma ScaleLine(n: nat)
    requires 1 <= n <= 16
    ensures LineSetting("scale" + " " + Decimal(n)) == SetScale(n) && IsWord("scale") && IsWord(Decimal(n))
  {
    hide LineParts;
    OffsetOfDecimal(n);
    WordLineSets("scale", Decimal(n));
  }

  predicate IsShortLine(s: string) {
    |s| <= 20 && forall i | 0 <= i < |s| :: s[i] != '\n' && s[i] != '\0'
  }

  lemma WordLineIsShort(key: string, val: string)
    requires IsWord(key) && IsWord(val) && |key| + |val| < 20
    ensures IsShortLine(key + " " + val)
  {
  }

  lemma DecimalIsTenDigits(n: nat)
    requires n < TWO_32 / 2
    ensures |Decimal(n)| <= 10
  {
    assert PowerOfTen(10) == 10 * PowerOfTen(9) && PowerOfTen(8) == 10 * (10 * PowerOfTen(6));
    assert PowerOfTen(6) == 1000000;
    DecimalIsShort(n, 10);
  }

  /** Reading a printed setting gives the setting. */
  lemma SettingTextSets(t: Setting)
    requires PrintableSetting(t)
    ensures LineSetting(SettingText(t)) == t && IsShortLine(SettingText(t))
  {
    hide LineSetting, IsWord;
    match t
    case SetVAlign(v) =>
      VAlignLine(v);
      WordLineIsShort("v_align", VAlignText(v));
    case SetHAlign(h) =>
      HAlignLine(h);
      WordLineIsShort("h_align", HAlignText(h));
    case SetVOffset(n) =>
      VOffsetLine(n);
      DecimalIsTenDigits(n);
      WordLineIsShort("v_offset", Decimal(n));
    case SetHOffset(n) =>
      HOffsetLine(n);
      DecimalIsTenDigits(n);
      WordLineIsShort("h_offset", Decimal(n));
    case SetBg(bg) =>
      BgLine(bg);
      WordLineIsShort("style", BgText(bg));
    case SetScale(n) =>
      ScaleLine(n);
      DecimalIsTenDigits(n);
      WordLineIsShort("scale", Decimal(n));
    case Nothing =>
      EmptyLine();
  }

  lemma EmptyLine()
    ensures LineSetting("") == Nothing
  {
  }

  function ApplySettings(style: OsdStyle, ts: seq<Setting>): OsdStyle
    decreases |ts|
  {
    if ts == [] then style else ApplySettings(Apply(style, ts[0]), ts[1..])
  }

  lemma {:induction false} LinesApplySettings(read: string -> Setting, style: OsdStyle, lines: seq<string>,
                                              ts: seq<Setting>)
    requires |lines| == |ts| && forall i | 0 <= i < |ts| :: read(lines[i]) == ts[i]
    ensures ApplyLines(read, style, lines) == ApplySettings(style, ts)
    decreases |ts|
  {
    if ts != [] {
      LinesApplySettings(read, Apply(style, ts[0]), lines[1..], ts[1..]);
    }
  }

  lemma SettingsDetermine(s: OsdStyle, over: OsdStyle)
    requires Printable(s)
    ensures ApplySettings(over, Settings(s)) == s
  {
    var ts := Settings(s);
    var s1 := Apply(over, ts[0]);
    var s2 := Apply(s1, ts[1]);
    var s3 := Apply(s2, ts[2]);
    var s4 := Apply(s3, ts[3]);
    var s5 := Apply(s4, ts[4]);
    var s6 := Apply(s5, ts[5]);
    assert s6 == s;
    assert ApplySettings(s6, ts[6..]) == ApplySettings(s6, []);
    assert ts[5..][1..] == ts[6..] && ts[4..][1..] == ts[5..] && ts[3..][1..] == ts[4..] && ts[2..][1..] == ts[3..];
    assert ApplySettings(s4, ts[4..]) == ApplySettings(s5, ts[5..]);
    assert ApplySettings(s2, ts[2..]) == ApplySettings(s3, ts[3..]);
    assert ts[1..][1..] == ts[2..];
  }

  /** A printed style read back over any other style is that style. */
  lemma PrintedStyleReadsBack(s: OsdStyle, over: OsdStyle)
    requires Printable(s)
    ensures Parsed(over, Printed(s)) == s
  {
    var ls, ts := PrintedLines(s), Settings(s);
    forall i | 0 <= i < |ts| ensures LineSetting(ls[i]) == ts[i] && IsShortLine(ls[i]) {
      SettingTextSets(ts[i]);
    }
    PrintedIsText(s);
    SplitOfJoin(ls, '\n');
    LinesApplySettings(LineSetting, over, ls, ts);
    SettingsDetermine(s, over);
  }

  function TotalLength(lines: seq<string>): nat {
    if lines == [] then 0 else |lines[0]| + 1 + TotalLength(lines[1..])
  }

  lemma {:induction false} JoinedIsText(lines: seq<string>)
    requires lines != [] && forall i | 0 <= i < |lines| :: '\0' !in lines[i]
    ensures '\0' !in Join(lines, '\n') && |Join(lines, '\n')| + 1 == TotalLength(lines)
    decreases |lines|
  {
    if |lines| > 1 {
      JoinedIsText(lines[1..]);
    } else {
      assert TotalLength(lines[1..]) == 0;
    }
  }

  lemma PrintedIsText(s: OsdStyle)
    requires Printable(s)
    ensures TextOf(Printed(s)) == Printed(s)
  {
    var ls, ts := PrintedLines(s), Settings(s);
    forall i | 0 <= i < |ls| ensures IsShortLine(ls[i]) {
      SettingTextSets(ts[i]);
    }
    JoinedIsText(ls);
    LengthBound(ls, 20);
    TextOfShort(Printed(s));
  }

  lemma {:induction false} LengthBound(lines: seq<string>, k: nat)
    requires forall i | 0 <= i < |lines| :: |lines[i]| <= k
    ensures TotalLength(lines) <= |lines| * (k + 1)
    decreases |lines|
  {
    if lines != [] {
      LengthBound(lines[1..], k);
    }
  }

  // ---- spelling does not matter ----

  predicate AllSpace(s: string) {
    forall i | 0 <= i < |s| :: IsSpace(s[i])
  }

  lemma {:induction false} TrimLeftIs(before: string, s: string)
    requires AllSpace(before) && s != "" && !IsSpace(s[0])
    ensures TrimLeft(before + s) == s
  {
    if before == "" {
      assert before + s == s;
    } else {
      assert (before + s)[1..] == before[1..] + s;
      TrimLeftIs(before[1..], s);
    }
  }

  lemma {:induction false} TrimRightIs(s: string, after: string)
    requires AllSpace(after) && s != "" && !IsSpace(s[|s| - 1])
    ensures TrimRight(s + after) == s
    decreases |after|
  {
    var t := s + after;
    if after == "" {
      assert t == s;
    } else {
      assert t[..|t| - 1] == s + after[..|after| - 1] && t[|t| - 1] == after[|after| - 1];
      TrimRightIs(s, after[..|after| - 1]);
    }
  }

  lemma TrimIs(before: string, s: string, after: string)
    requires AllSpace(before) && AllSpace(after) && s != "" && !IsSpace(s[0]) && !IsSpace(s[|s| - 1])
    ensures Trim(before + s + after) == s
  {
    assert before + s + after == before + (s + after) && (s + after)[0] == s[0];
    TrimLeftIs(before, s + after);
    TrimRightIs(s, after);
  }

  lemma {:induction false} KeyLengthIs(key: string, rest: string)
    requires (forall i | 0 <= i < |key| :: !IsSpace(key[i])) && (rest == "" || IsSpace(rest[0]))
    ensures KeyLength(key + rest) == |key|
  {
    if key == "" {
      assert key + rest == rest;
    } else {
      assert (key + rest)[1..] == key[1..] + rest;
      KeyLengthIs(key[1..], rest);
    }
  }

  /** Space around and between a key and its value, a comment after them and the case of their letters do not matter. */
  lemma SpellingDoesNotMatter(before: string, key: string, gap: string, val: string, after: string, comment: string)
    requires AllSpace(before) && AllSpace(gap) && gap != "" && AllSpace(after)
    requires key != "" && (forall i | 0 <= i < |key| :: !IsSpace(key[i])) && '#' !in key
    requires val != "" && !IsSpace(val[0]) && !IsSpace(val[|val| - 1]) && '#' !in val
    requires comment == "" || comment[0] == '#'
    ensures LineSetting(before + (key + (gap + val)) + after + comment) == SettingOf(Lower(key), Lower(val))
  {
    hide SettingOf, Trim, KeyLength, Before;
    var core := key + (gap + val);
    var line := before + core + after;
    assert '#' !in line;
    BeforeOfSum(line, comment, '#');
    NoComment(comment);
    assert line + "" == line;
    assert core[0] == key[0] && core[|core| - 1] == val[|val| - 1];
    TrimIs(before, core, after);
    KeyLengthIs(key, gap + val);
    assert core[..|key|] == key && core[|key|..] == gap + val;
    TrimIs(gap, val, "");
    assert gap + val + "" == gap + val;
  }

  lemma NoComment(comment: string)
    requires comment == "" || comment[0] == '#'
    ensures Before(comment, '#') == ""
  {
  }

  /** What the values mean, the alternative ones too. */
  lemma ValuesMean()
    ensures SettingOf("v_align", "top") == SettingOf("v_align", "up") == SetVAlign(Top)
    ensures SettingOf("v_align", "bottom") == SettingOf("v_align", "down") == SetVAlign(Bottom)
    ensures SettingOf("h_align", "left") == SetHAlign(Left) && SettingOf("h_align", "right") == SetHAlign(Right)
    ensures SettingOf("style", "box") == SetBg(Box) && SettingOf("style", "none") == SetBg(NoBox)
    ensures SettingOf("style", "box-semi") == SettingOf("style", "semi") == SetBg(BoxSemi)
    ensures SettingOf("style", "shadow") == SetBg(Shadow)
    ensures Lower("V_Align") == "v_align" && Lower("BOX-Semi") == "box-semi"
  {
  }

  /** A negative offset counts as none. */
  lemma NegativeOffsetIsNone(style: OsdStyle, n: int)
    requires 0 < n < TWO_32 / 2
    ensures LineSetting("v_offset" + " " + ("-" + Decimal(n))) == SetVOffset(-n)
    ensures LineSetting("h_offset" + " " + ("-" + Decimal(n))) == SetHOffset(-n)
    ensures Clamped(Apply(style, SetVOffset(-n))).vOffset == 0 && Clamped(Apply(style, SetHOffset(-n))).hOffset == 0
  {
    hide LineParts, Strtol, Decimal, Wrap32, IsWord;
    NegativeNumber(n);
    WordLineSets("v_offset", "-" + Decimal(n));
    WordLineSets("h_offset", "-" + Decimal(n));
  }

  lemma NegativeNumber(n: int)
    requires 0 < n < TWO_32 / 2
    ensures IsWord("-" + Decimal(n)) && IsWord("v_offset") && IsWord("h_offset")
    ensures Wrap32(Strtol("-" + Decimal(n))) == -n
  {
    var val := "-" + Decimal(n);
    assert val[1..] == Decimal(n) && val[0] == '-';
    ValueOfDecimal(n);
    hide Decimal;
    assert TrimLeft(val) == val;
  }

  /** The parser reads the first 1023 bytes of a file. */
  lemma ReadsAtMost1023(file: string)
    requires '\0' !in file
    ensures TextOf(file) == if |file| <= 1023 then file else file[..1023]
  {
  }
}
