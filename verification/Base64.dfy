/** Base64 with an accumulator of 32 bits that is never cleared, against the group encoding of section 4 of
    RFC 4648. */
module Base64 {
  import opened Arithmetic
  import opened Bytes

  type Sextet = x: int | 0 <= x < 64

  /** The alphabet of Table 1 of RFC 4648. */
  function Digit(x: Sextet): char {
    if x < 26 then ('A' as int + x) as char
    else if x < 52 then ('a' as int + x - 26) as char
    else if x < 62 then ('0' as int + x - 52) as char
    else if x == 62 then '+' else '/'
  }

  // ---- the reference: three bytes, four digits ----

  function Group(a: Byte, b: Byte, c: Byte): string {
    [Digit(a / 4), Digit(a % 4 * 16 + b / 16), Digit(b % 16 * 4 + c / 64), Digit(c % 64)]
  }

  function Encoded(s: seq<Byte>): string {
    if |s| == 0 then ""
    else if |s| == 1 then [Digit(s[0] / 4), Digit(s[0] % 4 * 16), '=', '=']
    else if |s| == 2 then [Digit(s[0] / 4), Digit(s[0] % 4 * 16 + s[1] / 16), Digit(s[1] % 16 * 4), '=']
    else Group(s[0], s[1], s[2]) + Encoded(s[3..])
  }

  /** The value of a digit. */
  function Value(c: char): int {
    if 'A' <= c <= 'Z' then c as int - 'A' as int
    else if 'a' <= c <= 'z' then c as int - 'a' as int + 26
    else if '0' <= c <= '9' then c as int - '0' as int + 52
    else if c == '+' then 62
    else if c == '/' then 63
    else -1
  }

  datatype Result = Bytes(bytes: seq<Byte>) | Invalid

  /** Decoding of one group of four characters; '=' stands for missing bytes. */
  function DecodedGroup(t: string): Result
    requires |t| == 4
  {
    var p, q, r, s := Value(t[0]), Value(t[1]), Value(t[2]), Value(t[3]);
    if p < 0 || q < 0 then Invalid
    else if t[2] == '=' && t[3] == '=' then Bytes([p * 4 + q / 16])
    else if r < 0 then Invalid
    else if t[3] == '=' then Bytes([p * 4 + q / 16, q % 16 * 16 + r / 4])
    else if s < 0 then Invalid
    else Bytes([p * 4 + q / 16, q % 16 * 16 + r / 4, r % 4 * 64 + s])
  }

  function Decoded(t: string): Result {
    if t == "" then Bytes([])
    else if |t| < 4 then Invalid
    else
      match DecodedGroup(t[..4])
      case Invalid => Invalid
      case Bytes(first) =>
        if |first| < 3 then (if |t| == 4 then Bytes(first) else Invalid)
        else match Decoded(t[4..])
             case Invalid => Invalid
             case Bytes(rest) => Bytes(first + rest)
  }

  lemma ValueOfDigit(x: Sextet)
    ensures Value(Digit(x)) == x && Digit(x) != '='
  {
  }

  /** The test vectors of section 10 of RFC 4648, and one with the last two digits of the alphabet. */
  lemma TestVectors()
    ensures Encoded([0x66]) == "Zg==" && Encoded([0x66, 0x6f]) == "Zm8=" && Encoded([0x66, 0x6f, 0x6f]) == "Zm9v"
    ensures Encoded([0xfb, 0xff]) == "+/8="
    ensures Encoded([0x66, 0x6f, 0x6f, 0x62]) == "Zm9vYg=="
    ensures Encoded([0x66, 0x6f, 0x6f, 0x62, 0x61]) == "Zm9vYmE="
    ensures Encoded([0x66, 0x6f, 0x6f, 0x62, 0x61, 0x72]) == "Zm9vYmFy"
  {
    hide Encoded, Group, Digit;
    ShortVectors();
    var foo: seq<Byte> := [0x66, 0x6f, 0x6f];
    assert foo + [0x62] == [0x66, 0x6f, 0x6f, 0x62] && foo + [0x62, 0x61] == [0x66, 0x6f, 0x6f, 0x62, 0x61];
    assert foo + [0x62, 0x61, 0x72] == [0x66, 0x6f, 0x6f, 0x62, 0x61, 0x72];
    EncodedAfterGroup(0x66, 0x6f, 0x6f, [0x62]);
    EncodedAfterGroup(0x66, 0x6f, 0x6f, [0x62, 0x61]);
    EncodedAfterGroup(0x66, 0x6f, 0x6f, [0x62, 0x61, 0x72]);
    assert "Zm9v" + "Yg==" == "Zm9vYg==" && "Zm9v" + "YmE=" == "Zm9vYmE=" && "Zm9v" + "YmFy" == "Zm9vYmFy";
  }

  /** Encodings of up to three bytes. */
  lemma ShortVectors()
    ensures Encoded([0x66]) == "Zg==" && Encoded([0x66, 0x6f]) == "Zm8=" && Encoded([0x66, 0x6f, 0x6f]) == "Zm9v"
    ensures Encoded([0x62]) == "Yg==" && Encoded([0x62, 0x61]) == "YmE=" && Encoded([0x62, 0x61, 0x72]) == "YmFy"
    ensures Encoded([0xfb, 0xff]) == "+/8=" && Group(0x66, 0x6f, 0x6f) == "Zm9v"
  {
    assert [0x66, 0x6f, 0x6f][3..] == [] && [0x62, 0x61, 0x72][3..] == [];
  }

  lemma EncodedAfterGroup(a: Byte, b: Byte, c: Byte, rest: seq<Byte>)
    ensures Encoded([a, b, c] + rest) == Group(a, b, c) + Encoded(rest)
  {
    assert ([a, b, c] + rest)[3..] == rest;
  }

  /** Decoding recovers every byte string. */
  lemma {:induction false} DecodedEncoded(s: seq<Byte>)
    ensures Decoded(Encoded(s)) == Bytes(s)
    decreases |s|
  {
    hide Digit, Value;
    if |s| == 1 {
      DecodedShort(s, s[0], 0);
    } else if |s| == 2 {
      DecodedShort(s, s[0], s[1]);
    } else if |s| >= 3 {
      hide DecodedGroup;
      var t, g := Encoded(s), Group(s[0], s[1], s[2]);
      DecodedWholeGroup(s[0], s[1], s[2]);
      DecodedEncoded(s[3..]);
      assert t[..4] == g && t[4..] == Encoded(s[3..]);
      assert s == [s[0], s[1], s[2]] + s[3..];
    }
  }

  lemma DecodedShort(s: seq<Byte>, a: Byte, b: Byte)
    requires s == [a, b] || (s == [a] && b == 0)
    ensures Decoded(Encoded(s)) == Bytes(s)
  {
    hide Digit, Value;
    ValueOfDigit(a / 4);
    ValueOfDigit(a % 4 * 16 + b / 16);
    ValueOfDigit(b % 16 * 4);
    SplitByte(a, b);
    var t := Encoded(s);
    assert |t| == 4 && t[..4] == t;
    assert DecodedGroup(t) == Bytes(s);
  }

  lemma SplitByte(a: Byte, b: Byte)
    ensures a / 4 * 4 + (a % 4 * 16 + b / 16) / 16 == a
    ensures (a % 4 * 16 + b / 16) % 16 * 16 + (b % 16 * 4) / 4 == b
  {
    DivModIs(a % 4 * 16 + b / 16, 16, a % 4, b / 16);
  }

  lemma DecodedWholeGroup(a: Byte, b: Byte, c: Byte)
    ensures DecodedGroup(Group(a, b, c)) == Bytes([a, b, c])
  {
    hide Digit, Value;
    ValueOfDigit(a / 4);
    ValueOfDigit(a % 4 * 16 + b / 16);
    ValueOfDigit(b % 16 * 4 + c / 64);
    ValueOfDigit(c % 64);
    DivModIs(a % 4 * 16 + b / 16, 16, a % 4, b / 16);
    DivModIs(b % 16 * 4 + c / 64, 4, b % 16, c / 64);
  }

  /** Four characters for every three bytes begun. */
  lemma {:induction false} EncodedLength(s: seq<Byte>)
    ensures |Encoded(s)| == (|s| + 2) / 3 * 4
    decreases |s|
  {
    hide Digit;
    if |s| >= 3 {
      EncodedLength(s[3..]);
    }
  }

  // ---- the accumulator ----

  /** Arithmetic shift right. */
  function Shr(v: int, k: nat): int
    decreases k
  {
    if k == 0 then v else Shr(v / 2, k - 1)
  }

  /** (val >> k) & 0x3F */
  function SextetAt(val: int, k: nat): Sextet {
    Shr(val, k) % 64
  }

  /** (val << 8) in 32 bits. */
  function ShiftIn(val: int): int {
    Wrap32(val * 256)
  }

  lemma ShrValues(v: int)
    ensures Shr(v, 0) == v && Shr(v, 2) == v / 4 && Shr(v, 4) == v / 16 && Shr(v, 6) == v / 64
  {
    assert Shr(v, 2) == Shr(v / 2 / 2, 0);
    assert Shr(v, 4) == Shr(v / 4, 2) == v / 4 / 4 by {
      assert Shr(v / 4, 2) == Shr(v / 4 / 2 / 2, 0);
      assert Shr(v, 4) == Shr(v / 2 / 2, 2);
    }
    assert Shr(v, 6) == Shr(v / 4, 4) by {
      assert Shr(v, 6) == Shr(v / 2 / 2, 4);
    }
    assert Shr(v / 4, 4) == Shr(v / 16, 2) == v / 16 / 4 by {
      assert Shr(v / 4, 4) == Shr(v / 4 / 2 / 2, 2);
      assert Shr(v / 16, 2) == Shr(v / 16 / 2 / 2, 0);
    }
  }

  lemma WrapWitness(v: int) returns (j: int)
    ensures Wrap32(v) == v - j * TWO_32
  {
    var q, m := v / TWO_32, v % TWO_32;
    assert v == q * TWO_32 + m;
    j := if m < TWO_32 / 2 then q else q + 1;
  }

  lemma Digits64(val: int, d: int, e: int, q: int, r: nat)
    requires (d == 1 && e == 64) || (d == 4 && e == 16) || (d == 16 && e == 4) || (d == 64 && e == 1)
    requires val == q * 4096 + r && r < 4096
    ensures val / d % 64 == r / d % 64
  {
    var rq, rr := r / d, r % d;
    DivModIs(val, d, q * e * 64 + rq, rr);
    DivModIs(q * e * 64 + rq, 64, q * e + rq / 64, rq % 64);
  }

  /** A digit taken at 0, 2, 4 or 6 depends on the low twelve bits only. */
  lemma LowBits(val: int, q: int, r: nat)
    requires val == q * 4096 + r && r < 4096
    ensures SextetAt(val, 0) == r % 64 && SextetAt(val, 2) == r / 4 % 64
    ensures SextetAt(val, 4) == r / 16 % 64 && SextetAt(val, 6) == r / 64 % 64
  {
    ShrValues(val);
    hide Shr;
    Digits64(val, 1, 64, q, r);
    Digits64(val, 4, 16, q, r);
    Digits64(val, 16, 4, q, r);
    Digits64(val, 64, 1, q, r);
  }

  /** The bits that 32 bits cannot hold never reach a digit: the same digits come out of an unbounded accumulator. */
  lemma WrapIsInvisible(val: int, k: nat)
    requires k in {0, 2, 4, 6}
    ensures SextetAt(Wrap32(val), k) == SextetAt(val, k)
  {
    hide SextetAt;
    var j := WrapWitness(val);
    var q, r := val / 4096, val % 4096;
    LowBits(val, q, r);
    LowBits(Wrap32(val), q - j * 1048576, r);
  }

  lemma ByteDigits(low: int, c: Byte)
    requires 0 <= low < 16
    ensures var r := low * 256 + c;
            && r % 64 == c % 64 && r / 4 % 64 == c / 4
            && r / 16 % 64 == low % 4 * 16 + c / 16 && r / 64 % 64 == low * 4 + c / 64
  {
    var r := low * 256 + c;
    DivModIs(r, 64, low * 4 + c / 64, c % 64);
    DivModIs(r, 4, low * 64 + c / 4, c % 4);
    DivModIs(low * 64 + c / 4, 64, low, c / 4);
    DivModIs(r, 16, low * 16 + c / 16, c % 16);
    DivModIs(low * 16 + c / 16, 64, low / 4, low % 4 * 16 + c / 16);
  }

  /** The digits of an incoming byte c, after a byte `low`. */
  lemma DigitsOf(val: int, low: Byte, c: Byte)
    requires val % 256 == low
    ensures var v := ShiftIn(val) + c;
            && v % 256 == c
            && SextetAt(v, 2) == c / 4
            && SextetAt(v, 4) == low % 4 * 16 + c / 16
            && SextetAt(v, 6) == low % 16 * 4 + c / 64
            && SextetAt(v, 0) == c % 64
  {
    hide SextetAt, Wrap32;
    var j := WrapWitness(val * 256);
    var vq, lq, lr := val / 256, low / 16, low % 16;
    var v, r := ShiftIn(val) + c, lr * 256 + c;
    var q := (vq - j * 65536) * 16 + lq;
    ShiftedTo(val, low, c, j, vq, lq, lr);
    DivModIs(v, 256, q * 16 + lr, c);
    LowBits(v, q, r);
    ByteDigits(lr, c);
    LowTwoBits(low);
  }

  lemma ShiftedTo(val: int, low: Byte, c: Byte, j: int, vq: int, lq: int, lr: int)
    requires val == vq * 256 + low && low == lq * 16 + lr
    ensures val * 256 - j * TWO_32 + c == ((vq - j * 65536) * 16 + lq) * 4096 + (lr * 256 + c)
  {
  }

  lemma LowTwoBits(low: Byte)
    ensures low % 16 % 4 == low % 4
  {
  }

  /** The digit that takes up the bits left over from a last byte c. */
  lemma LastDigitOf(val: int, c: Byte)
    requires val % 256 == c
    ensures SextetAt(ShiftIn(val), 4) == c % 4 * 16
    ensures SextetAt(ShiftIn(val), 6) == c % 16 * 4
  {
    DigitsOf(val, c, 0);
  }

  // ---- the loop ----

  type Triple = (Byte, Byte, Byte)

  function Flat(ts: seq<Triple>): seq<Byte> {
    if ts == [] then [] else Flat(ts[..|ts| - 1]) + [ts[|ts| - 1].0, ts[|ts| - 1].1, ts[|ts| - 1].2]
  }

  function GroupsOf(ts: seq<Triple>): string {
    if ts == [] then "" else GroupsOf(ts[..|ts| - 1]) + Group(ts[|ts| - 1].0, ts[|ts| - 1].1, ts[|ts| - 1].2)
  }

  /** The digits emitted for an unfinished group. */
  function TailDigits(tail: seq<Byte>): string
    requires |tail| < 3
  {
    if |tail| == 0 then "" else
    if |tail| == 1 then [Digit(tail[0] / 4)] else [Digit(tail[0] / 4), Digit(tail[0] % 4 * 16 + tail[1] / 16)]
  }

  lemma FlatNothing()
    ensures Flat([]) == [] && GroupsOf([]) == ""
  {
  }

  lemma {:induction false} EncodedOfGroups(ts: seq<Triple>, tail: seq<Byte>)
    ensures Encoded(Flat(ts) + tail) == GroupsOf(ts) + Encoded(tail)
    decreases |ts|
  {
    hide Digit, Group;
    if ts == [] {
      assert Flat(ts) + tail == tail;
    } else {
      var before, t := ts[..|ts| - 1], ts[|ts| - 1];
      var last := [t.0, t.1, t.2] + tail;
      assert Flat(ts) + tail == Flat(before) + last;
      EncodedOfGroups(before, last);
      assert last[3..] == tail;
    }
  }

  lemma {:induction false} GroupsAreWhole(ts: seq<Triple>)
    ensures |GroupsOf(ts)| % 4 == 0
  {
    hide Digit;
    if ts != [] {
      GroupsAreWhole(ts[..|ts| - 1]);
    }
  }

  lemma GroupsGrow(ts: seq<Triple>, a: Byte, b: Byte, c: Byte)
    ensures GroupsOf(ts + [(a, b, c)]) == GroupsOf(ts) + Group(a, b, c)
    ensures Flat(ts + [(a, b, c)]) == Flat(ts) + [a, b, c]
  {
    assert (ts + [(a, b, c)])[..|ts|] == ts;
  }

  /** What is left to add once all bytes are in. */
  lemma EncodedOfTail(tail: seq<Byte>)
    requires |tail| < 3
    ensures Encoded(tail) ==
            TailDigits(tail) + (if |tail| == 0 then "" else
                                if |tail| == 1 then [Digit(tail[0] % 4 * 16), '=', '=']
                                else [Digit(tail[1] % 16 * 4), '='])
  {
    hide Digit;
  }

  /** The loop state: the bytes so far are whole groups and a tail. */
  ghost predicate At(out: string, val: int, valb: int, ts: seq<Triple>, tail: seq<Byte>) {
    && |tail| < 3 && out == GroupsOf(ts) + TailDigits(tail)
    && valb == (if |tail| == 0 then -6 else if |tail| == 1 then -4 else -2)
    && (tail != [] ==> val % 256 == tail[|tail| - 1])
  }

  /** The digits of one byte: one, or two when it completes a group. */
  method EmitDigits(before: string, val: int, from: int) returns (out: string, valb: int)
    requires from in {2, 4, 6}
    ensures out == before + [Digit(SextetAt(val, from))] + (if from == 6 then [Digit(SextetAt(val, 0))] else [])
    ensures valb == (if from == 6 then -6 else from - 6)
  {
    hide Digit, SextetAt;
    out, valb := before, from;
    while valb >= 0
      invariant valb == from || (valb == from - 6 && (from == 6 || valb < 0)) || (from == 6 && valb == -6)
      invariant out == if valb == from then before
                       else if valb == from - 6 then before + [Digit(SextetAt(val, from))]
                       else before + [Digit(SextetAt(val, 6))] + [Digit(SextetAt(val, 0))]
      decreases valb
    {
      out := out + [Digit(SextetAt(val, valb))];
      valb := valb - 6;
    }
  }

  method ToBase64(binaryFile: seq<Byte>) returns (out: string)
    ensures out == Encoded(binaryFile)
  {
    hide Digit, SextetAt, Group, Encoded, ShiftIn, GroupsOf, Flat;
    assert Flat([]) == [] && GroupsOf([]) == "" by { FlatNothing(); }
    out := "";
    var val, valb := 0, -6;
    ghost var ts: seq<Triple>, tail: seq<Byte> := [], [];
    var n := 0;
    while n < |binaryFile|
      invariant 0 <= n <= |binaryFile| && Flat(ts) + tail == binaryFile[..n]
      invariant At(out, val, valb, ts, tail)
    {
      var c := binaryFile[n];
      assert binaryFile[..n + 1] == Flat(ts) + tail + [c];
      ghost var before, held := out, val;
      val := ShiftIn(val) + c;
      out, valb := EmitDigits(out, val, valb + 8);
      ts, tail := ByteTaken(before, held, out, val, valb, ts, tail, c);
      n := n + 1;
    }
    assert binaryFile[..n] == binaryFile;
    EncodedOfGroups(ts, tail);
    EncodedOfTail(tail);
    GroupsAreWhole(ts);
    if valb > -6 {
      LastDigitOf(val, tail[|tail| - 1]);
      out := out + [Digit(SextetAt(ShiftIn(val), valb + 8))];
    }
    out := Pad(out, if |tail| == 0 then "" else if |tail| == 1 then "==" else "=");
  }

  /** Pads with '=' to a multiple of four; `missing` is what that takes. */
  method Pad(before: string, ghost missing: string) returns (out: string)
    requires (|before| + |missing|) % 4 == 0 && missing in {"", "=", "=="}
    ensures out == before + missing
  {
    out := before;
    ghost var k := 0;
    while |out| % 4 != 0
      invariant 0 <= k <= |missing| && out == before + missing[..k]
      decreases |missing| - k
    {
      assert missing[..k + 1] == missing[..k] + ['='];
      out := out + ['='];
      k := k + 1;
    }
    assert k == |missing|;
  }

  /** One turn of the loop in terms of groups and tail. */
  lemma ByteTaken(before: string, held: int, out: string, val: int, valb: int, ts: seq<Triple>, tail: seq<Byte>,
                  c: Byte)
    returns (ts': seq<Triple>, tail': seq<Byte>)
    requires |tail| < 3 && before == GroupsOf(ts) + TailDigits(tail) && val == ShiftIn(held) + c
    requires tail != [] ==> held % 256 == tail[|tail| - 1]
    requires var from := if |tail| == 0 then 2 else if |tail| == 1 then 4 else 6;
             && out == before + [Digit(SextetAt(val, from))] + (if from == 6 then [Digit(SextetAt(val, 0))] else [])
             && valb == (if from == 6 then -6 else from - 6)
    ensures Flat(ts') + tail' == Flat(ts) + tail + [c] && At(out, val, valb, ts', tail')
  {
    hide Digit, SextetAt, ShiftIn, Wrap32, GroupsOf, Flat;
    var low: Byte := held % 256;
    DigitsOf(held, low, c);
    ts', tail' := ts, tail + [c];
    if |tail| == 0 {
      assert out == GroupsOf(ts) + [Digit(c / 4)];
    } else if |tail| == 1 {
      assert out == GroupsOf(ts) + ([Digit(low / 4)] + [Digit(low % 4 * 16 + c / 16)]);
    } else {
      GroupsGrow(ts, tail[0], tail[1], c);
      ts', tail' := ts + [(tail[0], tail[1], c)], [];
    }
  }
}
