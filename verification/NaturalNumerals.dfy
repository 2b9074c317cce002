/** Why the order of overlay files is called natural: digit runs compare as the numbers they denote. */
module NaturalNumerals {
  import opened Arithmetic
  import opened Decimals
  import opened NaturalOrder
  import opened Orders

  ghost predicate AllDigits(d: string) {
    forall i | 0 <= i < |d| :: IsDigit(d[i])
  }

  function Value(c: char): int {
    c as int - '0' as int
  }

  // ---- numerals as numbers ----

  /** n more digits multiply by 10^n and add less than that. */
  lemma {:induction false} DigitsBound(d: string, acc: nat)
    requires AllDigits(d)
    ensures acc * PowerOfTen(|d|) <= DigitsValue(d, acc) < (acc + 1) * PowerOfTen(|d|)
    decreases |d|
  {
    if d != "" {
      var acc', p := acc * 10 + Value(d[0]), PowerOfTen(|d| - 1);
      DigitsBound(d[1..], acc');
      TenTimes(acc, p);
      TenTimes(acc + 1, p);
      assert PowerOfTen(|d|) == 10 * p;
      MulMonotone(acc * 10, acc', p);
      MulMonotone(acc' + 1, acc * 10 + 10, p);
    }
  }

  lemma TenTimes(a: nat, p: nat)
    ensures a * (10 * p) == a * 10 * p
  {
  }

  /** Numerals of one length compare like strings. */
  lemma {:induction false} SameLengthOrder(d: string, e: string, acc: nat)
    requires AllDigits(d) && AllDigits(e) && |d| == |e|
    ensures StringLess(d, e) <==> DigitsValue(d, acc) < DigitsValue(e, acc)
    ensures d == e <==> DigitsValue(d, acc) == DigitsValue(e, acc)
    decreases |d|
  {
    if d != "" {
      var p, v, w := PowerOfTen(|d| - 1), acc * 10 + Value(d[0]), acc * 10 + Value(e[0]);
      assert d == [d[0]] + d[1..] && e == [e[0]] + e[1..];
      if d[0] == e[0] {
        SameLengthOrder(d[1..], e[1..], v);
      } else {
        DigitsBound(d[1..], v);
        DigitsBound(e[1..], w);
        if v < w { MulMonotone(v + 1, w, p); } else { MulMonotone(w + 1, v, p); }
      }
    }
  }

  lemma {:induction false} PowersGrow(m: nat, n: nat)
    requires m <= n
    ensures 1 <= PowerOfTen(m) <= PowerOfTen(n)
    decreases n
  {
    if m < n {
      PowersGrow(m, n - 1);
    } else if n > 0 {
      PowersGrow(n - 1, n - 1);
    }
  }

  /** Without leading zeros a longer numeral is greater. */
  lemma LongerIsGreater(d: string, e: string)
    requires AllDigits(d) && AllDigits(e) && |d| < |e| && e[0] != '0'
    ensures DigitsValue(d, 0) < DigitsValue(e, 0)
  {
    DigitsBound(d, 0);
    DigitsBound(e[1..], Value(e[0]));
    PowersGrow(|d|, |e| - 1);
    MulMonotone(1, Value(e[0]), PowerOfTen(|e| - 1));
  }

  lemma {:induction false} LeadingZeros(d: string, z: nat)
    requires z <= |d| && forall i | 0 <= i < z :: d[i] == '0'
    ensures DigitsValue(d, 0) == DigitsValue(d[z..], 0)
    decreases z
  {
    if z > 0 {
      LeadingZeros(d[1..], z - 1);
      assert d[1..][z - 1..] == d[z..];
    }
  }

  /** Zeros and significant digits of a digit run. */
  ghost predicate Parts(d: string, z: nat) {
    AllDigits(d) && d != "" && z <= |d| && (forall i | 0 <= i < z :: d[i] == '0') && (z < |d| ==> d[z] != '0')
  }

  lemma PartsExist(d: string) returns (z: nat)
    requires AllDigits(d) && d != ""
    ensures Parts(d, z)
  {
    z := RunLength(d, IsZero);
  }

  /** Digit runs of different values compare as numbers; of two runs of one value that with fewer zeros is less. */
  lemma DigitsLessIsNumeric(d: string, y: nat, e: string, z: nat)
    requires Parts(d, y) && Parts(e, z)
    ensures DigitsLess(y, d[y..], z, e[z..]) <==>
            DigitsValue(d, 0) < DigitsValue(e, 0) || (DigitsValue(d, 0) == DigitsValue(e, 0) && y < z)
  {
    var m, n := d[y..], e[z..];
    assert AllDigits(m) && AllDigits(n);
    LeadingZeros(d, y);
    LeadingZeros(e, z);
    if |m| == |n| {
      SameLengthOrder(m, n, 0);
    } else if |m| < |n| {
      LongerIsGreater(m, n);
    } else {
      LongerIsGreater(n, m);
    }
  }

  // ---- where they stand ----

  ghost predicate EndsRun(p: string) {
    p == "" || !IsDigit(p[|p| - 1])
  }

  ghost predicate BeginsNoRun(x: string) {
    x == "" || !IsDigit(x[0])
  }

  /** The tokens of a text that ends with no digit stay what they are when text is appended. */
  lemma {:induction false} TokensAppended(p: string, s: string)
    requires EndsRun(p)
    ensures Tokens(p + s) == Tokens(p) + Tokens(s)
    decreases |p|
  {
    hide Tokens, DigitRun;
    if p == "" {
      TokensOfNone();
      assert p + s == s && [] + Tokens(s) == Tokens(s);
    } else if IsDigit(p[0]) {
      var (z, e) := DigitRun(p);
      RunEnds(p, z, e);
      RunAppended(p, s, z, e);
      TokensAppended(p[e..], s);
      FirstRun(p, z, e);
    } else {
      assert (p + s)[1..] == p[1..] + s;
      TokensAppended(p[1..], s);
      FirstPlain(p);
      FirstPlain(p + s);
    }
  }

  lemma TokensOfNone()
    ensures Tokens("") == []
  {
  }

  lemma FirstRun(s: string, z: nat, e: nat)
    requires s != "" && IsDigit(s[0]) && DigitRun(s) == (z, e)
    ensures Tokens(s) == [Digits(z, s[z..e])] + Tokens(s[e..])
  {
  }

  lemma FirstPlain(s: string)
    requires s != "" && !IsDigit(s[0])
    ensures Tokens(s) == [Plain(s[0])] + Tokens(s[1..])
  {
  }

  lemma RunAppended(p: string, s: string, z: nat, e: nat)
    requires p != "" && IsDigit(p[0]) && DigitRun(p) == (z, e) && z <= e < |p| && !IsDigit(p[e]) && p[z] != '0'
    requires forall k | z <= k < e :: IsDigit(p[k])
    ensures Tokens(p + s) == [Digits(z, p[z..e])] + Tokens(p[e..] + s)
  {
    var t := p + s;
    assert t[0] == p[0];
    DigitRunIs(t, z, e);
    FirstRun(t, z, e);
    assert t[z..e] == p[z..e] && t[e..] == p[e..] + s;
  }

  /** A digit run stops before the end of a text that ends with no digit. */
  lemma RunEnds(p: string, z: nat, e: nat)
    requires p != "" && IsDigit(p[0]) && EndsRun(p) && DigitRun(p) == (z, e)
    ensures z <= e < |p| && !IsDigit(p[e]) && p[z] != '0' && EndsRun(p[e..])
    ensures forall k | z <= k < e :: IsDigit(p[k])
  {
    hide RunLength;
    RunLengths(p, z, e);
    var last := |p| - 1;
    assert !IsDigit(p[last]) && p[last] != '0';
    assert z <= last;
    assert e <= last;
    assert p[e..] != "" && p[e..][|p[e..]| - 1] == p[last];
  }

  lemma RunLengths(p: string, z: nat, e: nat)
    requires p != "" && IsDigit(p[0]) && DigitRun(p) == (z, e)
    ensures z <= e <= |p| && (forall k | 0 <= k < z :: p[k] == '0') && (z < |p| ==> p[z] != '0')
    ensures (forall k | z <= k < e :: IsDigit(p[k])) && (e < |p| ==> !IsDigit(p[e]))
  {
    hide RunLength;
    var t := p[z..];
    assert forall k | 0 <= k < |t| :: t[k] == p[z + k];
    assert forall k | z <= k < |p| :: p[k] == t[k - z];
    assert z == RunLength(p, IsZero) && e == z + RunLength(t, IsDigit);
  }

  lemma {:induction false} CommonPrefixDecidesNothing<T>(less: (T, T) -> bool, p: seq<T>, s: seq<T>, t: seq<T>)
    ensures LexLess(less, p + s, p + t) == LexLess(less, s, t)
  {
    if p == [] {
      assert p + s == s && p + t == t;
    } else {
      assert (p + s)[1..] == p[1..] + s && (p + t)[1..] == p[1..] + t;
      CommonPrefixDecidesNothing(less, p[1..], s, t);
    }
  }

  lemma RunThenRest(d: string, z: nat, x: string)
    requires Parts(d, z) && BeginsNoRun(x)
    ensures Tokens(d + x) == [Digits(z, d[z..])] + Tokens(x)
  {
    TokensAtDigits(d + x, 0, z, |d|);
    assert (d + x)[0..] == d + x && (d + x)[z..|d|] == d[z..] && (d + x)[|d|..] == x;
  }

  /** Names that agree up to a digit run compare by the numbers at that place: whatever follows, the name with the
      smaller number comes first. */
  lemma NumbersDecide(p: string, d: string, x: string, e: string, y: string)
    requires EndsRun(p) && BeginsNoRun(x) && BeginsNoRun(y)
    requires AllDigits(d) && AllDigits(e) && d != "" && e != "" && DigitsValue(d, 0) != DigitsValue(e, 0)
    ensures NaturalLess(p + (d + x), p + (e + y)) <==> DigitsValue(d, 0) < DigitsValue(e, 0)
  {
    var m := PartsExist(d);
    var n := PartsExist(e);
    hide Tokens, DigitsLess, DigitsValue;
    TokensAppended(p, d + x);
    TokensAppended(p, e + y);
    RunThenRest(d, m, x);
    RunThenRest(e, n, y);
    CommonPrefixDecidesNothing(TokenLess, Tokens(p), Tokens(d + x), Tokens(e + y));
    FirstTokenDecides(Digits(m, d[m..]), Tokens(x), Digits(n, e[n..]), Tokens(y));
    DigitsLessIsNumeric(d, m, e, n);
    if m == n && d[m..] == e[n..] {
      LeadingZeros(d, m);
      LeadingZeros(e, n);
      assert false;
    }
  }

  /** Elsewhere bytes decide: names that agree up to two different bytes, not both digits, compare by these bytes. */
  lemma BytesDecideElsewhere(p: string, c: char, x: string, d: char, y: string)
    requires EndsRun(p) && c != d && !(IsDigit(c) && IsDigit(d))
    ensures NaturalLess(p + ([c] + x), p + ([d] + y)) <==> c < d
  {
    var a, b := [c] + x, [d] + y;
    TokensAppended(p, a);
    TokensAppended(p, b);
    CommonPrefixDecidesNothing(TokenLess, Tokens(p), Tokens(a), Tokens(b));
    BytesDecide(a, b, 0, 0);
    assert a[0..] == a && b[0..] == b;
  }

  /** A name comes before its continuations. */
  lemma PrefixComesFirst(p: string, x: string)
    requires EndsRun(p) && x != ""
    ensures NaturalLess(p, p + x)
  {
    TokensAppended(p, x);
    TokensAppended(p, "");
    assert p + "" == p;
    TokensStart(x, 0);
    assert x[0..] == x;
    CommonPrefixDecidesNothing(TokenLess, Tokens(p), [], Tokens(x));
    TokensOfNone();
    assert Tokens(p) + [] == Tokens(p);
  }
}
