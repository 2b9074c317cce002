/** The order in which overlay text files are composed: digit runs compare by value, other bytes one by one. */
module NaturalOrder {
  import opened Decimals
  import opened Orders

  predicate IsZero(c: char) {
    c == '0'
  }

  /** A byte that is not a digit, or a maximal digit run split into leading zeros and significant digits. */
  datatype Token = Plain(c: char) | Digits(zeros: nat, significant: string)

  /** Length of the longest prefix whose characters satisfy p. */
  function RunLength(s: string, p: char -> bool): (n: nat)
    ensures n <= |s|
    ensures forall i | 0 <= i < n :: p(s[i])
    ensures n < |s| ==> !p(s[n])
  {
    if s == "" || !p(s[0]) then 0 else 1 + RunLength(s[1..], p)
  }

  /** Where the significant digits of a leading digit run start and where the run ends. */
  function DigitRun(s: string): (r: (nat, nat))
    requires s != "" && IsDigit(s[0])
    ensures r.0 <= r.1 <= |s| && 0 < r.1
    ensures forall k | 0 <= k < r.0 :: s[k] == '0'
  {
    var z := RunLength(s, IsZero);
    var d := RunLength(s[z..], IsDigit);
    assert z + d > 0;
    (z, z + d)
  }

  function Tokens(s: string): seq<Token>
    decreases |s|
  {
    if s == "" then []
    else if IsDigit(s[0]) then
      var (z, e) := DigitRun(s);
      [Digits(z, s[z..e])] + Tokens(s[e..])
    else [Plain(s[0])] + Tokens(s[1..])
  }

  /** Fewer significant digits mean a smaller number; equal numbers order by their leading zeros. */
  predicate DigitsLess(z1: nat, d1: string, z2: nat, d2: string) {
    if |d1| != |d2| then |d1| < |d2|
    else if d1 != d2 then StringLess(d1, d2)
    else z1 < z2
  }

  /** Digit runs stand among the other bytes where the digits do (a plain byte is not a digit). */
  predicate TokenLess(t: Token, u: Token) {
    match (t, u)
    case (Plain(c), Plain(d)) => c < d
    case (Plain(c), Digits(_, _)) => c <= '9'
    case (Digits(_, _), Plain(d)) => '9' < d
    case (Digits(z1, d1), Digits(z2, d2)) => DigitsLess(z1, d1, z2, d2)
  }

  /** The order itself: lexicographic on tokens. */
  predicate NaturalLess(a: string, b: string) {
    LexLess(TokenLess, Tokens(a), Tokens(b))
  }

  // ---- the loop computes it ----

  lemma RunLengthIs(s: string, n: nat, p: char -> bool)
    requires n <= |s| && (forall k | 0 <= k < n :: p(s[k])) && (n < |s| ==> !p(s[n]))
    ensures RunLength(s, p) == n
  {
  }

  lemma DigitRunIs(s: string, z: nat, e: nat)
    requires s != "" && IsDigit(s[0]) && z <= e <= |s|
    requires (forall k | 0 <= k < z :: s[k] == '0') && (z < |s| ==> s[z] != '0')
    requires (forall k | z <= k < e :: IsDigit(s[k])) && (e < |s| ==> !IsDigit(s[e]))
    ensures DigitRun(s) == (z, e)
  {
    RunLengthIs(s, z, IsZero);
    var t := s[z..];
    assert forall k | 0 <= k < |t| :: t[k] == s[z + k];
    RunLengthIs(t, e - z, IsDigit);
  }

  lemma DigitRunAt(s: string, i: nat, si: nat, ei: nat)
    requires i < |s| && IsDigit(s[i]) && i <= si <= ei <= |s|
    requires (forall k | i <= k < si :: s[k] == '0') && (si < |s| ==> s[si] != '0')
    requires (forall k | si <= k < ei :: IsDigit(s[k])) && (ei < |s| ==> !IsDigit(s[ei]))
    ensures DigitRun(s[i..]) == (si - i, ei - i)
  {
    var t := s[i..];
    assert forall k | 0 <= k < |t| :: t[k] == s[i + k];
    DigitRunIs(t, si - i, ei - i);
  }

  lemma SliceOfSlice(s: string, i: nat, j: nat, k: nat)
    requires i <= j <= k <= |s|
    ensures s[i..][j - i..k - i] == s[j..k] && s[i..][k - i..] == s[k..]
  {
  }

  /** The tokens from position i on, given where its digit run starts being significant and where it ends. */
  lemma TokensAtDigits(s: string, i: nat, si: nat, ei: nat)
    requires i < |s| && IsDigit(s[i]) && i <= si <= ei <= |s|
    requires (forall k | i <= k < si :: s[k] == '0') && (si < |s| ==> s[si] != '0')
    requires (forall k | si <= k < ei :: IsDigit(s[k])) && (ei < |s| ==> !IsDigit(s[ei]))
    ensures ei > i && Tokens(s[i..]) == [Digits(si - i, s[si..ei])] + Tokens(s[ei..])
  {
    DigitRunAt(s, i, si, ei);
    SliceOfSlice(s, i, si, ei);
    assert s[i..][0] == s[i];
  }

  lemma TokensAtPlain(s: string, i: nat)
    requires i < |s| && !IsDigit(s[i])
    ensures Tokens(s[i..]) == [Plain(s[i])] + Tokens(s[i + 1..])
  {
    assert s[i..][1..] == s[i + 1..];
  }

  /** What is left to decide when the loop stands at i and j. */
  ghost predicate RestLess(a: string, b: string, i: nat, j: nat)
    requires i <= |a| && j <= |b|
  {
    LexLess(TokenLess, Tokens(a[i..]), Tokens(b[j..]))
  }

  lemma FirstTokenDecides(t: Token, ts: seq<Token>, u: Token, us: seq<Token>)
    ensures LexLess(TokenLess, [t] + ts, [u] + us) == if t == u then LexLess(TokenLess, ts, us) else TokenLess(t, u)
  {
    assert ([t] + ts)[1..] == ts && ([u] + us)[1..] == us;
  }

  lemma DigitsDecide(a: string, b: string, i: nat, j: nat, si: nat, ei: nat, sj: nat, ej: nat)
    requires i < |a| && IsDigit(a[i]) && i <= si <= ei <= |a|
    requires (forall k | i <= k < si :: a[k] == '0') && (si < |a| ==> a[si] != '0')
    requires (forall k | si <= k < ei :: IsDigit(a[k])) && (ei < |a| ==> !IsDigit(a[ei]))
    requires j < |b| && IsDigit(b[j]) && j <= sj <= ej <= |b|
    requires (forall k | j <= k < sj :: b[k] == '0') && (sj < |b| ==> b[sj] != '0')
    requires (forall k | sj <= k < ej :: IsDigit(b[k])) && (ej < |b| ==> !IsDigit(b[ej]))
    ensures ei > i && ej > j
    ensures RestLess(a, b, i, j) ==
            if si - i == sj - j && a[si..ei] == b[sj..ej] then RestLess(a, b, ei, ej)
            else DigitsLess(si - i, a[si..ei], sj - j, b[sj..ej])
  {
    TokensAtDigits(a, i, si, ei);
    TokensAtDigits(b, j, sj, ej);
    FirstTokenDecides(Digits(si - i, a[si..ei]), Tokens(a[ei..]), Digits(sj - j, b[sj..ej]), Tokens(b[ej..]));
  }

  lemma TokensStart(s: string, i: nat)
    requires i < |s|
    ensures var ts := Tokens(s[i..]);
            ts != [] && if IsDigit(s[i]) then ts[0].Digits? else ts == [Plain(s[i])] + Tokens(s[i + 1..])
  {
    if !IsDigit(s[i]) {
      TokensAtPlain(s, i);
    }
  }

  lemma BytesDecide(a: string, b: string, i: nat, j: nat)
    requires i < |a| && j < |b| && !(IsDigit(a[i]) && IsDigit(b[j]))
    ensures RestLess(a, b, i, j) == if a[i] == b[j] then RestLess(a, b, i + 1, j + 1) else a[i] < b[j]
  {
    TokensStart(a, i);
    TokensStart(b, j);
    if a[i] == b[j] {
      FirstTokenDecides(Plain(a[i]), Tokens(a[i + 1..]), Plain(b[j]), Tokens(b[j + 1..]));
    }
  }

  lemma EndDecides(a: string, b: string, i: nat, j: nat)
    requires i <= |a| && j <= |b| && (i == |a| || j == |b|)
    ensures RestLess(a, b, i, j) == (|a| - i < |b| - j)
  {
    if i < |a| {
      TokensStart(a, i);
    }
    if j < |b| {
      TokensStart(b, j);
    }
  }

  /** Skips from position i while p holds. */
  method SkipWhile(s: string, i: nat, p: char -> bool) returns (n: nat)
    requires i <= |s|
    ensures i <= n <= |s| && (forall k | i <= k < n :: p(s[k])) && (n < |s| ==> !p(s[n]))
  {
    n := i;
    while n < |s| && p(s[n])
      invariant i <= n <= |s| && forall k | i <= k < n :: p(s[k])
    {
      n := n + 1;
    }
  }

  /** The comparator given to the sort. */
  method CompareNatural(a: string, b: string) returns (less: bool)
    ensures less == NaturalLess(a, b)
  {
    var i, j := 0, 0;
    assert a[0..] == a && b[0..] == b;
    while i < |a| && j < |b|
      invariant 0 <= i <= |a| && 0 <= j <= |b|
      invariant NaturalLess(a, b) == RestLess(a, b, i, j)
      decreases |a| - i
    {
      if IsDigit(a[i]) && IsDigit(b[j]) {
        var si := SkipWhile(a, i, IsZero);
        var sj := SkipWhile(b, j, IsZero);
        var ei := SkipWhile(a, si, IsDigit);
        var ej := SkipWhile(b, sj, IsDigit);
        DigitsDecide(a, b, i, j, si, ei, sj, ej);
        var la, lb := ei - si, ej - sj;
        if la != lb {
          return la < lb;
        }
        if a[si..ei] != b[sj..ej] {
          return StringLess(a[si..ei], b[sj..ej]);
        }
        if si - i != sj - j {
          return si - i < sj - j;
        }
        i, j := ei, ej;
      } else {
        BytesDecide(a, b, i, j);
        if a[i] != b[j] {
          return a[i] < b[j];
        }
        i, j := i + 1, j + 1;
      }
    }
    EndDecides(a, b, i, j);
    less := |a| - i < |b| - j;
  }

  // ---- it is a strict total order ----

  lemma TokenLessIsTotalOrder()
    ensures StrictTotalOrder(TokenLess)
  {
    StringLessIsTotalOrder();
    forall t, u, v | TokenLess(t, u) && TokenLess(u, v) ensures TokenLess(t, v) {
    }
  }

  function TokenText(t: Token): string {
    match t
    case Plain(c) => [c]
    case Digits(z, d) => seq(z, _ => '0') + d
  }

  function Spelling(ts: seq<Token>): string {
    if ts == [] then "" else TokenText(ts[0]) + Spelling(ts[1..])
  }

  /** Tokens lose nothing: they spell the string they were taken from. */
  lemma {:induction false} SpellingOfTokens(s: string)
    ensures Spelling(Tokens(s)) == s
    decreases |s|
  {
    hide DigitRun, Spelling, TokenText;
    if s == "" {
      SpellingOfNone();
    } else {
      if IsDigit(s[0]) {
        var (z, e) := DigitRun(s);
        SpellingOfTokens(s[e..]);
        RunText(s, z, e);
        SpellingOfCons(Digits(z, s[z..e]), Tokens(s[e..]));
        assert s == s[..e] + s[e..];
      } else {
        SpellingOfTokens(s[1..]);
        SpellingOfCons(Plain(s[0]), Tokens(s[1..]));
        PlainText(s[0]);
        assert s == [s[0]] + s[1..];
      }
    }
  }

  lemma SpellingOfNone()
    ensures Spelling([]) == ""
  {
  }

  lemma PlainText(c: char)
    ensures TokenText(Plain(c)) == [c]
  {
  }

  lemma RunText(s: string, z: nat, e: nat)
    requires z <= e <= |s| && forall k | 0 <= k < z :: s[k] == '0'
    ensures TokenText(Digits(z, s[z..e])) == s[..e]
  {
    assert s[..z] == seq(z, _ => '0');
  }

  lemma SpellingOfCons(t: Token, ts: seq<Token>)
    ensures Spelling([t] + ts) == TokenText(t) + Spelling(ts)
  {
    assert ([t] + ts)[1..] == ts;
  }

  /** What a sort needs of its comparator, and more: no two different names are tied. */
  lemma NaturalLessIsTotalOrder()
    ensures StrictTotalOrder(NaturalLess)
  {
    TokenLessIsTotalOrder();
    forall a: string ensures !NaturalLess(a, a) {
      LexIrreflexive(TokenLess, Tokens(a));
    }
    forall a: string, b: string, c: string | NaturalLess(a, b) && NaturalLess(b, c) ensures NaturalLess(a, c) {
      LexTransitive(TokenLess, Tokens(a), Tokens(b), Tokens(c));
    }
    forall a: string, b: string | a != b ensures NaturalLess(a, b) || NaturalLess(b, a) {
      SpellingOfTokens(a);
      SpellingOfTokens(b);
      LexTotal(TokenLess, Tokens(a), Tokens(b));
    }
  }
}
