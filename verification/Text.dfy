/** Splitting strings at a character and joining them again. */
module Text {

  /** The prefix before the first c, or all of s. */
  function Before(s: string, c: char): (r: string)
    ensures r <= s && c !in r && (r == s || s[|r|] == c)
  {
    if s == "" || s[0] == c then "" else [s[0]] + Before(s[1..], c)
  }

  /** The parts between the occurrences of c; there is always at least one. */
  function Split(s: string, c: char): (parts: seq<string>)
    ensures parts != []
    decreases |s|
  {
    var first := Before(s, c);
    if first == s then [s] else [first] + Split(s[|first| + 1..], c)
  }

  function Join(parts: seq<string>, c: char): string
    requires parts != []
  {
    if |parts| == 1 then parts[0] else parts[0] + [c] + Join(parts[1..], c)
  }

  lemma {:induction false} BeforeAppended(a: string, b: string, c: char)
    ensures Before(a + [c] + b, c) == Before(a, c)
  {
    if a != "" {
      assert (a + [c] + b)[1..] == a[1..] + [c] + b;
      BeforeAppended(a[1..], b, c);
    }
  }

  lemma {:induction false} BeforeOfSum(a: string, b: string, c: char)
    ensures Before(a + b, c) == if c in a then Before(a, c) else a + Before(b, c)
  {
    if a == "" {
      assert a + b == b;
    } else {
      assert (a + b)[1..] == a[1..] + b;
      BeforeOfSum(a[1..], b, c);
      assert a == [a[0]] + a[1..];
    }
  }

  lemma RestAppended(a: string, b: string, c: char, n: nat)
    requires n <= |a|
    ensures (a + [c] + b)[n + 1..] == if n == |a| then b else a[n + 1..] + [c] + b
  {
  }

  lemma SplitStep(s: string, c: char)
    ensures Split(s, c) ==
            if Before(s, c) == s then [s] else [Before(s, c)] + Split(s[|Before(s, c)| + 1..], c)
  {
  }

  lemma {:induction false} SplitAppended(a: string, b: string, c: char)
    ensures Split(a + [c] + b, c) == Split(a, c) + Split(b, c)
    decreases |a|
  {
    hide Before, Split;
    var n := |Before(a, c)|;
    BeforeAppended(a, b, c);
    SplitStep(a + [c] + b, c);
    SplitStep(a, c);
    RestAppended(a, b, c, n);
    if n < |a| {
      SplitAppended(a[n + 1..], b, c);
    }
  }

  lemma SplitOfOne(s: string, c: char)
    requires c !in s
    ensures Split(s, c) == [s]
  {
  }

  /** Splitting undoes joining when no part contains the separator. */
  lemma {:induction false} SplitOfJoin(parts: seq<string>, c: char)
    requires parts != [] && forall i | 0 <= i < |parts| :: c !in parts[i]
    ensures Split(Join(parts, c), c) == parts
    decreases |parts|
  {
    SplitOfOne(parts[0], c);
    if |parts| > 1 {
      SplitOfJoin(parts[1..], c);
      SplitAppended(parts[0], Join(parts[1..], c), c);
      assert parts == [parts[0]] + parts[1..];
    }
  }
}
