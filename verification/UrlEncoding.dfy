/** Percent-encoding of query values and the target of the signalling handshake. */
module UrlEncoding {
  import opened Text

  /** A std::string holds bytes. */
  predicate IsBytes(s: string) {
    forall i | 0 <= i < |s| :: s[i] as int < 256
  }

  /** The unreserved characters of section 2.3 of RFC 3986. */
  predicate Unreserved(c: char) {
    'A' <= c <= 'Z' || 'a' <= c <= 'z' || '0' <= c <= '9' || c == '-' || c == '_' || c == '.' || c == '~'
  }

  predicate AllUnreserved(s: string) {
    forall i | 0 <= i < |s| :: Unreserved(s[i])
  }

  function HexDigit(n: int): char
    requires 0 <= n < 16
  {
    if n < 10 then ('0' as int + n) as char else ('A' as int + n - 10) as char
  }

  function HexValue(c: char): int {
    if '0' <= c <= '9' then c as int - '0' as int
    else if 'A' <= c <= 'F' then c as int - 'A' as int + 10
    else if 'a' <= c <= 'f' then c as int - 'a' as int + 10
    else -1
  }

  /** One byte: itself, or a triplet of section 2.1 of RFC 3986 with upper-case digits. */
  function EncodedChar(c: char): string
    requires c as int < 256
  {
    if Unreserved(c) then [c] else ['%', HexDigit(c as int / 16), HexDigit(c as int % 16)]
  }

  function Encoded(s: string): string
    requires IsBytes(s)
  {
    if s == "" then "" else EncodedChar(s[0]) + Encoded(s[1..])
  }

  /** Undoes percent-encoding; a broken triplet stands for itself. */
  function Decoded(s: string): string {
    if s == "" then ""
    else if s[0] == '%' && |s| >= 3 && HexValue(s[1]) >= 0 && HexValue(s[2]) >= 0 then
      [(HexValue(s[1]) * 16 + HexValue(s[2])) as char] + Decoded(s[3..])
    else [s[0]] + Decoded(s[1..])
  }

  lemma {:induction false} DecodedEncoded(s: string)
    requires IsBytes(s)
    ensures Decoded(Encoded(s)) == s
  {
    if s != "" {
      var c, e := s[0], Encoded(s);
      DecodedEncoded(s[1..]);
      DecodedChar(c, Encoded(s[1..]));
    }
  }

  lemma DecodedChar(c: char, rest: string)
    requires c as int < 256
    ensures Decoded(EncodedChar(c) + rest) == [c] + Decoded(rest)
  {
    var e := EncodedChar(c) + rest;
    if Unreserved(c) {
      assert e[1..] == rest;
    } else {
      assert HexValue(e[1]) == c as int / 16 && HexValue(e[2]) == c as int % 16;
      assert e[3..] == rest;
    }
  }

  /** The text is made of unreserved characters and triplets. */
  predicate WellEncoded(s: string) {
    s == "" ||
    (Unreserved(s[0]) && WellEncoded(s[1..])) ||
    (|s| >= 3 && s[0] == '%' && HexValue(s[1]) >= 0 && HexValue(s[2]) >= 0 && WellEncoded(s[3..]))
  }

  lemma {:induction false} EncodedIsWellEncoded(s: string)
    requires IsBytes(s)
    ensures WellEncoded(Encoded(s))
    ensures forall i | 0 <= i < |Encoded(s)| :: Unreserved(Encoded(s)[i]) || Encoded(s)[i] == '%'
  {
    if s != "" {
      var e, rest := Encoded(s), Encoded(s[1..]);
      EncodedIsWellEncoded(s[1..]);
      if Unreserved(s[0]) {
        assert e[1..] == rest;
      } else {
        assert e[3..] == rest;
      }
    }
  }

  /** Exactly the text of unreserved characters stands for itself. */
  lemma {:induction false} UnreservedStaysAsItIs(s: string)
    requires IsBytes(s)
    ensures Encoded(s) == s <==> AllUnreserved(s)
    ensures |Encoded(s)| == |s| <==> AllUnreserved(s)
    ensures |s| <= |Encoded(s)|
  {
    if s != "" {
      UnreservedStaysAsItIs(s[1..]);
      assert AllUnreserved(s) <==> Unreserved(s[0]) && AllUnreserved(s[1..]) by {
        assert forall i | 0 < i < |s| :: s[i] == s[1..][i - 1];
      }
      assert s == [s[0]] + s[1..];
    }
  }

  /** The triplets use upper-case digits. */
  lemma {:induction false} TripletsAreUpperCase(s: string)
    requires IsBytes(s)
    ensures (forall i | 0 <= i < |s| :: !('a' <= s[i] <= 'z')) ==>
              forall i | 0 <= i < |Encoded(s)| :: !('a' <= Encoded(s)[i] <= 'z')
  {
    if s != "" {
      TripletsAreUpperCase(s[1..]);
      assert forall i | 0 <= i < |s[1..]| :: s[1..][i] == s[i + 1];
      var e, rest := EncodedChar(s[0]), Encoded(s[1..]);
      if forall i | 0 <= i < |s| :: !('a' <= s[i] <= 'z') {
        forall i | 0 <= i < |Encoded(s)| ensures !('a' <= Encoded(s)[i] <= 'z') {
          assert Encoded(s)[i] == if i < |e| then e[i] else rest[i - |e|];
        }
      }
    }
  }

  lemma {:induction false} EncodedAppended(s: string, c: char)
    requires IsBytes(s + [c])
    ensures IsBytes(s) && c as int < 256 && Encoded(s + [c]) == Encoded(s) + EncodedChar(c)
    decreases |s|
  {
    hide EncodedChar, Unreserved;
    assert (s + [c])[|s|] == c;
    assert forall i | 0 <= i < |s| :: s[i] == (s + [c])[i];
    if s != "" {
      assert (s + [c])[1..] == s[1..] + [c];
      EncodedAppended(s[1..], c);
    }
  }

  method UrlEncode(value: string) returns (escaped: string)
    requires IsBytes(value)
    ensures escaped == Encoded(value)
  {
    escaped := "";
    var k := 0;
    while k < |value|
      invariant 0 <= k <= |value| && escaped == Encoded(value[..k])
    {
      var c := value[k];
      assert value[..k + 1] == value[..k] + [c];
      EncodedAppended(value[..k], c);
      if Unreserved(c) {
        escaped := escaped + [c];
      } else {
        escaped := escaped + ['%', HexDigit(c as int / 16), HexDigit(c as int % 16)];
      }
      k := k + 1;
    }
    assert value[..k] == value;
  }

  // ---- the target ----

  /** The entries of a std::map in iteration order. */
  type Params = seq<(string, string)>

  /** Any keys, and values of bytes. */
  predicate ValidParams(params: Params) {
    forall i | 0 <= i < |params| :: IsBytes(params[i].1)
  }

  function Field(p: (string, string)): string
    requires IsBytes(p.1)
  {
    p.0 + ['='] + Encoded(p.1)
  }

  function Fields(params: Params): (fs: seq<string>)
    requires ValidParams(params)
    ensures |fs| == |params|
  {
    seq(|params|, i requires 0 <= i < |params| => Field(params[i]))
  }

  function Target(basePath: string, params: Params): string
    requires ValidParams(params)
  {
    if params == [] then basePath else basePath + ['?'] + Join(Fields(params), '&')
  }

  /** The target with the first k parameters, its '?' included. */
  function TargetUpTo(basePath: string, params: Params, k: nat): string
    requires ValidParams(params) && k <= |params|
  {
    basePath + ['?'] + if k == 0 then "" else Join(Fields(params)[..k], '&')
  }

  lemma TargetGrows(basePath: string, params: Params, k: nat)
    requires ValidParams(params) && k < |params|
    ensures TargetUpTo(basePath, params, k + 1) ==
            (if k == 0 then TargetUpTo(basePath, params, k) else TargetUpTo(basePath, params, k) + "&") +
            params[k].0 + "=" + Encoded(params[k].1)
  {
    hide Encoded, Join;
    var fields := Fields(params);
    JoinAppended(fields[..k], fields[k], '&');
    assert fields[..k + 1] == fields[..k] + [fields[k]];
  }

  method BuildWebSocketTarget(basePath: string, params: Params) returns (target: string)
    requires ValidParams(params)
    ensures target == Target(basePath, params)
  {
    hide Encoded, Join;
    target := basePath;
    if |params| != 0 {
      target := target + "?";
      assert target == TargetUpTo(basePath, params, 0);
      var first := true;
      var k := 0;
      while k < |params|
        invariant 0 <= k <= |params| && first == (k == 0)
        invariant target == TargetUpTo(basePath, params, k)
      {
        hide TargetUpTo;
        TargetGrows(basePath, params, k);
        if !first {
          target := target + "&";
        }
        var value := UrlEncode(params[k].1);
        target := target + params[k].0 + "=" + value;
        first := false;
        k := k + 1;
      }
      assert Fields(params)[..k] == Fields(params);
    }
  }

  lemma {:induction false} JoinAppended(parts: seq<string>, part: string, c: char)
    ensures Join(parts + [part], c) == if parts == [] then part else Join(parts, c) + [c] + part
    decreases |parts|
  {
    if parts != [] {
      assert (parts + [part])[1..] == parts[1..] + [part];
      JoinAppended(parts[1..], part, c);
    }
  }

  // ---- reading it back ----

  function ParseField(f: string): (string, string) {
    var key := Before(f, '=');
    (key, if key == f then "" else Decoded(f[|key| + 1..]))
  }

  /** Path and query parameters of a target. */
  function ParseTarget(t: string): (string, Params) {
    var path := Before(t, '?');
    if path == t then (t, [])
    else
      var fields := Split(t[|path| + 1..], '&');
      (path, ParseFields(fields))
  }

  function ParseFields(fields: seq<string>): Params {
    seq(|fields|, i requires 0 <= i < |fields| => ParseField(fields[i]))
  }

  lemma BeforeOf(a: string, b: string, c: char)
    requires c !in a
    ensures Before(a + [c] + b, c) == a && (a + [c] + b)[|a| + 1..] == b
  {
    BeforeAppended(a, b, c);
  }

  lemma UnreservedHasNo(s: string)
    requires forall i | 0 <= i < |s| :: Unreserved(s[i]) || s[i] == '%'
    ensures '=' !in s && '&' !in s && '?' !in s
  {
  }

  lemma FieldReadsBack(p: (string, string))
    requires '=' !in p.0 && '&' !in p.0 && IsBytes(p.1)
    ensures ParseField(Field(p)) == p && '&' !in Field(p)
  {
    EncodedIsWellEncoded(p.1);
    UnreservedHasNo(Encoded(p.1));
    BeforeOf(p.0, Encoded(p.1), '=');
    DecodedEncoded(p.1);
  }

  /** No '?' in the path, and no '=' or '&' in a key. */
  predicate Separable(basePath: string, params: Params) {
    '?' !in basePath && forall i | 0 <= i < |params| :: '=' !in params[i].0 && '&' !in params[i].0
  }

  lemma SeparableReadsBack(basePath: string, params: Params)
    requires Separable(basePath, params) && ValidParams(params)
    ensures ParseTarget(Target(basePath, params)) == (basePath, params)
  {
    if params == [] {
      BeforeAll(basePath, '?');
    } else {
      var fields := Fields(params);
      forall i | 0 <= i < |params| ensures ParseField(fields[i]) == params[i] && '&' !in fields[i] {
        FieldReadsBack(params[i]);
      }
      BeforeOf(basePath, Join(fields, '&'), '?');
      SplitOfJoin(fields, '&');
      ParsedFields(basePath, fields, params);
    }
  }

  lemma {:induction false} PartsHaveNoSeparator(s: string, c: char, i: nat)
    requires i < |Split(s, c)|
    ensures c !in Split(s, c)[i]
    decreases |s|
  {
    var first := Before(s, c);
    if first != s && i > 0 {
      PartsHaveNoSeparator(s[|first| + 1..], c, i - 1);
    }
  }

  /** The exact condition: what the server splits off at '?', '&' and '=' and decodes is what was put in, for all
      values of bytes, if and only if the path has no '?' and the keys have neither '=' nor '&'. */
  lemma TargetReadsBack(basePath: string, params: Params)
    requires ValidParams(params)
    ensures ParseTarget(Target(basePath, params)) == (basePath, params) <==> Separable(basePath, params)
  {
    var t := Target(basePath, params);
    if Separable(basePath, params) {
      SeparableReadsBack(basePath, params);
    } else if ParseTarget(t) == (basePath, params) {
      var path := Before(t, '?');
      forall i | 0 <= i < |params| ensures '=' !in params[i].0 && '&' !in params[i].0 {
        PartsHaveNoSeparator(t[|path| + 1..], '&', i);
      }
    }
  }

  /** A key with a '=' does not read back. */
  lemma SeparatorInKeyIsLost()
    ensures var params := [("a=b", "c")]; ParseTarget(Target("/rtc", params)) != ("/rtc", params)
  {
    var params := [("a=b", "c")];
    assert params[0].0[1] == '=';
    TargetReadsBack("/rtc", params);
  }

  /** In particular keys of unreserved characters read back. */
  lemma UnreservedKeysReadBack(basePath: string, params: Params)
    requires '?' !in basePath && ValidParams(params) && forall i | 0 <= i < |params| :: AllUnreserved(params[i].0)
    ensures ParseTarget(Target(basePath, params)) == (basePath, params)
  {
    forall i | 0 <= i < |params| ensures '=' !in params[i].0 && '&' !in params[i].0 {
      UnreservedHasNo(params[i].0);
    }
    SeparableReadsBack(basePath, params);
  }

  lemma ParsedFields(basePath: string, fields: seq<string>, params: Params)
    requires fields != [] && |fields| == |params| && forall i | 0 <= i < |params| :: ParseField(fields[i]) == params[i]
    requires Split(Join(fields, '&'), '&') == fields
    requires var t := basePath + ['?'] + Join(fields, '&');
             Before(t, '?') == basePath && t[|basePath| + 1..] == Join(fields, '&')
    ensures ParseTarget(basePath + ['?'] + Join(fields, '&')) == (basePath, params)
  {
    hide ParseField, Split, Join, Before;
    var t := basePath + ['?'] + Join(fields, '&');
    assert Before(t, '?') != t;
    assert ParseFields(fields) == params;
  }

  lemma BeforeAll(s: string, c: char)
    requires c !in s
    ensures Before(s, c) == s
  {
  }
}
