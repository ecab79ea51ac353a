/** Query parameters of the OAuth callback (lib/auth/oauth_callback_server.c). A char stands for a byte. */
module QueryParams {
  import opened Wrappers

  // ----- Percent-encoding (section 2.1 of RFC 3986) -----

  function HexValue(c: char): Option<nat> {
    if '0' <= c <= '9' then Some(c as int - '0' as int)
    else if 'A' <= c <= 'F' then Some(c as int - 'A' as int + 10)
    else if 'a' <= c <= 'f' then Some(c as int - 'a' as int + 10)
    else None
  }

  /** Left to right: an escape of two hexadecimal digits is a byte, a plus is a space, all else stands for itself. */
  function PercentDecode(s: string): (t: string)
    ensures |t| <= |s|
  {
    if s == "" then ""
    else if s[0] == '%' && |s| >= 3 && HexValue(s[1]).Some? && HexValue(s[2]).Some? then
      [(HexValue(s[1]).value * 16 + HexValue(s[2]).value) as char] + PercentDecode(s[3..])
    else [if s[0] == '+' then ' ' else s[0]] + PercentDecode(s[1..])
  }

  /** Digits of either case have their usual values, and no other character has one. */
  lemma HexValueMeans(c: char)
    ensures match HexValue(c)
            case None => c !in "0123456789ABCDEFabcdef"
            case Some(v) => v < 16 && (c == "0123456789ABCDEF"[v] || c == "0123456789abcdef"[v])
  {
  }

  /** Decoding goes from left to right: an escape of two digits of either case is that byte, a plus is a space, and any
      other character, a percent sign without two digits included, stands for itself. */
  lemma DecodeMeans(s: string)
    requires s != ""
    ensures |s| >= 3 && s[0] == '%' && HexValue(s[1]).Some? && HexValue(s[2]).Some? ==>
              PercentDecode(s) == [(16 * HexValue(s[1]).value + HexValue(s[2]).value) as char] + PercentDecode(s[3..])
    ensures s[0] == '+' ==> PercentDecode(s) == " " + PercentDecode(s[1..])
    ensures s[0] !in {'+', '%'} ==> PercentDecode(s) == [s[0]] + PercentDecode(s[1..])
    ensures s[0] == '%' && (|s| < 3 || HexValue(s[1]).None? || HexValue(s[2]).None?) ==>
              PercentDecode(s) == "%" + PercentDecode(s[1..])
  {
  }

  /** Another way to write a byte: in lower case, or, for a space, as a plus. */
  function LowerDigit(n: nat): (c: char)
    requires n < 16
  {
    "0123456789abcdef"[n]
  }

  lemma LowerDigitValue(n: nat)
    requires n < 16
    ensures HexValue(LowerDigit(n)) == Some(n)
  {
  }

  function LowerEncode(s: string): string
    requires Bytes(s)
  {
    if s == "" then ""
    else
      (if s[0] == ' ' then "+" else ['%', LowerDigit(s[0] as int / 16), LowerDigit(s[0] as int % 16)])
      + LowerEncode(s[1..])
  }

  lemma {:induction false} DecodeLower(s: string)
    requires Bytes(s)
    ensures PercentDecode(LowerEncode(s)) == s
  {
    if s != "" {
      DecodeLower(s[1..]);
      var head := if s[0] == ' ' then "+" else ['%', LowerDigit(s[0] as int / 16), LowerDigit(s[0] as int % 16)];
      assert (head + LowerEncode(s[1..]))[|head|..] == LowerEncode(s[1..]);
      assert s == [s[0]] + s[1..];
      if |head| == 3 {
        LowerDigitValue(s[0] as int / 16);
        LowerDigitValue(s[0] as int % 16);
        assert s[0] as int == s[0] as int / 16 * 16 + s[0] as int % 16;
      }
    }
  }

  predicate Unreserved(c: char) {
    'A' <= c <= 'Z' || 'a' <= c <= 'z' || '0' <= c <= '9' || c == '-' || c == '.' || c == '_' || c == '~'
  }

  function HexDigit(n: nat): (c: char)
    requires n < 16
    ensures HexValue(c) == Some(n)
  {
    if n < 10 then (n + '0' as int) as char else (n - 10 + 'A' as int) as char
  }

  predicate Bytes(s: string) {
    forall k :: 0 <= k < |s| ==> s[k] as int < 256
  }

  function EncodeByte(c: char): string
    requires c as int < 256
  {
    if Unreserved(c) then [c] else ['%', HexDigit(c as int / 16), HexDigit(c as int % 16)]
  }

  function PercentEncode(s: string): string
    requires Bytes(s)
  {
    if s == "" then "" else EncodeByte(s[0]) + PercentEncode(s[1..])
  }

  lemma {:induction false} DecodeEncode(s: string)
    requires Bytes(s)
    ensures PercentDecode(PercentEncode(s)) == s
  {
    if s != "" {
      var head, rest := EncodeByte(s[0]), PercentEncode(s[1..]);
      DecodeEncode(s[1..]);
      assert (head + rest)[|head|..] == rest;
      assert s == [s[0]] + s[1..];
      if |head| == 3 {
        assert s[0] as int == s[0] as int / 16 * 16 + s[0] as int % 16;
      }
    }
  }

  /** The byte that stands at an offset, and how many characters stand for it. */
  function Unit(s: string, r: nat): (char, nat)
    requires r < |s|
  {
    if s[r] == '%' && r + 2 < |s| && HexValue(s[r + 1]).Some? && HexValue(s[r + 2]).Some? then
      ((HexValue(s[r + 1]).value * 16 + HexValue(s[r + 2]).value) as char, 3)
    else (if s[r] == '+' then ' ' else s[r], 1)
  }

  /** The pure decoder from an offset on, as a loop over offsets sees it. */
  function DecodeFrom(s: string, r: nat): string
    decreases |s| - r
  {
    if r >= |s| then "" else [Unit(s, r).0] + DecodeFrom(s, r + Unit(s, r).1)
  }

  lemma {:induction false} DecodeFromIsDecode(s: string, r: nat)
    requires r <= |s|
    ensures DecodeFrom(s, r) == PercentDecode(s[r..])
    decreases |s| - r
  {
    if r < |s| {
      assert s[r..][1..] == s[r + 1..];
      assert r + 2 < |s| ==> s[r..][3..] == s[r + 3..];
      DecodeFromIsDecode(s, r + Unit(s, r).1);
    }
  }

  /** From the read position on, the buffer still holds what it held at first, and its terminator. */
  ghost predicate Unread(s: seq<char>, input: string, r: nat) {
    && r <= |input| < |s| && s[|input|] == '\0'
    && forall k :: r <= k < |input| ==> s[k] == input[k] != '\0'
  }

  /** One turn of the decoding loop: a unit is read at r and its byte written at w. */
  method Move(s: array<char>, r: nat, w: nat, ghost input: string) returns (n: nat)
    requires Unread(s[..], input, r) && w <= r < |input|
    modifies s
    ensures n == Unit(input, r).1 && r + n <= |input| && Unread(s[..], input, r + n)
    ensures s[..] == old(s[..])[w := Unit(input, r).0]
  {
    var c: char;
    if s[r] == '%' && s[r + 1] != '\0' && s[r + 2] != '\0' {
      var hi, lo := HexValue(s[r + 1]), HexValue(s[r + 2]);
      if hi.Some? && lo.Some? {
        c, n := (hi.value * 16 + lo.value) as char, 3;
      } else {
        c, n := s[r], 1;
      }
    } else if s[r] == '+' {
      c, n := ' ', 1;
    } else {
      c, n := s[r], 1;
    }
    s[w] := c;
  }

  lemma Appended(a: string, c: char, b: string)
    ensures (a + [c]) + b == a + ([c] + b)
  {
  }

  /** What is decoded so far with what the rest will decode to. */
  ghost function Whole(s: seq<char>, w: nat, input: string, r: nat): string
    requires w <= |s|
  {
    s[..w] + DecodeFrom(input, r)
  }

  method Turn(s: array<char>, r: nat, w: nat, ghost input: string) returns (n: nat)
    requires Unread(s[..], input, r) && w <= r < |input|
    modifies s
    ensures 0 < n && r + n <= |input| && Unread(s[..], input, r + n)
    ensures Whole(s[..], w + 1, input, r + n) == Whole(old(s[..]), w, input, r)
    ensures forall k :: r < k < s.Length ==> s[k] == old(s[k])
  {
    ghost var before := s[..];
    n := Move(s, r, w, input);
    assert s[..][..w + 1] == before[..w] + [Unit(input, r).0];
    Appended(before[..w], Unit(input, r).0, DecodeFrom(input, r + n));
    assert forall k :: r < k < s.Length ==> s[..][k] == before[k];
  }

  /** In place, with the write position never past the read position: what is still to be read is untouched, and the
      result is the pure decoder's. length is where the terminator stands. */
  method PercentDecodeInPlace(s: array<char>, ghost length: nat)
    requires length < s.Length && s[length] == '\0' && '\0' !in s[..length]
    modifies s
    ensures var t := PercentDecode(old(s[..length])); s[..|t|] == t && s[|t|] == '\0'
    ensures forall k :: length < k < s.Length ==> s[k] == old(s[k])
  {
    var r, w := 0, 0;
    ghost var input := s[..length];
    while s[r] != '\0'
      invariant w <= r <= length && Unread(s[..], input, r)
      invariant forall k :: length < k < s.Length ==> s[k] == old(s[k])
      invariant Whole(s[..], w, input, r) == DecodeFrom(input, 0)
      decreases length - r
    {
      var n := Turn(s, r, w, input);
      w, r := w + 1, r + n;
    }
    DecodeFromIsDecode(input, 0);
    assert input[0..] == input;
    s[w] := '\0';
  }

  // ----- Finding a parameter -----

  predicate Delimiter(c: char) {
    c == '?' || c == '&'
  }

  predicate EndsValue(c: char) {
    c == '\0' || c == '&' || c == ' ' || c == '\r' || c == '\n'
  }

  /** strstr, from an offset on. */
  predicate MatchAt(s: string, sub: string, k: nat) {
    k + |sub| <= |s| && forall i :: 0 <= i < |sub| ==> sub[i] == s[k + i]
  }

  function FindFrom(s: string, sub: string, from: nat): (r: Option<nat>)
    requires from <= |s|
    ensures r.Some? ==> from <= r.value && MatchAt(s, sub, r.value)
    decreases |s| - from
  {
    if MatchAt(s, sub, from) then Some(from)
    else if from == |s| then None
    else FindFrom(s, sub, from + 1)
  }

  function UpToEnd(s: string): string {
    if s == "" || EndsValue(s[0]) then "" else [s[0]] + UpToEnd(s[1..])
  }

  /** A value goes on up to an ampersand, a blank, the end of the line, or the end of the text. */
  lemma {:induction false} UpToEndMeans(s: string)
    ensures var r := UpToEnd(s);
            && r <= s && (forall k :: 0 <= k < |r| ==> r[k] !in {'\0', '&', ' ', '\r', '\n'})
            && (|r| < |s| ==> s[|r|] in {'\0', '&', ' ', '\r', '\n'})
  {
    if s != "" && !EndsValue(s[0]) {
      UpToEndMeans(s[1..]);
    }
  }

  predicate BeginsAt(url: string, k: nat)
    requires k <= |url|
  {
    k == 0 || Delimiter(url[k - 1])
  }

  /** A key: the name where the text begins or after a delimiter, and an equals sign after it. */
  predicate KeyAt(url: string, param: string, k: nat) {
    MatchAt(url, param, k) && BeginsAt(url, k) && k + |param| < |url| && url[k + |param|] == '='
  }

  /** A key is the name, at the beginning or after a question mark or an ampersand, and followed by an equals sign. */
  lemma KeyAtMeans(url: string, param: string, k: nat)
    ensures KeyAt(url, param, k) <==>
            k + |param| < |url| && url[k..k + |param|] == param && url[k + |param|] == '='
            && (k == 0 || url[k - 1] in {'?', '&'})
  {
    if k + |param| < |url| {
      var part := url[k..k + |param|];
      assert forall i :: 0 <= i < |param| ==> part[i] == url[k + i];
    }
  }

  /** The first key at or after an offset. */
  function FirstKey(url: string, param: string, from: nat): (r: Option<nat>)
    ensures r.Some? ==> from <= r.value && r.value + |param| < |url|
    decreases |url| - from
  {
    if from >= |url| then None
    else if KeyAt(url, param, from) then Some(from)
    else FirstKey(url, param, from + 1)
  }

  /** Where the search stands once it has rejected n matches, if it has not ended. */
  function After(url: string, param: string, n: nat): (r: Option<nat>)
    ensures r.Some? ==> MatchAt(url, param, r.value)
  {
    if n == 0 then FindFrom(url, param, 0)
    else
      match After(url, param, n - 1)
      case None => None
      case Some(k) => if KeyAt(url, param, k) then Some(k) else FindFrom(url, param, k + |param|)
  }

  predicate EndsAfter(url: string, param: string, n: nat) {
    var k := After(url, param, n);
    k.None? || KeyAt(url, param, k.value)
  }

  lemma {:induction false} SearchAdvances(url: string, param: string, n: nat)
    requires param != "" && !EndsAfter(url, param, n)
    ensures n <= After(url, param, n).value
  {
    if n > 0 {
      SearchAdvances(url, param, n - 1);
    }
  }

  lemma {:induction false} EmptyNameStays(url: string, n: nat)
    requires !KeyAt(url, "", 0)
    ensures After(url, "", n) == Some(0)
  {
    if n > 0 {
      EmptyNameStays(url, n - 1);
    }
  }

  /** Skipping a match skips nothing for the empty name: the search then ends only if the text begins with an equals
      sign. For all other names it ends. */
  lemma SearchEndsIff(url: string, param: string)
    ensures (exists n :: EndsAfter(url, param, n)) <==> param != "" || KeyAt(url, param, 0)
  {
    if param != "" {
      if !EndsAfter(url, param, |url|) {
        SearchAdvances(url, param, |url|);
        assert false;
      }
    } else if KeyAt(url, param, 0) {
      assert EndsAfter(url, param, 0);
    } else {
      forall n
        ensures !EndsAfter(url, param, n)
      {
        EmptyNameStays(url, n);
      }
    }
  }

  /** The search of the source: a match that is no key is skipped whole. */
  function Search(url: string, param: string, from: nat): (r: Option<nat>)
    requires from <= |url| && (param != "" || KeyAt(url, param, from))
    ensures r.Some? ==> from <= r.value && r.value + |param| < |url|
    decreases |url| - from
  {
    match FindFrom(url, param, from)
    case None => None
    case Some(k) => if KeyAt(url, param, k) then Some(k) else Search(url, param, k + |param|)
  }

  predicate NoKeys(url: string, param: string, a: nat, b: nat) {
    forall j :: a <= j < b ==> !KeyAt(url, param, j)
  }

  lemma {:induction false} NoKeyBetween(url: string, param: string, a: nat, b: nat)
    requires a <= b && NoKeys(url, param, a, b)
    ensures FirstKey(url, param, a) == FirstKey(url, param, b)
    decreases b - a
  {
    if a < b {
      NoKeyBetween(url, param, a + 1, b);
    }
  }

  lemma {:induction false} NoMatchBefore(url: string, param: string, from: nat)
    requires from <= |url|
    ensures var k := FindFrom(url, param, from);
            forall j :: from <= j < (if k.None? then |url| else k.value) ==> !MatchAt(url, param, j)
    decreases |url| - from
  {
    if from < |url| && !MatchAt(url, param, from) {
      NoMatchBefore(url, param, from + 1);
    }
  }

  predicate IsName(param: string) {
    forall k :: 0 <= k < |param| ==> !Delimiter(param[k])
  }

  /** Text without a delimiter holds no key but possibly at its start, and none just after it. */
  lemma NoKeyInside(url: string, param: string, k: nat, text: string, j: nat)
    requires MatchAt(url, text, k) && IsName(text) && k < j <= k + |text|
    ensures !KeyAt(url, param, j)
  {
    assert url[j - 1] == text[j - 1 - k];
  }

  lemma PassText(url: string, param: string, k: nat, text: string)
    requires MatchAt(url, text, k) && IsName(text) && !KeyAt(url, param, k)
    ensures NoKeys(url, param, k, k + |text|)
  {
    forall j | k <= j < k + |text|
      ensures !KeyAt(url, param, j)
    {
      if j > k {
        NoKeyInside(url, param, k, text, j);
      }
    }
  }

  /** From offset d on, right after a delimiter, the name begins again. */
  predicate Overlaps(param: string, d: nat) {
    0 < d < |param| && Delimiter(param[d - 1]) && param[d..] <= param
  }

  /** A key that begins inside a match of the name is an overlap of the name with itself. */
  lemma KeyInsideMatch(url: string, param: string, k: nat, j: nat)
    requires MatchAt(url, param, k) && k < j < k + |param| && KeyAt(url, param, j)
    ensures Overlaps(param, j - k)
  {
    var d := j - k;
    assert param[d - 1] == url[j - 1];
    forall i | 0 <= i < |param| - d
      ensures param[d..][i] == param[i]
    {
      assert param[d + i] == url[k + (d + i)] == url[j + i];
    }
    assert param[d..] == param[..|param| - d];
  }

  lemma MatchPassed(url: string, param: string, k: nat)
    requires MatchAt(url, param, k) && !KeyAt(url, param, k) && !exists d :: Overlaps(param, d)
    ensures NoKeys(url, param, k, k + |param|)
  {
    forall j | k <= j < k + |param|
      ensures !KeyAt(url, param, j)
    {
      if j > k && KeyAt(url, param, j) {
        KeyInsideMatch(url, param, k, j);
      }
    }
  }

  /** Skipping a rejected match whole misses nothing, for a name that does not overlap itself. */
  lemma {:induction false} SearchIsFirst(url: string, param: string, from: nat)
    requires param != "" && from <= |url| && !exists d :: Overlaps(param, d)
    ensures Search(url, param, from) == FirstKey(url, param, from)
    decreases |url| - from
  {
    NoMatchBefore(url, param, from);
    match FindFrom(url, param, from)
    case None =>
      NoKeyBetween(url, param, from, |url|);
    case Some(k) =>
      NoKeyBetween(url, param, from, k);
      if !KeyAt(url, param, k) {
        MatchPassed(url, param, k);
        NoKeyBetween(url, param, k, k + |param|);
        SearchIsFirst(url, param, k + |param|);
      }
  }

  function Other(c: char): char {
    if c == 'x' then 'y' else 'x'
  }

  /** The name, begun after text that makes the first copy no key, and complete from offset 1 + d on. */
  function Doubled(param: string, d: nat): string
    requires d <= |param| && param != ""
  {
    [Other(param[0])] + param[..d] + param + "="
  }

  lemma DoubledMatches(param: string, d: nat)
    requires Overlaps(param, d)
    ensures var url := Doubled(param, d);
            FindFrom(url, param, 0) == Some(1) && !KeyAt(url, param, 1) && KeyAt(url, param, 1 + d)
  {
    var url := Doubled(param, d);
    DoubledText(param, d);
    assert !MatchAt(url, param, 0);
    assert FindFrom(url, param, 0) == FindFrom(url, param, 1) == Some(1);
  }

  lemma DoubledText(param: string, d: nat)
    requires Overlaps(param, d)
    ensures var url := Doubled(param, d);
            && |url| == |param| + d + 2 && url[0] != param[0] && !Delimiter(url[0])
            && MatchAt(url, param, 1) && MatchAt(url, param, 1 + d)
            && url[d] == param[d - 1] && url[1 + d + |param|] == '='
  {
    var url := Doubled(param, d);
    forall i | 0 <= i < |param|
      ensures param[i] == url[1 + i]
    {
      if i >= d {
        assert param[i] == param[d..][i - d] == param[i - d];
      }
    }
  }

  lemma MatchSkipped(url: string, param: string, k: nat)
    requires param != "" && FindFrom(url, param, 0) == Some(k) && !KeyAt(url, param, k)
    ensures Search(url, param, 0).Some? ==> k + |param| <= Search(url, param, 0).value
  {
  }

  /** For a name that overlaps itself there is a URL in which its first key is missed. */
  lemma KeyIsMissed(param: string, d: nat) returns (url: string)
    requires Overlaps(param, d)
    ensures Search(url, param, 0) != FirstKey(url, param, 0)
    ensures '\0' !in param ==> '\0' !in url
  {
    url := Doubled(param, d);
    DoubledMatches(param, d);
    FirstIsAtMost(url, param, 0, 1 + d);
    MatchSkipped(url, param, 1);
  }

  lemma {:induction false} FirstIsAtMost(url: string, param: string, from: nat, j: nat)
    requires from <= j && KeyAt(url, param, j)
    ensures FirstKey(url, param, from).Some? && FirstKey(url, param, from).value <= j
    decreases j - from
  {
    if from < j && !KeyAt(url, param, from) {
      FirstIsAtMost(url, param, from + 1, j);
    }
  }

  /** The search finds the first key in every URL exactly for the names that do not overlap themselves. Neither holds
      a NUL. */
  lemma SearchIsFirstIff(param: string)
    requires param != "" && '\0' !in param
    ensures (forall url :: '\0' !in url ==> Search(url, param, 0) == FirstKey(url, param, 0))
            <==> !exists d :: Overlaps(param, d)
  {
    if d :| Overlaps(param, d) {
      var url := KeyIsMissed(param, d);
      assert Search(url, param, 0) != FirstKey(url, param, 0);
    } else {
      forall url
        ensures Search(url, param, 0) == FirstKey(url, param, 0)
      {
        SearchIsFirst(url, param, 0);
      }
    }
  }

  /** One such name and URL: the skip jumps over the key. */
  lemma SearchMissesKey()
    ensures var url, param := "xa&a&a=1", "a&a";
            FirstKey(url, param, 0) == Some(3) && Search(url, param, 0) == None
  {
    var url, param := "xa&a&a=1", "a&a";
    assert !KeyAt(url, param, 0) && !KeyAt(url, param, 1) && !KeyAt(url, param, 2) && KeyAt(url, param, 3);
    NoKeyBetween(url, param, 0, 3);
    assert url[0] != param[0] && FindFrom(url, param, 0) == Some(1);
    assert url[4] != param[0] && url[5 + 1] != param[1] && url[6] != param[0];
    assert FindFrom(url, param, 6) == None;
    assert FindFrom(url, param, 4) == None;
  }

  /** A name without delimiters, as all callers use, does not. */
  lemma NameHasNoOverlap(param: string)
    requires IsName(param)
    ensures !exists d :: Overlaps(param, d)
  {
  }

  /** What a call gives: the decoded value of the first key, if its encoded form fits. */
  function Extract(url: string, param: string, outLen: nat): Option<string>
    requires outLen > 0 ==> param != "" || KeyAt(url, param, 0)
  {
    if outLen == 0 then None
    else
      match Search(url, param, 0)
      case None => None
      case Some(k) =>
        var raw := UpToEnd(url[k + |param| + 1..]);
        if |raw| + 1 > outLen then None else Some(PercentDecode(raw))
  }

  /** The search loop. */
  method FindKey(url: string, param: string) returns (key: Option<nat>)
    requires param != "" || KeyAt(url, param, 0)
    ensures key == Search(url, param, 0)
  {
    var search := FindFrom(url, param, 0);
    SearchFromFound(url, param, 0);
    while search.Some?
      invariant search.Some? ==> MatchAt(url, param, search.value)
      invariant param == "" ==> search.Some? && KeyAt(url, param, search.value)
      invariant Search(url, param, 0) == Resume(url, param, search)
      decreases if search.None? then 0 else |url| + 1 - search.value
    {
      var k := search.value;
      SearchStep(url, param, k);
      if k > 0 && url[k - 1] != '?' && url[k - 1] != '&' {
        search := FindFrom(url, param, k + |param|);
        continue;
      }
      if k + |param| >= |url| || url[k + |param|] != '=' {
        search := FindFrom(url, param, k + |param|);
        continue;
      }
      return Some(k);
    }
    return None;
  }

  function Resume(url: string, param: string, k: Option<nat>): Option<nat>
    requires k.Some? ==> k.value <= |url| && (param != "" || KeyAt(url, param, k.value))
  {
    if k.None? then None else Search(url, param, k.value)
  }

  lemma SearchFromFound(url: string, param: string, from: nat)
    requires from <= |url| && (param != "" || KeyAt(url, param, from))
    ensures Search(url, param, from) == Resume(url, param, FindFrom(url, param, from))
  {
  }

  lemma SearchStep(url: string, param: string, k: nat)
    requires MatchAt(url, param, k) && (param != "" || KeyAt(url, param, k))
    ensures Search(url, param, k)
            == if KeyAt(url, param, k) then Some(k) else Resume(url, param, FindFrom(url, param, k + |param|))
  {
    if !KeyAt(url, param, k) {
      SearchFromFound(url, param, k + |param|);
    }
  }

  function ValueEnd(url: string, k: nat): nat
    decreases |url| - k
  {
    if k >= |url| || EndsValue(url[k]) then k else ValueEnd(url, k + 1)
  }

  lemma {:induction false} ValueEndIsUpToEnd(url: string, k: nat)
    requires k <= |url|
    ensures k <= ValueEnd(url, k) <= |url| && url[k..ValueEnd(url, k)] == UpToEnd(url[k..])
    decreases |url| - k
  {
    if k < |url| && !EndsValue(url[k]) {
      ValueEndIsUpToEnd(url, k + 1);
      assert url[k..][1..] == url[k + 1..];
    }
  }

  method EndOfValue(url: string, start: nat) returns (end: nat)
    requires start <= |url|
    ensures start <= end <= |url| && url[start..end] == UpToEnd(url[start..])
  {
    end := start;
    while end < |url| && !EndsValue(url[end])
      invariant start <= end <= |url| && ValueEnd(url, end) == ValueEnd(url, start)
    {
      end := end + 1;
    }
    ValueEndIsUpToEnd(url, start);
  }

  /** The value that starts at an offset, decoded, if its raw form and the terminator fit. */
  method CopyValue(url: string, start: nat, out: array<char>) returns (rc: int)
    requires start <= |url| && '\0' !in url
    modifies out
    ensures var raw := UpToEnd(url[start..]);
            if |raw| + 1 > out.Length then rc == -1 && out[..] == old(out[..])
            else
              var t := PercentDecode(raw);
              rc == 0 && out[..|t|] == t && out[|t|] == '\0'
  {
    var end := EndOfValue(url, start);
    var length := end - start;
    if length + 1 > out.Length {
      return -1;
    }
    forall i | 0 <= i < length {
      out[i] := url[start + i];
    }
    out[length] := '\0';
    assert out[..length] == url[start..end];
    PercentDecodeInPlace(out, length);
    return 0;
  }

  /** extract_query_param on a request without NUL, where its search ends. */
  method ExtractQueryParam(url: string, param: string, out: array<char>) returns (rc: int)
    requires '\0' !in url && (out.Length > 0 ==> param != "" || KeyAt(url, param, 0))
    modifies out
    ensures var r := Extract(url, param, out.Length);
            if r.None? then rc == -1 && out[..] == old(out[..])
            else rc == 0 && out[..|r.value|] == r.value && out[|r.value|] == '\0'
  {
    if out.Length == 0 {
      return -1;
    }
    var key := FindKey(url, param);
    if key.None? {
      return -1;
    }
    rc := CopyValue(url, key.value + |param| + 1, out);
  }

  // ----- A query that a server builds -----

  datatype Pair = Pair(name: string, value: string)

  /** The query of pairs whose values are already encoded. */
  function Query(pairs: seq<Pair>): string {
    if pairs == [] then ""
    else pairs[0].name + "=" + pairs[0].value + (if |pairs| == 1 then "" else "&" + Query(pairs[1..]))
  }

  function Lookup(pairs: seq<Pair>, param: string): Option<string> {
    if pairs == [] then None
    else if pairs[0].name == param then Some(pairs[0].value)
    else Lookup(pairs[1..], param)
  }

  predicate Plain(s: string) {
    s == "" || (Unreserved(s[0]) && Plain(s[1..]))
  }

  predicate PlainName(name: string) {
    name != "" && Plain(name)
  }

  lemma {:induction false} PlainAt(s: string, i: nat)
    requires Plain(s) && i < |s|
    ensures Unreserved(s[i])
  {
    if i > 0 {
      PlainAt(s[1..], i - 1);
    }
  }

  lemma PlainIsName(s: string)
    requires Plain(s)
    ensures IsName(s)
  {
    forall k | 0 <= k < |s|
      ensures !Delimiter(s[k])
    {
      PlainAt(s, k);
    }
  }

  predicate Escaped(s: string) {
    s == "" || ((Unreserved(s[0]) || s[0] == '%') && Escaped(s[1..]))
  }

  lemma {:induction false} EscapedAt(s: string, i: nat)
    requires Escaped(s) && i < |s|
    ensures Unreserved(s[i]) || s[i] == '%'
  {
    if i > 0 {
      EscapedAt(s[1..], i - 1);
    }
  }

  lemma {:induction false} EncodeEscapes(s: string)
    requires Bytes(s)
    ensures Escaped(PercentEncode(s))
  {
    if s != "" {
      EncodeEscapes(s[1..]);
      var head, rest := EncodeByte(s[0]), PercentEncode(s[1..]);
      assert (head + rest)[1..] == head[1..] + rest;
      if |head| == 3 {
        assert (head[1..] + rest)[1..] == head[2..] + rest;
        assert (head[2..] + rest)[1..] == rest;
      } else {
        assert head[1..] + rest == rest;
      }
    }
  }

  lemma {:induction false} UpToEndOfEscaped(s: string, rest: string)
    requires Escaped(s) && (rest == "" || EndsValue(rest[0]))
    ensures UpToEnd(s + rest) == s
  {
    if s == "" {
      assert s + rest == rest;
    } else {
      assert (s + rest)[1..] == s[1..] + rest;
      UpToEndOfEscaped(s[1..], rest);
    }
  }

  predicate Written(pairs: seq<Pair>) {
    forall k :: 0 <= k < |pairs| ==> PlainName(pairs[k].name) && Escaped(pairs[k].value)
  }

  /** Text that ends a value and starts no key. */
  predicate Follows(after: string) {
    after == "" || (EndsValue(after[0]) && !Delimiter(after[0]))
  }

  /** At a key of the query: either it is the name looked for, or it does not match at all. */
  lemma KeyMatches(url: string, k: nat, name: string, param: string)
    requires PlainName(name) && PlainName(param) && k <= |url| && BeginsAt(url, k)
    requires MatchAt(url, name + "=", k)
    ensures KeyAt(url, param, k) <==> name == param
  {
    assert url[k + |name|] == (name + "=")[|name|] == '=';
    assert forall i :: 0 <= i < |name| ==> name[i] == (name + "=")[i];
    if |param| < |name| {
      PlainAt(name, |param|);
    } else if |name| < |param| {
      PlainAt(param, |name|);
    } else if KeyAt(url, param, k) {
      assert forall i :: 0 <= i < |name| ==> name[i] == param[i];
    }
  }

  lemma PrefixMatches(url: string, k: nat, text: string, more: string)
    requires k <= |url| && url[k..] == text + more
    ensures MatchAt(url, text, k) && k + |text| <= |url| && url[k + |text|..] == more
  {
    forall i | 0 <= i < |text|
      ensures text[i] == url[k + i]
    {
      assert url[k + i] == url[k..][i];
    }
    assert url[k + |text|..] == url[k..][|text|..];
  }

  lemma PairMatches(url: string, k: nat, p: Pair, more: string)
    requires k <= |url| && url[k..] == p.name + "=" + p.value + more
    ensures MatchAt(url, p.name + "=", k) && MatchAt(url, p.name + "=" + p.value, k)
    ensures k + |p.name| + 1 <= |url| && url[k + |p.name| + 1..] == p.value + more
  {
    PrefixMatches(url, k, p.name + "=" + p.value, more);
    assert p.name + "=" + p.value + more == p.name + "=" + (p.value + more);
    PrefixMatches(url, k, p.name + "=", p.value + more);
  }

  lemma PairIsKey(url: string, k: nat, p: Pair, more: string)
    requires PlainName(p.name) && Escaped(p.value) && (more == "" || EndsValue(more[0]))
    requires k <= |url| && BeginsAt(url, k) && url[k..] == p.name + "=" + p.value + more
    ensures KeyAt(url, p.name, k)
    ensures UpToEnd(url[k + |p.name| + 1..]) == p.value
  {
    PairMatches(url, k, p, more);
    KeyMatches(url, k, p.name, p.name);
    UpToEndOfEscaped(p.value, more);
  }

  lemma PairText(p: Pair)
    requires PlainName(p.name) && Escaped(p.value)
    ensures IsName(p.name + "=" + p.value)
  {
    var text := p.name + "=" + p.value;
    forall i | 0 <= i < |text|
      ensures !Delimiter(text[i])
    {
      if i < |p.name| {
        PlainAt(p.name, i);
      } else if i > |p.name| {
        EscapedAt(p.value, i - |p.name| - 1);
      }
    }
  }

  lemma PairPassed(url: string, k: nat, p: Pair, more: string, param: string)
    requires PlainName(p.name) && PlainName(param) && Escaped(p.value) && p.name != param
    requires k <= |url| && BeginsAt(url, k) && url[k..] == p.name + "=" + p.value + more
    ensures NoKeys(url, param, k, PairEnd(k, p))
  {
    PairMatches(url, k, p, more);
    KeyMatches(url, k, p.name, param);
    PairText(p);
    PassText(url, param, k, p.name + "=" + p.value);
  }

  lemma AmpersandIsNoKey(url: string, k: nat, param: string)
    requires PlainName(param) && k < |url| && Delimiter(url[k])
    ensures !KeyAt(url, param, k)
  {
    PlainAt(param, 0);
  }

  lemma NextPair(url: string, k: nat, pairs: seq<Pair>, after: string)
    requires |pairs| > 1 && k <= |url| && url[k..] == Query(pairs) + after
    ensures var next := k + |pairs[0].name| + 1 + |pairs[0].value|;
            next < |url| && url[next] == '&' && url[next + 1..] == Query(pairs[1..]) + after
  {
    var text, more := pairs[0].name + "=" + pairs[0].value, Query(pairs[1..]) + after;
    assert Query(pairs) + after == text + ("&" + more);
    PrefixMatches(url, k, text, "&" + more);
    var next := k + |text|;
    assert url[next] == url[next..][0] == '&';
    assert url[next + 1..] == url[next..][1..] == more;
  }

  function AfterHead(pairs: seq<Pair>, after: string): string
    requires pairs != []
  {
    (if |pairs| == 1 then "" else "&" + Query(pairs[1..])) + after
  }

  lemma QueryHead(pairs: seq<Pair>, after: string)
    requires pairs != [] && Follows(after)
    ensures var p, more := pairs[0], AfterHead(pairs, after);
            Query(pairs) + after == p.name + "=" + p.value + more && (more == "" || EndsValue(more[0]))
  {
    var p, more := pairs[0], AfterHead(pairs, after);
    var tail := if |pairs| == 1 then "" else "&" + Query(pairs[1..]);
    assert p.name + "=" + p.value + tail + after == p.name + "=" + p.value + (tail + after);
  }

  /** There is a key at an offset, and that text is its raw value. */
  predicate HasValue(url: string, param: string, key: nat, raw: string) {
    KeyAt(url, param, key) && UpToEnd(url[key + |param| + 1..]) == raw
  }

  /** A query, and what follows it, starts at k. */
  predicate QueryAt(url: string, k: nat, pairs: seq<Pair>, after: string) {
    k <= |url| && BeginsAt(url, k) && url[k..] == Query(pairs) + after
  }

  function PairEnd(k: nat, p: Pair): nat {
    k + |p.name| + 1 + |p.value|
  }

  lemma OtherPairSkipped(url: string, k: nat, pairs: seq<Pair>, after: string, param: string)
    requires Written(pairs) && PlainName(param) && Follows(after) && QueryAt(url, k, pairs, after)
    requires |pairs| > 1 && pairs[0].name != param
    ensures QueryAt(url, PairEnd(k, pairs[0]) + 1, pairs[1..], after)
    ensures NoKeys(url, param, k, PairEnd(k, pairs[0]) + 1)
  {
    QueryHead(pairs, after);
    PairPassed(url, k, pairs[0], AfterHead(pairs, after), param);
    NextPair(url, k, pairs, after);
    AmpersandIsNoKey(url, PairEnd(k, pairs[0]), param);
  }

  lemma ThisPairFound(url: string, k: nat, pairs: seq<Pair>, after: string)
    requires Written(pairs) && Follows(after) && QueryAt(url, k, pairs, after) && pairs != []
    ensures HasValue(url, pairs[0].name, k, pairs[0].value)
  {
    QueryHead(pairs, after);
    PairIsKey(url, k, pairs[0], AfterHead(pairs, after));
  }

  /** From the start of a query on, the first key of that name is found, and its encoded value stands after it. */
  lemma {:induction false} QueryFound(url: string, k: nat, pairs: seq<Pair>, after: string, param: string)
    returns (key: nat)
    requires Written(pairs) && PlainName(param) && Follows(after) && QueryAt(url, k, pairs, after)
    requires Lookup(pairs, param).Some?
    ensures k <= key && NoKeys(url, param, k, key) && HasValue(url, param, key, Lookup(pairs, param).value)
    decreases |pairs|
  {
    if pairs[0].name == param {
      ThisPairFound(url, k, pairs, after);
      key := k;
    } else {
      OtherPairSkipped(url, k, pairs, after, param);
      key := QueryFound(url, PairEnd(k, pairs[0]) + 1, pairs[1..], after, param);
    }
  }

  /** The request line up to the query: its own text has no delimiter and no equals sign. */
  predicate Target(before: string) {
    before != "" && IsName(before) && '=' !in before
  }

  lemma TargetPassed(url: string, before: string, param: string)
    requires Target(before) && PlainName(param) && before + "?" <= url
    ensures NoKeys(url, param, 0, |before| + 1)
  {
    assert url[|before|] == (before + "?")[|before|] == '?';
    assert forall i :: 0 <= i < |before| ==> before[i] == (before + "?")[i] == url[i];
    if |param| > |before| {
      PlainAt(param, |before|);
    } else if |param| < |before| {
      assert url[|param|] == before[|param|] != '=';
    }
    PassText(url, param, 0, before);
    AmpersandIsNoKey(url, |before|, param);
  }

  /** A request made of a target, a query and what follows it. */
  predicate Request(url: string, before: string, pairs: seq<Pair>, after: string) {
    url == before + "?" + Query(pairs) + after
  }

  lemma RequestQuery(url: string, before: string, pairs: seq<Pair>, after: string)
    requires Request(url, before, pairs, after)
    ensures before + "?" <= url && QueryAt(url, |before| + 1, pairs, after)
  {
    var k := |before| + 1;
    assert url[..k] == before + "?" && url[k..] == Query(pairs) + after;
    assert url[k - 1] == url[..k][k - 1] == '?';
  }

  lemma FirstIs(url: string, param: string, start: nat, key: nat)
    requires param != "" && Plain(param) && NoKeys(url, param, 0, start) && NoKeys(url, param, start, key)
    requires KeyAt(url, param, key)
    ensures Search(url, param, 0) == Some(key)
  {
    NoKeyBetween(url, param, 0, key);
    PlainIsName(param);
    NameHasNoOverlap(param);
    SearchIsFirst(url, param, 0);
  }

  /** In a request with written pairs, the first key of a name is found. */
  lemma FoundInRequest(url: string, before: string, pairs: seq<Pair>, after: string, param: string)
    returns (key: nat)
    requires Request(url, before, pairs, after)
    requires Target(before) && Written(pairs) && PlainName(param) && Follows(after)
    requires Lookup(pairs, param).Some?
    ensures Search(url, param, 0) == Some(key) && HasValue(url, param, key, Lookup(pairs, param).value)
  {
    RequestQuery(url, before, pairs, after);
    TargetPassed(url, before, param);
    key := QueryFound(url, |before| + 1, pairs, after, param);
    FirstIs(url, param, |before| + 1, key);
  }

  predicate Sendable(pairs: seq<Pair>) {
    forall k :: 0 <= k < |pairs| ==> PlainName(pairs[k].name) && Bytes(pairs[k].value)
  }

  function Encoded(pairs: seq<Pair>): (e: seq<Pair>)
    requires Sendable(pairs)
    ensures |e| == |pairs|
    ensures forall k :: 0 <= k < |pairs| ==> e[k] == Pair(pairs[k].name, PercentEncode(pairs[k].value))
  {
    if pairs == [] then [] else [Pair(pairs[0].name, PercentEncode(pairs[0].value))] + Encoded(pairs[1..])
  }

  lemma EncodedIsWritten(pairs: seq<Pair>)
    requires Sendable(pairs)
    ensures Written(Encoded(pairs))
  {
    forall k | 0 <= k < |pairs|
      ensures Escaped(Encoded(pairs)[k].value)
    {
      EncodeEscapes(pairs[k].value);
    }
  }

  lemma {:induction false} LookupEncoded(pairs: seq<Pair>, param: string)
    requires Sendable(pairs)
    ensures Lookup(pairs, param).Some? ==> Bytes(Lookup(pairs, param).value)
    ensures Lookup(Encoded(pairs), param)
            == if Lookup(pairs, param).None? then None else Some(PercentEncode(Lookup(pairs, param).value))
    decreases |pairs|
  {
    if pairs != [] {
      LookupEncoded(pairs[1..], param);
      assert Encoded(pairs)[1..] == Encoded(pairs[1..]);
    }
  }

  lemma ExtractAt(url: string, param: string, key: nat, raw: string, outLen: nat)
    requires param != "" && Search(url, param, 0) == Some(key) && HasValue(url, param, key, raw)
    ensures Extract(url, param, outLen) == if |raw| + 1 <= outLen then Some(PercentDecode(raw)) else None
  {
  }

  lemma ExtractFound(url: string, param: string, key: nat, v: string, outLen: nat)
    requires param != "" && Bytes(v) && Search(url, param, 0) == Some(key)
    requires HasValue(url, param, key, PercentEncode(v))
    ensures Extract(url, param, outLen) == if |PercentEncode(v)| + 1 <= outLen then Some(v) else None
  {
    ExtractAt(url, param, key, PercentEncode(v), outLen);
    DecodeEncode(v);
  }

  /** For a request built from a target, percent-encoded pairs and what follows them: a parameter that is there comes
      back as its first value, exactly when the encoded form fits in the buffer. */
  lemma ValueComesBack(url: string, before: string, pairs: seq<Pair>, after: string, param: string, outLen: nat)
    requires Sendable(pairs) && Request(url, before, Encoded(pairs), after)
    requires Target(before) && PlainName(param) && Follows(after) && Lookup(pairs, param).Some?
    ensures var v := Lookup(pairs, param).value;
            && Bytes(v)
            && Extract(url, param, outLen) == if |PercentEncode(v)| + 1 <= outLen then Some(v) else None
  {
    EncodedIsWritten(pairs);
    LookupEncoded(pairs, param);
    var key := FoundInRequest(url, before, Encoded(pairs), after, param);
    ExtractFound(url, param, key, Lookup(pairs, param).value, outLen);
  }

  /** A space with its terminator fits in two bytes; its encoded form does not, and is refused. */
  lemma ShortValueRefused()
    ensures PercentEncode(" ") == "%20"
    ensures Extract("/?a=%20 ", "a", 2) == None && Extract("/?a=%20 ", "a", 4) == Some(" ")
  {
    var pairs := [Pair("a", " ")];
    assert PercentEncode(" "[1..]) == "";
    assert PercentEncode(" ") == "%20";
    assert Encoded(pairs[1..]) == [];
    assert Encoded(pairs) == [Pair("a", "%20")];
    assert Query(Encoded(pairs)) == "a=%20";
    assert "/" + "?" + "a=%20" + " " == "/?a=%20 ";
    assert Plain("a") by {
      assert "a"[1..] == "";
    }
    ValueComesBack("/?a=%20 ", "/", pairs, " ", "a", 2);
    ValueComesBack("/?a=%20 ", "/", pairs, " ", "a", 4);
  }
}
