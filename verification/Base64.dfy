/** Base64 and its URL form (lib/db/oauth2_store.c, lib/auth/jwt_decode.c), after sections 4 and 5 of RFC 4648. */
module Base64 {
  import opened Wrappers

  type Byte = b: int | 0 <= b < 256

  function Symbol(n: nat): (c: char)
    requires n < 64
  {
    if n < 26 then ('A' as int + n) as char
    else if n < 52 then ('a' as int + (n - 26)) as char
    else if n < 62 then ('0' as int + (n - 52)) as char
    else if n == 62 then '+' else '/'
  }

  /** The alphabet of section 4: the letters, the digits, and two more symbols. */
  lemma SymbolIsListed(n: nat)
    ensures n < 26 ==> Symbol(n) == "ABCDEFGHIJKLMNOPQRSTUVWXYZ"[n]
    ensures n < 26 ==> Symbol(26 + n) == "abcdefghijklmnopqrstuvwxyz"[n]
    ensures n < 10 ==> Symbol(52 + n) == "0123456789"[n]
    ensures Symbol(62) == '+' && Symbol(63) == '/'
  {
    UpperIsListed(n);
    LowerIsListed(n);
  }

  lemma UpperIsListed(n: nat)
    ensures n < 26 ==> Symbol(n) == "ABCDEFGHIJKLMNOPQRSTUVWXYZ"[n]
  {
    var s := "ABCDEFGHIJKLMNOPQRSTUVWXYZ";
    assert forall k :: 0 <= k < 26 ==> s[k] as int == 65 + k;
  }

  lemma LowerIsListed(n: nat)
    ensures n < 26 ==> Symbol(26 + n) == "abcdefghijklmnopqrstuvwxyz"[n]
  {
    var s := "abcdefghijklmnopqrstuvwxyz";
    assert forall k :: 0 <= k < 26 ==> s[k] as int == 97 + k;
  }

  function Value(c: char): Option<nat> {
    if 'A' <= c <= 'Z' then Some(c as int - 'A' as int)
    else if 'a' <= c <= 'z' then Some(c as int - 'a' as int + 26)
    else if '0' <= c <= '9' then Some(c as int - '0' as int + 52)
    else if c == '+' then Some(62)
    else if c == '/' then Some(63) else None
  }

  lemma ValueOfSymbol(n: nat)
    requires n < 64
    ensures Value(Symbol(n)) == Some(n) && Symbol(n) != '=' && Symbol(n) != '-' && Symbol(n) != '_'
    ensures Symbol(n) != '.' && Symbol(n) != '\0'
  {
  }

  /** The sextets of up to three bytes, the last one filled up with zero bits. */
  function Sextets(b: seq<Byte>): (s: seq<nat>)
    requires 1 <= |b| <= 3
    ensures |s| == |b| + 1 && forall k :: 0 <= k < |s| ==> s[k] < 64
  {
    if |b| == 1 then [b[0] / 4, b[0] % 4 * 16]
    else if |b| == 2 then [b[0] / 4, b[0] % 4 * 16 + b[1] / 16, b[1] % 16 * 4]
    else [b[0] / 4, b[0] % 4 * 16 + b[1] / 16, b[1] % 16 * 4 + b[2] / 64, b[2] % 64]
  }

  function Bytes(s: seq<nat>): (b: seq<Byte>)
    requires 2 <= |s| <= 4 && forall k :: 0 <= k < |s| ==> s[k] < 64
  {
    [s[0] * 4 + s[1] / 16]
    + (if |s| > 2 then [s[1] % 16 * 16 + s[2] / 4] else [])
    + (if |s| > 3 then [s[2] % 4 * 64 + s[3]] else [])
  }

  lemma TopJoins(x: Byte, y: nat)
    requires y < 16
    ensures x / 4 * 4 + (x % 4 * 16 + y) / 16 == x
  {
    assert (x % 4 * 16 + y) / 16 == x % 4;
  }

  lemma MiddleJoins(z: nat, x: Byte, y: nat)
    requires z < 4 && y < 4
    ensures (z * 16 + x / 16) % 16 * 16 + (x % 16 * 4 + y) / 4 == x
  {
    assert (z * 16 + x / 16) % 16 == x / 16;
    assert (x % 16 * 4 + y) / 4 == x % 16;
  }

  lemma LowJoins(z: nat, x: Byte)
    requires z < 16
    ensures (z * 4 + x / 64) % 4 * 64 + x % 64 == x
  {
    assert (z * 4 + x / 64) % 4 == x / 64;
  }

  lemma BytesOfSextets(b: seq<Byte>)
    requires 1 <= |b| <= 3
    ensures Bytes(Sextets(b)) == b
  {
    TopJoins(b[0], if |b| > 1 then b[1] / 16 else 0);
    if |b| > 1 {
      MiddleJoins(b[0] % 4, b[1], if |b| > 2 then b[2] / 64 else 0);
    }
    if |b| > 2 {
      LowJoins(b[1] % 16, b[2]);
    }
  }

  function Symbols(s: seq<nat>): (t: string)
    requires forall k :: 0 <= k < |s| ==> s[k] < 64
    ensures |t| == |s|
  {
    seq(|s|, k requires 0 <= k < |s| => Symbol(s[k]))
  }

  /** Base64 with padding (section 4). */
  function Encode(b: seq<Byte>): (s: string)
    ensures |s| == (|b| + 2) / 3 * 4
  {
    if b == [] then ""
    else if |b| == 1 then Symbols(Sextets(b)) + "=="
    else if |b| == 2 then Symbols(Sextets(b)) + "="
    else Symbols(Sextets(b[..3])) + Encode(b[3..])
  }

  /** base64url without padding (section 5). */
  function UrlSymbol(c: char): char {
    if c == '+' then '-' else if c == '/' then '_' else c
  }

  function ToUrl(s: string): (t: string)
    ensures |t| == |s|
  {
    seq(|s|, k requires 0 <= k < |s| => UrlSymbol(s[k]))
  }

  function UrlEncode(b: seq<Byte>): (s: string)
    ensures |s| == |b| / 3 * 4 + (if |b| % 3 == 0 then 0 else |b| % 3 + 1)
  {
    if b == [] then ""
    else if |b| <= 3 then ToUrl(Symbols(Sextets(b)))
    else ToUrl(Symbols(Sextets(b[..3]))) + UrlEncode(b[3..])
  }

  /** The alphabet of section 5 differs in its last two symbols. */
  lemma UrlSymbolIsListed(n: nat)
    requires n < 64
    ensures UrlSymbol(Symbol(n)) == if n == 62 then '-' else if n == 63 then '_' else Symbol(n)
  {
  }

  /** Three of the vectors of section 10, and one whose URL form differs. */
  lemma VectorF()
    ensures Encode([102]) == "Zg==" && UrlEncode([102]) == "Zg"
  {
    assert Sextets([102]) == [25, 32];
    assert Symbols([25, 32]) == "Zg";
  }

  lemma VectorFo()
    ensures Encode([102, 111]) == "Zm8=" && UrlEncode([102, 111]) == "Zm8"
  {
    assert Sextets([102, 111]) == [25, 38, 60];
    assert Symbols([25, 38, 60]) == "Zm8";
  }

  lemma VectorFoo()
    ensures Encode([102, 111, 111]) == "Zm9v" && UrlEncode([102, 111, 111]) == "Zm9v"
  {
    var b: seq<Byte> := [102, 111, 111];
    assert b[..3] == b && b[3..] == [] && Encode([]) == "";
    assert Sextets(b) == [25, 38, 61, 47];
    assert Symbols([25, 38, 61, 47]) == "Zm9v";
  }

  lemma VectorUrl()
    ensures Encode([251, 255]) == "+/8=" && UrlEncode([251, 255]) == "-_8"
  {
    assert Sextets([251, 255]) == [62, 63, 60];
    assert Symbols([62, 63, 60]) == "+/8";
    assert ToUrl("+/8") == "-_8";
  }

  function Values(s: string): Option<seq<nat>> {
    if s == "" then Some([])
    else
      match Value(s[0])
      case None => None
      case Some(v) => if Values(s[1..]).None? then None else Some([v] + Values(s[1..]).value)
  }

  /** Decoding of padded base64: whole groups, padding in the last one only. */
  function Decode(s: string): Option<seq<Byte>> {
    if s == "" then Some([])
    else if |s| < 4 then None
    else if |s| == 4 && s[3] == '=' then
      DecodeGroup(if s[2] == '=' then s[..2] else s[..3])
    else
      var first, rest := DecodeGroup(s[..4]), Decode(s[4..]);
      if first.None? || rest.None? then None else Some(first.value + rest.value)
  }

  function DecodeGroup(s: string): Option<seq<Byte>>
    requires 2 <= |s| <= 4
  {
    ValuesBelow64(s);
    if Values(s).None? then None else Some(Bytes(Values(s).value))
  }

  lemma {:induction false} ValuesBelow64(s: string)
    ensures Values(s).Some? ==>
              |Values(s).value| == |s| && forall k :: 0 <= k < |s| ==> Values(s).value[k] < 64
  {
    if s != "" {
      ValuesBelow64(s[1..]);
    }
  }

  lemma {:induction false} ValuesOfSymbols(s: seq<nat>)
    requires forall k :: 0 <= k < |s| ==> s[k] < 64
    ensures Values(Symbols(s)) == Some(s)
  {
    if s != [] {
      ValueOfSymbol(s[0]);
      ValuesOfSymbols(s[1..]);
      assert Symbols(s)[1..] == Symbols(s[1..]);
      assert Symbols(s)[0] == Symbol(s[0]) && [s[0]] + s[1..] == s;
    }
  }

  lemma GroupDecodes(b: seq<Byte>)
    requires 1 <= |b| <= 3
    ensures DecodeGroup(Symbols(Sextets(b))) == Some(b)
    ensures '=' !in Symbols(Sextets(b))
  {
    var s := Sextets(b);
    ValuesOfSymbols(s);
    BytesOfSextets(b);
    forall k | 0 <= k < |s|
      ensures Symbols(s)[k] != '='
    {
      ValueOfSymbol(s[k]);
    }
  }

  lemma {:induction false} DecodeEncode(b: seq<Byte>)
    ensures Decode(Encode(b)) == Some(b)
  {
    var s := Encode(b);
    if b == [] {
    } else if |b| <= 2 {
      GroupDecodes(b);
      assert s[..|b| + 1] == Symbols(Sextets(b));
      assert |b| == 2 ==> s[2] == Symbols(Sextets(b))[2];
    } else {
      GroupDecodes(b[..3]);
      DecodeEncode(b[3..]);
      assert s[..4] == Symbols(Sextets(b[..3])) && s[4..] == Encode(b[3..]);
      assert s[3] == Symbols(Sextets(b[..3]))[3];
      assert b == b[..3] + b[3..];
    }
  }

  // ----- The conversions of the source -----

  function StripPadding(s: string): string {
    if s != "" && s[|s| - 1] == '=' then StripPadding(s[..|s| - 1]) else s
  }

  function Standard(c: char): char {
    if c == '-' then '+' else if c == '_' then '/' else c
  }

  function Padding(n: nat): string {
    if n % 4 == 2 then "==" else if n % 4 == 3 then "=" else ""
  }

  /** What base64url_to_base64 makes of its input. */
  function ToStandard(s: string): (t: string) {
    seq(|s|, k requires 0 <= k < |s| => Standard(s[k])) + Padding(|s|)
  }

  lemma ToUrlConcat(a: string, b: string)
    ensures ToUrl(a + b) == ToUrl(a) + ToUrl(b)
  {
  }

  lemma {:induction false} StripConcat(a: string, b: string)
    requires b == "" ==> a == "" || a[|a| - 1] != '='
    requires StripPadding(b) == "" ==> a == "" || a[|a| - 1] != '='
    ensures StripPadding(a + b) == a + StripPadding(b)
    decreases |b|
  {
    if b == "" {
      assert a + b == a;
    } else if b[|b| - 1] == '=' {
      assert (a + b)[..|a + b| - 1] == a + b[..|b| - 1];
      StripConcat(a, b[..|b| - 1]);
    }
  }

  /** Mapping the alphabet and stripping the padding of standard base64 gives base64url without padding. */
  lemma {:induction false} StrippedIsUrl(b: seq<Byte>)
    ensures StripPadding(ToUrl(Encode(b))) == UrlEncode(b)
  {
    if b != [] {
      var head := if |b| > 3 then b[..3] else b;
      var s := Symbols(Sextets(head));
      var tail := if |b| <= 2 then (if |b| == 1 then "==" else "=") else Encode(b[3..]);
      assert Encode(b) == s + tail;
      ToUrlConcat(s, tail);
      NoPadding(head);
      if |b| <= 2 {
        assert ToUrl(tail) == tail;
        assert tail[..|tail| - 1] == (if |b| == 1 then "=" else "");
        assert "="[..0] == "";
        assert StripPadding("=") == "" && StripPadding(tail) == "";
      } else {
        StrippedIsUrl(b[3..]);
      }
      StripConcat(ToUrl(s), ToUrl(tail));
      if |b| == 3 {
        assert b[..3] == b && ToUrl(s) + "" == ToUrl(s);
      } else if |b| <= 2 {
        assert ToUrl(s) + "" == ToUrl(s);
      }
    }
  }

  lemma NoPadding(b: seq<Byte>)
    requires 1 <= |b| <= 3
    ensures forall k :: 0 <= k <= |b| ==>
                          UrlSymbol(Symbols(Sextets(b))[k]) != '='
                          && Standard(UrlSymbol(Symbols(Sextets(b))[k])) == Symbols(Sextets(b))[k]
  {
    forall k | 0 <= k <= |b|
      ensures UrlSymbol(Symbols(Sextets(b))[k]) != '='
              && Standard(UrlSymbol(Symbols(Sextets(b))[k])) == Symbols(Sextets(b))[k]
    {
      ValueOfSymbol(Sextets(b)[k]);
    }
  }

  lemma GroupStandard(b: seq<Byte>)
    requires 1 <= |b| <= 3
    ensures var u := ToUrl(Symbols(Sextets(b)));
            seq(|u|, k requires 0 <= k < |u| => Standard(u[k])) == Symbols(Sextets(b))
  {
    NoPadding(b);
  }

  lemma ToStandardConcat(a: string, b: string)
    requires |a| % 4 == 0
    ensures ToStandard(a + b) == seq(|a|, k requires 0 <= k < |a| => Standard(a[k])) + ToStandard(b)
  {
    assert |a + b| % 4 == |b| % 4;
  }

  /** The map back and the padding undo them. */
  lemma {:induction false} StandardOfUrl(b: seq<Byte>)
    ensures ToStandard(UrlEncode(b)) == Encode(b)
  {
    if b == [] {
    } else if |b| <= 3 {
      GroupStandard(b);
      if |b| == 3 {
        assert b[..3] == b && Encode(b[3..]) == "";
      }
    } else {
      GroupStandard(b[..3]);
      StandardOfUrl(b[3..]);
      ToStandardConcat(ToUrl(Symbols(Sextets(b[..3]))), UrlEncode(b[3..]));
    }
  }

  /** For every byte string: encode for a URL, convert back, decode. */
  lemma RoundTrip(b: seq<Byte>)
    ensures Decode(ToStandard(UrlEncode(b))) == Some(b)
  {
    StandardOfUrl(b);
    DecodeEncode(b);
  }

  /** The first loop of base64url_encode. */
  method MapAlphabet(out: array<char>, olen: nat)
    requires olen <= out.Length
    modifies out
    ensures out[..olen] == ToUrl(old(out[..olen]))
  {
    ghost var encoded := out[..olen];
    for i := 0 to olen
      invariant forall k :: 0 <= k < i ==> out[k] == UrlSymbol(encoded[k])
      invariant forall k :: i <= k < olen ==> out[k] == encoded[k]
    {
      if out[i] == '+' {
        out[i] := '-';
      } else if out[i] == '/' {
        out[i] := '_';
      }
    }
    assert out[..olen] == ToUrl(encoded);
  }

  /** The second loop of base64url_encode. */
  method DropPadding(out: array<char>, length: nat) returns (olen: nat)
    requires length <= out.Length
    ensures olen <= length && out[..olen] == StripPadding(out[..length])
  {
    olen := length;
    while olen > 0 && out[olen - 1] == '='
      invariant olen <= length && StripPadding(out[..olen]) == StripPadding(out[..length])
    {
      assert out[..olen][..olen - 1] == out[..olen - 1];
      olen := olen - 1;
    }
  }

  /** base64url_encode: in place, after the library's encoder. */
  method Base64UrlEncode(input: seq<Byte>, out: array<char>) returns (rc: int)
    modifies out
    ensures rc == (if out.Length < (|input| + 2) / 3 * 4 + 1 then -1 else 0)
    ensures rc == 0 ==> var n := |UrlEncode(input)|; n < out.Length && out[..n] == UrlEncode(input) && out[n] == '\0'
    ensures rc != 0 ==> out[..] == old(out[..])
  {
    var encoded := Encode(input);
    if out.Length < |encoded| + 1 {
      return -1;
    }
    forall k | 0 <= k < |encoded| {
      out[k] := encoded[k];
    }
    assert out[..|encoded|] == encoded;
    var olen := |encoded|;
    MapAlphabet(out, olen);
    StrippedIsUrl(input);
    olen := DropPadding(out, olen);
    out[olen] := '\0';
    return 0;
  }

  /** base64url_to_base64: the padded length, or -1 where the buffer has no room for padding and terminator. */
  method Base64UrlToBase64(input: seq<char>, out: array<char>) returns (rc: int)
    modifies out
    ensures |input| + 4 >= out.Length ==> rc == -1
    ensures |input| + 4 < out.Length ==>
              rc == |ToStandard(input)| && rc < out.Length && out[..rc] == ToStandard(input) && out[rc] == '\0'
  {
    if |input| + 4 >= out.Length {
      return -1;
    }
    for i := 0 to |input|
      invariant forall k :: 0 <= k < i ==> out[k] == Standard(input[k])
    {
      if input[i] == '-' {
        out[i] := '+';
      } else if input[i] == '_' {
        out[i] := '/';
      } else {
        out[i] := input[i];
      }
    }
    var padded := |input|;
    var remainder := |input| % 4;
    if remainder == 2 {
      out[padded] := '=';
      out[padded + 1] := '=';
      padded := padded + 2;
    } else if remainder == 3 {
      out[padded] := '=';
      padded := padded + 1;
    }
    out[padded] := '\0';
    assert out[..padded] == ToStandard(input);
    return padded;
  }

  // ----- The payload of a JWT -----

  function UpToDot(s: string): Option<nat> {
    if s == "" then None
    else if s[0] == '.' then Some(0)
    else if UpToDot(s[1..]).None? then None else Some(UpToDot(s[1..]).value + 1)
  }

  lemma {:induction false} UpToDotWithin(s: string)
    ensures UpToDot(s).Some? ==> UpToDot(s).value < |s|
  {
    if s != "" {
      UpToDotWithin(s[1..]);
    }
  }

  /** The decoding part of jwt_extract_nested_claim: the bytes of the payload, which JSON parsing then reads. */
  method JwtPayload(jwt: string) returns (r: Option<seq<Byte>>)
    ensures r == PayloadOf(jwt)
  {
    UpToDotWithin(jwt);
    var dot1 := UpToDot(jwt);
    if dot1.None? {
      return None;
    }
    var rest := jwt[dot1.value + 1..];
    UpToDotWithin(rest);
    var dot2 := UpToDot(rest);
    if dot2.None? {
      return None;
    }
    var length := dot2.value;
    if length == 0 || length > 4096 {
      return None;
    }
    var b64 := new char[4100];
    var n := Base64UrlToBase64(rest[..length], b64);
    if n < 0 {
      return None;
    }
    var decoded := Decode(b64[..n]);
    if decoded.None? || decoded.value == [] {
      return None;
    }
    return decoded;
  }

  function PayloadOf(jwt: string): Option<seq<Byte>> {
    UpToDotWithin(jwt);
    var dot1 := UpToDot(jwt);
    if dot1.None? then None
    else
      var rest := jwt[dot1.value + 1..];
      UpToDotWithin(rest);
      var dot2 := UpToDot(rest);
      if dot2.None? || dot2.value == 0 || dot2.value >= 4096 then None
      else
        var decoded := Decode(ToStandard(rest[..dot2.value]));
        if decoded == Some([]) then None else decoded
  }

  lemma {:induction false} DotAfter(a: string, b: string)
    requires '.' !in a
    ensures UpToDot(a + "." + b) == Some(|a|)
  {
    if a == "" {
      assert a + "." + b == "." + b;
    } else {
      assert (a + "." + b)[0] == a[0];
      assert (a + "." + b)[1..] == a[1..] + "." + b;
      DotAfter(a[1..], b);
    }
  }

  lemma {:induction false} UrlEncodeHasNoDot(b: seq<Byte>)
    ensures '.' !in UrlEncode(b)
  {
    if b != [] {
      var head := if |b| > 3 then b[..3] else b;
      forall k | 0 <= k <= |head|
        ensures ToUrl(Symbols(Sextets(head)))[k] != '.'
      {
        ValueOfSymbol(Sextets(head)[k]);
      }
      if |b| > 3 {
        UrlEncodeHasNoDot(b[3..]);
      }
    }
  }

  /** The payload of every token that is put together from its three parts is read back, exactly up to 4095 characters.
      The length check admits 4096, but the conversion then finds its 4100-byte buffer too small. */
  lemma PayloadReadBackIff(header: seq<Byte>, payload: seq<Byte>, signature: string)
    ensures PayloadOf(UrlEncode(header) + "." + UrlEncode(payload) + "." + signature)
            == if 0 < |UrlEncode(payload)| < 4096 then Some(payload) else None
  {
    var h, p := UrlEncode(header), UrlEncode(payload);
    var jwt := h + "." + p + "." + signature;
    UrlEncodeHasNoDot(header);
    UrlEncodeHasNoDot(payload);
    assert jwt == h + "." + (p + "." + signature);
    DotAfter(h, p + "." + signature);
    DotAfter(p, signature);
    assert jwt[|h| + 1..] == p + "." + signature;
    assert (p + "." + signature)[..|p|] == p;
    RoundTrip(payload);
  }

  /** A payload of 3072 bytes takes the 4096 characters that the length check admits, and is not read back. */
  lemma FullPayloadIsLost(header: seq<Byte>, signature: string)
    ensures var payload := seq(3072, _ => 0);
            && |UrlEncode(payload)| == 4096
            && PayloadOf(UrlEncode(header) + "." + UrlEncode(payload) + "." + signature) == None
  {
    PayloadReadBackIff(header, seq(3072, _ => 0), signature);
  }
}
