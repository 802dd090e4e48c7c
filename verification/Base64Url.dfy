/**
 Unpadded URL-safe base64 as the sign-in code builds and reads it
 (crates/liz-app-server/src/model/auth.rs): the standard alphabet with padding (RFC 4648
 section 4), rewritten to the URL-safe alphabet (section 5) and stripped (RFC 7636 section 4.2).
 */
module Base64Url {
  import opened Common

  type byte = b: int | 0 <= b < 256

  type sextet = v: int | 0 <= v < 64

  // ---------------------------------------------------------------------------------------
  // The standard encoding: canonical padding, no stray bits
  // ---------------------------------------------------------------------------------------

  function Symbol(v: sextet): char {
    if v < 26 then 'A' + v as char
    else if v < 52 then 'a' + (v - 26) as char
    else if v < 62 then '0' + (v - 52) as char
    else if v == 62 then '+'
    else '/'
  }

  function Value(c: char): Option<sextet> {
    if 'A' <= c <= 'Z' then Some(c as int - 'A' as int)
    else if 'a' <= c <= 'z' then Some(c as int - 'a' as int + 26)
    else if '0' <= c <= '9' then Some(c as int - '0' as int + 52)
    else if c == '+' then Some(62)
    else if c == '/' then Some(63)
    else None
  }

  /** The four sextets of three bytes. */
  function Sextets(a: byte, b: byte, c: byte): (sextet, sextet, sextet, sextet) {
    (a / 4, a % 4 * 16 + b / 16, b % 16 * 4 + c / 64, c % 64)
  }

  /** The three bytes of four sextets. */
  function Bytes(v: sextet, w: sextet, x: sextet, y: sextet): (byte, byte, byte) {
    (v * 4 + w / 16, w % 16 * 16 + x / 4, x % 4 * 64 + y)
  }

  function Encode(bytes: seq<byte>): string {
    if bytes == [] then ""
    else if |bytes| == 1 then
      var g := Sextets(bytes[0], 0, 0);
      [Symbol(g.0), Symbol(g.1), '=', '=']
    else if |bytes| == 2 then
      var g := Sextets(bytes[0], bytes[1], 0);
      [Symbol(g.0), Symbol(g.1), Symbol(g.2), '=']
    else
      var g := Sextets(bytes[0], bytes[1], bytes[2]);
      [Symbol(g.0), Symbol(g.1), Symbol(g.2), Symbol(g.3)] + Encode(bytes[3..])
  }

  function DecodeFull(s: string): Option<seq<byte>>
    requires |s| == 4
  {
    var v, w, x, y := Value(s[0]), Value(s[1]), Value(s[2]), Value(s[3]);
    if v.Some? && w.Some? && x.Some? && y.Some? then
      var t := Bytes(v.value, w.value, x.value, y.value);
      Some([t.0, t.1, t.2])
    else None
  }

  /** The last four characters: padding must be whole, and the bits beyond the last byte zero. */
  function DecodeLast(s: string): Option<seq<byte>>
    requires |s| == 4
  {
    var v, w, x := Value(s[0]), Value(s[1]), Value(s[2]);
    if s[3] != '=' then DecodeFull(s)
    else if s[2] != '=' then
      if v.Some? && w.Some? && x.Some? && x.value % 4 == 0 then
        var t := Bytes(v.value, w.value, x.value, 0);
        Some([t.0, t.1])
      else None
    else if v.Some? && w.Some? && w.value % 16 == 0 then
      Some([Bytes(v.value, w.value, 0, 0).0])
    else None
  }

  function Decode(s: string): Option<seq<byte>> {
    if s == "" then Some([])
    else if |s| < 4 then None
    else if |s| == 4 then DecodeLast(s)
    else
      var head, rest := DecodeFull(s[..4]), Decode(s[4..]);
      if head.Some? && rest.Some? then Some(head.value + rest.value) else None
  }

  lemma ValueOfSymbol(v: sextet)
    ensures Value(Symbol(v)) == Some(v) && Symbol(v) != '='
  {
  }

  lemma SymbolOfValue(c: char)
    ensures Value(c).Some? ==> Symbol(Value(c).value) == c && c != '='
  {
  }

  /** Both forms are the same 24-bit number, read eight or six bits at a time. */
  lemma SextetsAreTheBits(a: byte, b: byte, c: byte)
    ensures var g := Sextets(a, b, c);
      a * 0x1_0000 + b * 0x100 + c == g.0 * 0x4_0000 + g.1 * 0x1000 + g.2 * 0x40 + g.3
  {
  }

  lemma DivMod4(q: nat, r: nat)
    requires r < 4
    ensures (q * 4 + r) / 4 == q && (q * 4 + r) % 4 == r
  {
  }

  lemma DivMod16(q: nat, r: nat)
    requires r < 16
    ensures (q * 16 + r) / 16 == q && (q * 16 + r) % 16 == r
  {
  }

  lemma DivMod64(q: nat, r: nat)
    requires r < 64
    ensures (q * 64 + r) / 64 == q && (q * 64 + r) % 64 == r
  {
  }

  lemma BytesOfSextets(a: byte, b: byte, c: byte)
    ensures var g := Sextets(a, b, c); Bytes(g.0, g.1, g.2, g.3) == (a, b, c)
  {
    DivMod16(a % 4, b / 16);
    DivMod4(b % 16, c / 64);
  }

  lemma SextetsOfBytes(v: sextet, w: sextet, x: sextet, y: sextet)
    ensures var t := Bytes(v, w, x, y); Sextets(t.0, t.1, t.2) == (v, w, x, y)
  {
    DivMod4(v, w / 16);
    DivMod16(w % 16, x / 4);
    DivMod64(x % 4, y);
  }

  lemma QuadDecodes(a: byte, b: byte, c: byte)
    ensures var g := Sextets(a, b, c);
      DecodeFull([Symbol(g.0), Symbol(g.1), Symbol(g.2), Symbol(g.3)]) == Some([a, b, c])
  {
    var g := Sextets(a, b, c);
    BytesOfSextets(a, b, c);
    ValueOfSymbol(g.0);
    ValueOfSymbol(g.1);
    ValueOfSymbol(g.2);
    ValueOfSymbol(g.3);
  }

  lemma StrayBitsAreZero(a: byte, b: byte)
    ensures Sextets(a, b, 0).2 % 4 == 0 && Sextets(a, b, 0).3 == 0
    ensures Sextets(a, 0, 0).1 % 16 == 0 && Sextets(a, 0, 0).2 == 0
  {
    DivMod4(b % 16, 0);
    DivMod16(a % 4, 0);
  }

  lemma LastDecodes(bytes: seq<byte>)
    requires 1 <= |bytes| <= 3
    ensures |Encode(bytes)| == 4 && DecodeLast(Encode(bytes)) == Some(bytes)
  {
    var b, c := if |bytes| > 1 then bytes[1] else 0, if |bytes| > 2 then bytes[2] else 0;
    var g := Sextets(bytes[0], b, c);
    BytesOfSextets(bytes[0], b, c);
    ValueOfSymbol(g.0);
    ValueOfSymbol(g.1);
    ValueOfSymbol(g.2);
    ValueOfSymbol(g.3);
    if |bytes| == 3 {
      QuadDecodes(bytes[0], b, c);
      assert bytes[3..] == [] && bytes == [bytes[0], b, c];
    } else {
      StrayBitsAreZero(bytes[0], b);
      if |bytes| == 1 {
        assert bytes == [bytes[0]];
      } else {
        assert bytes == [bytes[0], b];
      }
    }
  }

  lemma {:induction false} EncodeIsNotEmpty(bytes: seq<byte>)
    requires bytes != []
    ensures |Encode(bytes)| >= 4
  {
  }

  lemma DecodeStep(quad: string, rest: string)
    requires |quad| == 4 && rest != "" && DecodeFull(quad).Some? && Decode(rest).Some?
    ensures Decode(quad + rest) == Some(DecodeFull(quad).value + Decode(rest).value)
  {
    assert (quad + rest)[..4] == quad && (quad + rest)[4..] == rest;
  }

  lemma EncodeFront(bytes: seq<byte>) returns (quad: string)
    requires |bytes| > 3
    ensures |quad| == 4 && Encode(bytes) == quad + Encode(bytes[3..])
    ensures DecodeFull(quad) == Some(bytes[..3])
  {
    var g := Sextets(bytes[0], bytes[1], bytes[2]);
    quad := [Symbol(g.0), Symbol(g.1), Symbol(g.2), Symbol(g.3)];
    QuadDecodes(bytes[0], bytes[1], bytes[2]);
    assert bytes[..3] == [bytes[0], bytes[1], bytes[2]];
  }

  lemma {:induction false} DecodeUndoesEncode(bytes: seq<byte>)
    ensures Decode(Encode(bytes)) == Some(bytes)
  {
    if bytes == [] {
    } else if |bytes| <= 3 {
      LastDecodes(bytes);
    } else {
      var quad := EncodeFront(bytes);
      EncodeIsNotEmpty(bytes[3..]);
      DecodeUndoesEncode(bytes[3..]);
      DecodeStep(quad, Encode(bytes[3..]));
      assert bytes == bytes[..3] + bytes[3..];
    }
  }

  lemma SymbolsOfBytes(v: sextet, w: sextet, x: sextet, y: sextet)
    ensures var t := Bytes(v, w, x, y);
      var g := Sextets(t.0, t.1, t.2);
      Symbol(g.0) == Symbol(v) && Symbol(g.1) == Symbol(w) && Symbol(g.2) == Symbol(x) && Symbol(g.3) == Symbol(y)
  {
    SextetsOfBytes(v, w, x, y);
  }

  lemma FullIsCanonical(s: string)
    requires |s| == 4 && DecodeFull(s).Some?
    ensures |DecodeFull(s).value| == 3 && '=' !in s
    ensures var t := DecodeFull(s).value;
      var g := Sextets(t[0], t[1], t[2]);
      s == [Symbol(g.0), Symbol(g.1), Symbol(g.2), Symbol(g.3)]
  {
    var v, w, x, y := Value(s[0]).value, Value(s[1]).value, Value(s[2]).value, Value(s[3]).value;
    assert Symbol(v) == s[0] && s[0] != '=' by { SymbolOfValue(s[0]); }
    assert Symbol(w) == s[1] && s[1] != '=' by { SymbolOfValue(s[1]); }
    assert Symbol(x) == s[2] && s[2] != '=' by { SymbolOfValue(s[2]); }
    assert Symbol(y) == s[3] && s[3] != '=' by { SymbolOfValue(s[3]); }
    SymbolsOfBytes(v, w, x, y);
    assert s == [s[0], s[1], s[2], s[3]];
  }

  lemma LastIsCanonical(s: string)
    requires |s| == 4 && DecodeLast(s).Some?
    ensures s == Encode(DecodeLast(s).value)
  {
    if s[3] != '=' {
      FullIsCanonical(s);
    } else {
      var x := if s[2] != '=' then Value(s[2]).value else 0;
      SymbolOfValue(s[0]);
      SymbolOfValue(s[1]);
      SymbolOfValue(s[2]);
      SextetsOfBytes(Value(s[0]).value, Value(s[1]).value, x, 0);
    }
  }

  lemma {:induction false} DecodeIsCanonical(s: string)
    requires Decode(s).Some?
    ensures s == Encode(Decode(s).value)
  {
    if |s| == 4 {
      LastIsCanonical(s);
    } else if |s| > 4 {
      FullIsCanonical(s[..4]);
      DecodeIsCanonical(s[4..]);
      var bytes := Decode(s).value;
      assert bytes[3..] == Decode(s[4..]).value;
      assert s == s[..4] + s[4..];
    }
  }

  /** Decoding accepts exactly the encodings. */
  lemma DecodesIffEncoded(s: string, bytes: seq<byte>)
    ensures Decode(s) == Some(bytes) <==> s == Encode(bytes)
  {
    DecodeUndoesEncode(bytes);
    if Decode(s).Some? {
      DecodeIsCanonical(s);
    }
  }

  // ---------------------------------------------------------------------------------------
  // The URL-safe form
  // ---------------------------------------------------------------------------------------

  function Replace(s: string, from: char, to: char): string {
    seq(|s|, i requires 0 <= i < |s| => if s[i] == from then to else s[i])
  }

  function TrimEnd(s: string, c: char): string {
    if s != "" && s[|s| - 1] == c then TrimEnd(s[..|s| - 1], c) else s
  }

  function ToUrl(s: string): string {
    Replace(Replace(s, '+', '-'), '/', '_')
  }

  function FromUrl(s: string): string {
    Replace(Replace(s, '-', '+'), '_', '/')
  }

  function UrlEncode(bytes: seq<byte>): string {
    TrimEnd(ToUrl(Encode(bytes)), '=')
  }

  /** The challenge for a verifier whose SHA-256 hash is `hash`. */
  function PkceCodeChallenge(hash: seq<byte>): string {
    UrlEncode(hash)
  }

  function Equals(n: nat): string {
    seq(n, _ => '=')
  }

  /** How many characters a length lacks to a multiple of four. */
  function Missing(n: nat): nat {
    if n % 4 == 0 then 0 else 4 - n % 4
  }

  function UrlDecode(input: string): Option<seq<byte>> {
    var normalized := FromUrl(input);
    Decode(normalized + Equals(Missing(|normalized|)))
  }

  /** One more padding character brings the length one nearer to a multiple of four. */
  lemma PadOnce(n: nat, added: nat)
    requires Missing(n + added) > 0
    ensures Missing(n + added + 1) == Missing(n + added) - 1 && Equals(added + 1) == Equals(added) + ['=']
  {
  }

  method Base64UrlDecode(input: string) returns (bytes: Option<seq<byte>>)
    ensures bytes == UrlDecode(input)
  {
    var normalized := FromUrl(input);
    ghost var n, added := |normalized|, 0;
    while |normalized| % 4 != 0
      invariant |normalized| == n + added && normalized == FromUrl(input) + Equals(added)
      invariant added + Missing(n + added) == Missing(n)
      decreases Missing(|normalized|)
    {
      PadOnce(n, added);
      normalized := normalized + ['='];
      added := added + 1;
    }
    return Decode(normalized);
  }

  lemma {:induction false} TrimEndSplits(s: string, c: char)
    ensures var t := TrimEnd(s, c);
      && |t| <= |s| && t == s[..|t|]
      && (forall i | |t| <= i < |s| :: s[i] == c)
      && (t != "" ==> t[|t| - 1] != c)
  {
    if s != "" && s[|s| - 1] == c {
      TrimEndSplits(s[..|s| - 1], c);
    }
  }

  lemma {:induction false} TrimEndStops(s: string, c: char, k: nat)
    requires k <= |s| && (k > 0 ==> s[k - 1] != c) && forall i | k <= i < |s| :: s[i] == c
    ensures TrimEnd(s, c) == s[..k]
  {
    if k < |s| {
      TrimEndStops(s[..|s| - 1], c, k);
      assert s[..|s| - 1][..k] == s[..k];
    } else {
      assert s[..k] == s;
    }
  }

  /** The number of padding characters behind the encoding of `n` bytes. */
  function Padding(n: nat): nat {
    if n % 3 == 1 then 2 else if n % 3 == 2 then 1 else 0
  }

  function EncodedLength(n: nat): nat {
    (4 * n + 2) / 3
  }

  lemma EncodedLengthStep(n: nat)
    ensures EncodedLength(n + 3) == EncodedLength(n) + 4 && Padding(n + 3) == Padding(n)
    ensures Missing(n + 4) == Missing(n)
  {
  }

  /** An encoding is symbols of the alphabet followed by its padding, and fills up whole quads. */
  lemma {:induction false} EncodeShape(bytes: seq<byte>)
    ensures var s, k := Encode(bytes), EncodedLength(|bytes|);
      && |s| == k + Padding(|bytes|)
      && Missing(k) == Padding(|bytes|)
      && (forall i | 0 <= i < k :: Value(s[i]).Some? && s[i] != '=')
      && (forall i | k <= i < |s| :: s[i] == '=')
  {
    if |bytes| >= 3 {
      var g := Sextets(bytes[0], bytes[1], bytes[2]);
      EncodeShape(bytes[3..]);
      EncodedLengthStep(|bytes| - 3);
      EncodedLengthStep(EncodedLength(|bytes| - 3));
      ValueOfSymbol(g.0);
      ValueOfSymbol(g.1);
      ValueOfSymbol(g.2);
      ValueOfSymbol(g.3);
    } else if bytes != [] {
      var g := Sextets(bytes[0], if |bytes| > 1 then bytes[1] else 0, 0);
      ValueOfSymbol(g.0);
      ValueOfSymbol(g.1);
      ValueOfSymbol(g.2);
    }
  }

  predicate IsUrlSafe(c: char) {
    'A' <= c <= 'Z' || 'a' <= c <= 'z' || '0' <= c <= '9' || c == '-' || c == '_'
  }

  /** The URL-safe form is the encoding without its padding, symbol by symbol. */
  lemma UrlEncodeShape(bytes: seq<byte>)
    ensures var s := UrlEncode(bytes);
      && |s| == EncodedLength(|bytes|) && |s| <= |Encode(bytes)|
      && s == ToUrl(Encode(bytes)[..|s|])
      && (forall c <- s :: IsUrlSafe(c))
      && FromUrl(s) == Encode(bytes)[..|s|]
  {
    var e, k := Encode(bytes), EncodedLength(|bytes|);
    EncodeShape(bytes);
    assert forall i | 0 <= i < k :: ToUrl(e)[i] != '=';
    TrimEndStops(ToUrl(e), '=', k);
  }

  /** RFC 7636 section 4.2: a 32-byte hash gives 43 characters of the URL-safe alphabet. */
  lemma ChallengeShape(hash: seq<byte>)
    requires |hash| == 32
    ensures |PkceCodeChallenge(hash)| == 43 && forall c <- PkceCodeChallenge(hash) :: IsUrlSafe(c)
  {
    UrlEncodeShape(hash);
  }

  /** Decoding undoes the unpadded URL-safe encoding; the padding restored is what was stripped. */
  lemma UrlDecodeUndoesUrlEncode(bytes: seq<byte>)
    ensures UrlDecode(UrlEncode(bytes)) == Some(bytes)
    ensures FromUrl(UrlEncode(bytes)) + Equals(Missing(|UrlEncode(bytes)|)) == Encode(bytes)
  {
    EncodeShape(bytes);
    UrlEncodeShape(bytes);
    DecodeUndoesEncode(bytes);
    assert FromUrl(UrlEncode(bytes)) + Equals(Padding(|bytes|)) == Encode(bytes);
  }

  lemma UrlEncodeIsInjective(a: seq<byte>, b: seq<byte>)
    requires UrlEncode(a) == UrlEncode(b)
    ensures a == b
  {
    UrlDecodeUndoesUrlEncode(a);
    UrlDecodeUndoesUrlEncode(b);
  }

  /** Either alphabet is read, and so is any part of the padding. */
  predicate Spells(input: string, bytes: seq<byte>) {
    var stem := TrimEnd(input, '=');
    ToUrl(stem) == UrlEncode(bytes) && |input| - |stem| <= Padding(|bytes|)
  }

  lemma FromUrlAt(s: string, i: nat)
    requires i < |s|
    ensures |FromUrl(s)| == |s| && FromUrl(s)[i] == if s[i] == '-' then '+' else if s[i] == '_' then '/' else s[i]
  {
  }

  lemma ToUrlAt(s: string, i: nat)
    requires i < |s|
    ensures |ToUrl(s)| == |s| && ToUrl(s)[i] == if s[i] == '+' then '-' else if s[i] == '/' then '_' else s[i]
  {
  }

  lemma MissingLess(k: nat, d: nat)
    requires d <= Missing(k)
    ensures Missing(k + d) == Missing(k) - d
  {
  }

  lemma SpelledIsPadded(input: string, bytes: seq<byte>)
    requires Spells(input, bytes)
    ensures FromUrl(input) + Equals(Missing(|input|)) == Encode(bytes)
  {
    var stem, e := TrimEnd(input, '='), Encode(bytes);
    TrimEndSplits(input, '=');
    EncodeShape(bytes);
    UrlEncodeShape(bytes);
    assert |ToUrl(stem)| == |stem| == EncodedLength(|bytes|);
    MissingLess(|stem|, |input| - |stem|);
    var all := FromUrl(input) + Equals(Missing(|input|));
    forall i | 0 <= i < |e| ensures all[i] == e[i] {
      if i < |stem| {
        FromUrlAt(input, i);
        ToUrlAt(stem, i);
        ToUrlAt(e[..|stem|], i);
        assert Value(e[i]).Some?;
      } else if i < |input| {
        FromUrlAt(input, i);
      }
    }
  }

  lemma PaddedIsSpelled(input: string, bytes: seq<byte>)
    requires FromUrl(input) + Equals(Missing(|input|)) == Encode(bytes)
    ensures Spells(input, bytes)
  {
    var e, k := Encode(bytes), EncodedLength(|bytes|);
    EncodeShape(bytes);
    UrlEncodeShape(bytes);
    var all := FromUrl(input) + Equals(Missing(|input|));
    assert forall i | |input| <= i < |all| :: all[i] == '=';
    assert k > 0 ==> e[k - 1] != '=';
    assert k <= |input|;
    forall i | 0 <= i < |input| ensures input[i] == '=' <==> k <= i {
      FromUrlAt(input, i);
      assert all[i] == FromUrl(input)[i];
    }
    TrimEndStops(input, '=', k);
    SameInUrl(input, e, k);
  }

  lemma SameInUrl(input: string, e: string, k: nat)
    requires k <= |input| && k <= |e| && FromUrl(input)[..k] == e[..k]
    ensures ToUrl(input[..k]) == ToUrl(e[..k])
  {
    forall i | 0 <= i < k ensures ToUrl(input[..k])[i] == ToUrl(e[..k])[i] {
      FromUrlAt(input, i);
      ToUrlAt(input[..k], i);
      ToUrlAt(e[..k], i);
      assert FromUrl(input)[..k][i] == e[..k][i];
    }
  }

  /** Exactly which texts decode to given bytes. */
  lemma UrlDecodesIff(input: string, bytes: seq<byte>)
    ensures UrlDecode(input) == Some(bytes) <==> Spells(input, bytes)
  {
    DecodesIffEncoded(FromUrl(input) + Equals(Missing(|input|)), bytes);
    if Spells(input, bytes) {
      SpelledIsPadded(input, bytes);
    }
    if UrlDecode(input) == Some(bytes) {
      PaddedIsSpelled(input, bytes);
    }
  }

  // ---------------------------------------------------------------------------------------
  // Each character, by position
  // ---------------------------------------------------------------------------------------

  /** RFC 4648 section 5, table 2: the character of each value. */
  const URL_ALPHABET := "ABCDEFGHIJKLMNOPQRSTUVWXYZ" + "abcdefghijklmnopqrstuvwxyz" + "0123456789" + "-_"

  function ByteAt(bytes: seq<byte>, k: nat): byte {
    if k < |bytes| then bytes[k] else 0
  }

  /** The `i`-th six bits of 24. */
  function SixBits(group: nat, i: nat): sextet {
    match i
    case 0 => group / 64 / 64 / 64 % 64
    case 1 => group / 64 / 64 % 64
    case 2 => group / 64 % 64
    case _ => group % 64
  }

  /** The three bytes from `k` on as one number, with zeros behind the last one. */
  function GroupAt(bytes: seq<byte>, k: nat): nat {
    ByteAt(bytes, k) * 0x1_0000 + ByteAt(bytes, k + 1) * 0x100 + ByteAt(bytes, k + 2)
  }

  /** The six bits from bit `6 * i` on, counted through all bytes. */
  function SextetAt(bytes: seq<byte>, i: nat): sextet {
    SixBits(GroupAt(bytes, i / 4 * 3), i % 4)
  }

  lemma AlphabetAt(v: sextet)
    ensures |URL_ALPHABET| == 64
    ensures URL_ALPHABET[v] == if Symbol(v) == '+' then '-' else if Symbol(v) == '/' then '_' else Symbol(v)
  {
    var upper, lower, digits := "ABCDEFGHIJKLMNOPQRSTUVWXYZ", "abcdefghijklmnopqrstuvwxyz", "0123456789";
    if v < 26 {
      assert URL_ALPHABET[v] == upper[v];
    } else if v < 52 {
      assert URL_ALPHABET[v] == lower[v - 26];
    } else if v < 62 {
      assert URL_ALPHABET[v] == digits[v - 52];
    }
  }

  function Part(g: (sextet, sextet, sextet, sextet), i: nat): sextet {
    match i
    case 0 => g.0
    case 1 => g.1
    case 2 => g.2
    case _ => g.3
  }

  /** Four sextets in base 64 give their six bits back. */
  lemma BaseSixtyFour(v: nat, w: nat, x: nat, y: nat)
    requires v < 64 && w < 64 && x < 64 && y < 64
    ensures var group := ((v * 64 + w) * 64 + x) * 64 + y;
      SixBits(group, 0) == v && SixBits(group, 1) == w && SixBits(group, 2) == x && SixBits(group, 3) == y
  {
    var two := v * 64 + w;
    var three := two * 64 + x;
    DivMod64(v, w);
    DivMod64(two, x);
    DivMod64(three, y);
  }

  lemma GroupParts(a: byte, b: byte, c: byte, i: nat)
    requires i < 4
    ensures SixBits(a * 0x1_0000 + b * 0x100 + c, i) == Part(Sextets(a, b, c), i)
  {
    var g := Sextets(a, b, c);
    SextetsAreTheBits(a, b, c);
    var v: nat, w: nat, x: nat, y: nat := g.0, g.1, g.2, g.3;
    BaseSixtyFour(v, w, x, y);
    assert a * 0x1_0000 + b * 0x100 + c == ((v * 64 + w) * 64 + x) * 64 + y;
  }

  lemma LaterSextet(bytes: seq<byte>, i: nat)
    requires |bytes| >= 3 && i >= 4
    ensures SextetAt(bytes, i) == SextetAt(bytes[3..], i - 4)
  {
    assert i / 4 == (i - 4) / 4 + 1 && i % 4 == (i - 4) % 4;
  }

  lemma LaterSymbol(bytes: seq<byte>, i: nat)
    requires |bytes| >= 3 && 4 <= i < 4 + |Encode(bytes[3..])|
    ensures i < |Encode(bytes)| && Encode(bytes)[i] == Encode(bytes[3..])[i - 4]
  {
  }

  lemma FirstSextet(bytes: seq<byte>, i: nat)
    requires i < 4
    ensures SextetAt(bytes, i) == Part(Sextets(ByteAt(bytes, 0), ByteAt(bytes, 1), ByteAt(bytes, 2)), i)
  {
    assert i / 4 == 0 && i % 4 == i;
    GroupParts(ByteAt(bytes, 0), ByteAt(bytes, 1), ByteAt(bytes, 2), i);
  }

  lemma FirstPart(bytes: seq<byte>, i: nat)
    requires i < 4 && i < EncodedLength(|bytes|)
    ensures i < |Encode(bytes)|
    ensures Encode(bytes)[i] == Symbol(Part(Sextets(ByteAt(bytes, 0), ByteAt(bytes, 1), ByteAt(bytes, 2)), i))
  {
  }

  lemma FirstSymbol(bytes: seq<byte>, i: nat)
    requires i < 4 && i < EncodedLength(|bytes|)
    ensures i < |Encode(bytes)| && Encode(bytes)[i] == Symbol(SextetAt(bytes, i))
  {
    FirstSextet(bytes, i);
    FirstPart(bytes, i);
  }

  lemma {:induction false} EncodeAt(bytes: seq<byte>, i: nat)
    requires i < EncodedLength(|bytes|)
    ensures i < |Encode(bytes)| && Encode(bytes)[i] == Symbol(SextetAt(bytes, i))
  {
    if i >= 4 {
      EncodedLengthStep(|bytes| - 3);
      EncodeAt(bytes[3..], i - 4);
      LaterSextet(bytes, i);
      LaterSymbol(bytes, i);
    } else {
      FirstSymbol(bytes, i);
    }
  }

  /** Every character of the URL-safe form is the one RFC 4648 gives for its six bits. */
  lemma UrlEncodeAt(bytes: seq<byte>, i: nat)
    requires i < EncodedLength(|bytes|)
    ensures |UrlEncode(bytes)| == EncodedLength(|bytes|) && |URL_ALPHABET| == 64
    ensures UrlEncode(bytes)[i] == URL_ALPHABET[SextetAt(bytes, i)]
  {
    UrlEncodeShape(bytes);
    EncodeAt(bytes, i);
    ToUrlAt(Encode(bytes)[..EncodedLength(|bytes|)], i);
    AlphabetAt(SextetAt(bytes, i));
  }
}
