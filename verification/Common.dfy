/** Failure-compatible wrappers and the string helpers shared by the models. */
module Common {

  datatype Option<+T> = None | Some(value: T) {
    function Or(default: T): T {
      if Some? then value else default
    }
  }

  datatype Result<+T, +E> = Ok(value: T) | Err(error: E)

  /** The Unicode White_Space property. */
  predicate IsSpace(c: char) {
    var p := c as int;
    || 0x9 <= p <= 0xD || p == 0x20 || p == 0x85 || p == 0xA0 || p == 0x1680
    || 0x2000 <= p <= 0x200A || p == 0x2028 || p == 0x2029 || p == 0x202F || p == 0x205F || p == 0x3000
  }

  /** `trim().is_empty()`. */
  predicate IsBlank(s: string) {
    forall c <- s :: IsSpace(c)
  }

  function Digit(d: nat): char
    requires d < 10
  {
    '0' + d as char
  }

  function Decimal(n: nat): string {
    if n < 10 then [Digit(n)] else Decimal(n / 10) + [Digit(n % 10)]
  }

  function AsciiLower(s: string): string {
    seq(|s|, i requires 0 <= i < |s| => if 'A' <= s[i] <= 'Z' then s[i] + ('a' - 'A') else s[i])
  }

  predicate Contains(text: string, needle: string) {
    needle <= text || (text != "" && Contains(text[1..], needle))
  }

  predicate OccursAt(text: string, search: string, i: nat) {
    i + |search| <= |text| && text[i..i + |search|] == search
  }

  /** The same ASCII letter, once in upper and once in lower case. */
  predicate OtherCase(c: char, d: char) {
    || ('A' <= c <= 'Z' && d as int == c as int + 32)
    || ('A' <= d <= 'Z' && c as int == d as int + 32)
  }

  predicate Agrees(c: char, d: char, ignoreCase: bool) {
    c == d || (ignoreCase && OtherCase(c, d))
  }

  /** The text agrees with the needle from position `i` on, maybe up to the case of ASCII letters. */
  predicate AgreesAt(text: string, needle: string, i: nat, ignoreCase: bool) {
    && i + |needle| <= |text|
    && forall k | 0 <= k < |needle| :: Agrees(text[i + k], needle[k], ignoreCase)
  }

  ghost predicate AgreesSomewhere(text: string, needle: string, ignoreCase: bool) {
    exists i: nat :: AgreesAt(text, needle, i, ignoreCase)
  }

  function Take<T>(s: seq<T>, n: nat): seq<T> {
    if n <= |s| then s[..n] else s
  }

  ghost predicate NoRepeats<T>(s: seq<T>) {
    forall i, j | 0 <= i < j < |s| :: s[i] != s[j]
  }

  lemma ConcatAssociates<T>(a: seq<T>, b: seq<T>, c: seq<T>)
    ensures a + b + c == a + (b + c)
  {
  }

  lemma OccursBehind(text: string, needle: string, k: nat, p: nat)
    requires k <= p && k <= |text|
    ensures OccursAt(text[k..], needle, p - k) <==> OccursAt(text, needle, p)
  {
    if p + |needle| <= |text| {
      assert text[k..][p - k..p - k + |needle|] == text[p..p + |needle|];
    }
  }

  lemma {:induction false} ContainsIff(text: string, needle: string)
    ensures Contains(text, needle) <==> exists p: nat :: OccursAt(text, needle, p)
  {
    if needle <= text {
      assert OccursAt(text, needle, 0);
    } else if text != "" {
      ContainsIff(text[1..], needle);
      if p: nat :| OccursAt(text[1..], needle, p) {
        OccursBehind(text, needle, 1, p + 1);
        assert OccursAt(text, needle, p + 1);
      }
      if p: nat :| OccursAt(text, needle, p) {
        assert p > 0;
        OccursBehind(text, needle, 1, p);
        assert OccursAt(text[1..], needle, p - 1);
      }
    }
  }

  lemma OccursIffAgrees(text: string, needle: string, i: nat)
    ensures OccursAt(text, needle, i) <==> AgreesAt(text, needle, i, false)
  {
    if i + |needle| <= |text| {
      var stretch := text[i..i + |needle|];
      assert forall k | 0 <= k < |needle| :: stretch[k] == text[i + k];
    }
  }

  lemma LowerAgreesAt(text: string, needle: string, i: nat)
    ensures OccursAt(AsciiLower(text), AsciiLower(needle), i) <==> AgreesAt(text, needle, i, true)
  {
    var t, n := AsciiLower(text), AsciiLower(needle);
    OccursIffAgrees(t, n, i);
    if i + |needle| <= |text| {
      forall k | 0 <= k < |needle|
        ensures Agrees(text[i + k], needle[k], true) <==> Agrees(t[i + k], n[k], false)
      {
      }
    }
  }

  /** A text contains a needle exactly when it agrees with it somewhere. */
  lemma ContainsIffAgrees(text: string, needle: string)
    ensures Contains(text, needle) <==> AgreesSomewhere(text, needle, false)
  {
    ContainsIff(text, needle);
    forall i: nat ensures OccursAt(text, needle, i) <==> AgreesAt(text, needle, i, false) {
      OccursIffAgrees(text, needle, i);
    }
  }

  /** Once both are in lower case, exactly when they agree up to the case of ASCII letters. */
  lemma LowerContainsIffAgrees(text: string, needle: string)
    ensures Contains(AsciiLower(text), AsciiLower(needle)) <==> AgreesSomewhere(text, needle, true)
  {
    ContainsIff(AsciiLower(text), AsciiLower(needle));
    forall i: nat ensures OccursAt(AsciiLower(text), AsciiLower(needle), i) <==> AgreesAt(text, needle, i, true) {
      LowerAgreesAt(text, needle, i);
    }
  }

  /** White space is these 25 characters. */
  lemma SpacesAre(c: char)
    ensures IsSpace(c) <==>
      c as int in [0x9, 0xA, 0xB, 0xC, 0xD, 0x20, 0x85, 0xA0, 0x1680, 0x2000, 0x2001, 0x2002, 0x2003, 0x2004, 0x2005,
                   0x2006, 0x2007, 0x2008, 0x2009, 0x200A, 0x2028, 0x2029, 0x202F, 0x205F, 0x3000]
  {
  }
}
