/** Idempotency keys: what a client may send, and the keys of the items of a bulk request. */
module IdempotencyKeys {
  import opened Basics

  const MIN_LENGTH := 8
  const MAX_LENGTH := 100

  /** The white space and line ends that JavaScript's `trim` removes. */
  predicate IsSpace(c: char) {
    || c in {'\t', '\n', '\U{B}', '\U{C}', '\r', ' ', '\U{A0}', '\U{1680}'}
    || '\U{2000}' <= c <= '\U{200A}'
    || c in {'\U{2028}', '\U{2029}', '\U{202F}', '\U{205F}', '\U{3000}', '\U{FEFF}'}
  }

  function TrimStart(s: string): string {
    if s != [] && IsSpace(s[0]) then TrimStart(s[1..]) else s
  }

  function TrimEnd(s: string): string {
    if s != [] && IsSpace(s[|s| - 1]) then TrimEnd(s[..|s| - 1]) else s
  }

  function Trim(s: string): string { TrimEnd(TrimStart(s)) }

  predicate IsKeyChar(c: char) {
    'A' <= c <= 'Z' || 'a' <= c <= 'z' || '0' <= c <= '9' || c in {'.', '_', ':', '-'}
  }

  predicate IsKey(s: string) {
    MIN_LENGTH <= |s| <= MAX_LENGTH && forall i | 0 <= i < |s| :: IsKeyChar(s[i])
  }

  /** The headers of that name a request carries: none, one, or several. */
  function ParseIdempotencyKey(headers: seq<string>): Result<Option<string>> {
    if headers == [] then Ok(None)
    else if |headers| > 1 then Err("header must be sent once")
    else
      var key := Trim(headers[0]);
      if key == "" then Ok(None)
      else if IsKey(key) then Ok(Some(key))
      else Err("key is invalid")
  }

  function Digits(n: nat): string {
    if n < 10 then [('0' as int + n) as char] else Digits(n / 10) + [('0' as int + n % 10) as char]
  }

  function ItemKey(key: string, index: nat): string { key + "#" + Digits(index) }

  // ---- what the keys guarantee ------------------------------------------------------------------

  lemma TrimmedKeyIsKept(s: string)
    requires IsKey(s)
    ensures Trim(s) == s
  {
    assert IsKeyChar(s[0]) && IsKeyChar(s[|s| - 1]);
  }

  /** Parsing yields a well-formed key, no key for a missing or blank header, and keeps what it yields. */
  lemma ParsingIsStable(headers: seq<string>)
    ensures match ParseIdempotencyKey(headers)
            case Ok(Some(key)) => IsKey(key) && |headers| == 1 && ParseIdempotencyKey([key]) == Ok(Some(key))
            case Ok(None) => headers == [] || (|headers| == 1 && Trim(headers[0]) == "")
            case Err(_) => |headers| > 1 || !IsKey(Trim(headers[0]))
  {
    var parsed := ParseIdempotencyKey(headers);
    if parsed.Ok? && parsed.value.Some? {
      TrimmedKeyIsKept(parsed.value.value);
    }
  }

  /** The white space and line ends of ECMA-262 (sections 12.2 and 12.3). */
  lemma SpacesAreListed(c: char)
    ensures IsSpace(c)
            <==> c as int in {0x9, 0xA, 0xB, 0xC, 0xD, 0x20, 0xA0, 0x1680, 0x2000, 0x2001, 0x2002, 0x2003, 0x2004, 0x2005, 0x2006,
                              0x2007, 0x2008, 0x2009, 0x200A, 0x2028, 0x2029, 0x202F, 0x205F, 0x3000, 0xFEFF}
  {
  }

  lemma {:induction false} StartIsTrimmed(s: string) returns (i: nat)
    ensures i <= |s| && TrimStart(s) == s[i..] && (forall k | 0 <= k < i :: IsSpace(s[k])) && (i < |s| ==> !IsSpace(s[i]))
  {
    if s != [] && IsSpace(s[0]) {
      var j := StartIsTrimmed(s[1..]);
      i := j + 1;
      forall k | 0 <= k < i ensures IsSpace(s[k]) { if k > 0 { assert s[k] == s[1..][k - 1]; } }
    } else {
      i := 0;
    }
  }

  lemma {:induction false} EndIsTrimmed(s: string) returns (j: nat)
    ensures j <= |s| && TrimEnd(s) == s[..j] && (forall k | j <= k < |s| :: IsSpace(s[k])) && (j > 0 ==> !IsSpace(s[j - 1]))
  {
    if s != [] && IsSpace(s[|s| - 1]) {
      var init := s[..|s| - 1];
      j := EndIsTrimmed(init);
      forall k | j <= k < |s| ensures IsSpace(s[k]) { if k < |s| - 1 { assert s[k] == init[k]; } }
    } else {
      j := |s|;
    }
  }

  /** Trimming takes off the white space at both ends and nothing else. */
  lemma TrimTakesOffSpaces(s: string) returns (i: nat, j: nat)
    ensures i <= j <= |s| && Trim(s) == s[i..j]
    ensures forall k | 0 <= k < i || j <= k < |s| :: IsSpace(s[k])
    ensures i < j ==> !IsSpace(s[i]) && !IsSpace(s[j - 1])
  {
    i := StartIsTrimmed(s);
    var n := EndIsTrimmed(s[i..]);
    j := i + n;
    forall k | j <= k < |s| ensures IsSpace(s[k]) { assert s[k] == s[i..][k - i]; }
    if i < j { assert s[i] == s[i..][0] && s[j - 1] == s[i..][n - 1]; }
  }

  const CAPITALS := "ABCDEFGHIJKLMNOPQRSTUVWXYZ"
  const SMALL_LETTERS := "abcdefghijklmnopqrstuvwxyz"
  const DIGITS := "0123456789"
  const SIGNS := "._:-"

  lemma Letters(c: char)
    ensures (c in CAPITALS <==> 'A' <= c <= 'Z') && (c in SMALL_LETTERS <==> 'a' <= c <= 'z')
  {
    assert forall i | 0 <= i < 26 :: CAPITALS[i] as int == 'A' as int + i;
    assert forall i | 0 <= i < 26 :: SMALL_LETTERS[i] as int == 'a' as int + i;
    if 'A' <= c <= 'Z' { assert CAPITALS[c as int - 'A' as int] == c; }
    if 'a' <= c <= 'z' { assert SMALL_LETTERS[c as int - 'a' as int] == c; }
  }

  lemma DigitsAndSigns(c: char)
    ensures (c in DIGITS <==> '0' <= c <= '9') && (c in SIGNS <==> c in {'.', '_', ':', '-'})
  {
    assert forall i | 0 <= i < 10 :: DIGITS[i] as int == '0' as int + i;
    if '0' <= c <= '9' { assert DIGITS[c as int - '0' as int] == c; }
    assert SIGNS == ['.', '_', ':', '-'];
  }

  /** A key is 8 to 100 letters, digits and signs of its pattern. */
  lemma KeysAreSpelled(s: string)
    ensures IsKey(s) <==> 8 <= |s| <= 100
                          && forall c | c in s :: c in CAPITALS || c in SMALL_LETTERS || c in DIGITS || c in SIGNS
  {
    forall c: char ensures c in CAPITALS || c in SMALL_LETTERS || c in DIGITS || c in SIGNS <==> IsKeyChar(c) {
      Letters(c);
      DigitsAndSigns(c);
    }
    assert (forall c | c in s :: IsKeyChar(c)) <==> forall i | 0 <= i < |s| :: IsKeyChar(s[i]);
  }

  function Value(s: string): int {
    if s == [] then 0 else 10 * Value(s[..|s| - 1]) + (s[|s| - 1] as int - '0' as int)
  }

  lemma {:induction false} DigitsHaveValue(n: nat)
    ensures Value(Digits(n)) == n && |Digits(n)| > 0 && '#' !in Digits(n)
  {
    if n < 10 {
      assert Digits(n)[..0] == [];
    } else {
      DigitsHaveValue(n / 10);
      var s := Digits(n);
      assert s[..|s| - 1] == Digits(n / 10);
    }
  }

  lemma HashInside(a: string, x: string, b: string, y: string)
    requires a + "#" + x == b + "#" + y && |a| < |b|
    ensures '#' in b
  {
    assert (b + "#" + y)[|a|] == b[|a|];
    assert (a + "#" + x)[|a|] == '#';
  }

  lemma FirstHash(a: string, x: string, b: string, y: string)
    requires '#' !in a && '#' !in b && a + "#" + x == b + "#" + y
    ensures a == b && x == y
  {
    var s, t := a + "#" + x, b + "#" + y;
    assert |a| >= |b| by { if |a| < |b| { HashInside(a, x, b, y); } }
    assert |b| >= |a| by { if |b| < |a| { HashInside(b, y, a, x); } }
    assert a == s[..|a|] && b == t[..|a|];
    assert x == s[|a| + 1..] && y == t[|a| + 1..];
  }

  lemma KeysHaveNoHash(s: string)
    requires IsKey(s)
    ensures '#' !in s
  {
  }

  /** Item keys are injective in the request key and the index, and no client can send one. */
  lemma ItemKeysAreDistinct(key: string, index: nat, other: string, otherIndex: nat)
    requires IsKey(key) && IsKey(other)
    ensures ItemKey(key, index) == ItemKey(other, otherIndex) ==> key == other && index == otherIndex
    ensures !IsKey(ItemKey(key, index))
  {
    KeysHaveNoHash(key);
    KeysHaveNoHash(other);
    DigitsHaveValue(index);
    DigitsHaveValue(otherIndex);
    if ItemKey(key, index) == ItemKey(other, otherIndex) {
      FirstHash(key, Digits(index), other, Digits(otherIndex));
    }
    assert ItemKey(key, index)[|key|] == '#';
  }

  /** Under one key, item keys differ by index, whatever the key is. */
  lemma PlacesHaveTheirKeys(key: string, i: nat, j: nat)
    ensures ItemKey(key, i) == ItemKey(key, j) ==> i == j
  {
    DigitsHaveValue(i);
    DigitsHaveValue(j);
    if ItemKey(key, i) == ItemKey(key, j) {
      assert Digits(i) == ItemKey(key, i)[|key| + 1..] && Digits(j) == ItemKey(key, j)[|key| + 1..];
    }
  }
}
