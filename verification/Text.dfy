/**
 Strings as the protocol crate reads them: trimming, bounds, identifiers, lower-case
 hexadecimal, decimal byte counts and the byte-wise order of Rust strings.
 */
module Text {
  import opened Contract

  /** Unicode White_Space: the characters `str::trim` removes. */
  predicate IsWhite(c: char) {
    || '\t' <= c <= '\r' || c == ' ' || c == '\U{85}' || c == '\U{A0}' || c == '\U{1680}'
    || '\U{2000}' <= c <= '\U{200A}' || c == '\U{2028}' || c == '\U{2029}' || c == '\U{202F}'
    || c == '\U{205F}' || c == '\U{3000}'
  }

  function TrimStart(s: string): string {
    if s != [] && IsWhite(s[0]) then TrimStart(s[1..]) else s
  }

  function TrimEnd(s: string): string {
    if s != [] && IsWhite(s[|s| - 1]) then TrimEnd(s[..|s| - 1]) else s
  }

  function Trim(s: string): string {
    TrimEnd(TrimStart(s))
  }

  /** No whitespace at either end. */
  predicate Tight(s: string) {
    s == [] || (!IsWhite(s[0]) && !IsWhite(s[|s| - 1]))
  }

  lemma {:induction false} TrimStartFront(s: string)
    ensures var t := TrimStart(s); t == [] || !IsWhite(t[0])
    ensures |TrimStart(s)| <= |s|
  {
    if s != [] && IsWhite(s[0]) { TrimStartFront(s[1..]); }
  }

  lemma {:induction false} TrimEndKeepsFront(s: string)
    requires s == [] || !IsWhite(s[0])
    ensures Tight(TrimEnd(s)) && TrimEnd(s) <= s && (s != [] ==> TrimEnd(s) != [])
  {
    if s != [] && IsWhite(s[|s| - 1]) { TrimEndKeepsFront(s[..|s| - 1]); }
  }

  /** Trimming leaves no outer whitespace, never lengthens, and changes nothing a second time. */
  lemma TrimSettles(s: string)
    ensures Tight(Trim(s)) && |Trim(s)| <= |s| && Trim(Trim(s)) == Trim(s)
  {
    TrimStartFront(s);
    TrimEndKeepsFront(TrimStart(s));
  }

  lemma TightIsFixed(s: string)
    requires Tight(s)
    ensures Trim(s) == s
  {
  }

  /** A prefix that starts with a visible character survives trimming. */
  lemma {:induction false} TrimKeepsPrefix(s: string, p: string)
    requires p <= s && p != [] && Tight(p)
    ensures p <= Trim(s)
  {
    assert s[0] == p[0];
    assert TrimStart(s) == s;
    TrimEndKeepsPrefix(s, p);
  }

  lemma {:induction false} TrimEndKeepsPrefix(s: string, p: string)
    requires p <= s && p != [] && Tight(p)
    ensures p <= TrimEnd(s)
  {
    if IsWhite(s[|s| - 1]) {
      assert s[|p| - 1] == p[|p| - 1];
      TrimEndKeepsPrefix(s[..|s| - 1], p);
    }
  }

  /** tags.rs `bounded`: trimmed, non-empty and at most `max` characters. */
  function Bounded(s: string, max: nat): Option<string> {
    var t := Trim(s);
    if t != [] && |t| <= max then Some(t) else None
  }

  lemma BoundedSettles(s: string, max: nat)
    requires Bounded(s, max).Some?
    ensures Bounded(s, max) == Some(Trim(s)) == Bounded(Trim(s), max) && s != [] && Trim(s) != []
  {
    TrimSettles(s);
  }

  predicate IsIdentifierChar(c: char) {
    'a' <= c <= 'z' || 'A' <= c <= 'Z' || '0' <= c <= '9' || c == '-' || c == '_'
  }

  predicate IsIdentifier(s: string) {
    0 < |s| <= 64 && forall i :: 0 <= i < |s| ==> IsIdentifierChar(s[i])
  }

  lemma IdentifierIsTight(s: string)
    requires IsIdentifier(s)
    ensures Trim(s) == s
  {
    TightIsFixed(s);
  }

  predicate IsLowerHexChar(c: char) {
    '0' <= c <= '9' || 'a' <= c <= 'f'
  }

  predicate IsLowerHex(s: string, length: nat) {
    |s| == length && forall i :: 0 <= i < |s| ==> IsLowerHexChar(s[i])
  }

  predicate StartsWith(s: string, p: string) {
    p <= s
  }

  // ----- decimal numbers -----

  const U64_MAX := 0xFFFF_FFFF_FFFF_FFFF

  predicate IsDigit(c: char) {
    '0' <= c <= '9'
  }

  predicate AllDigits(s: string) {
    forall i :: 0 <= i < |s| ==> IsDigit(s[i])
  }

  function DecimalValue(s: string): nat
    requires AllDigits(s)
  {
    if s == [] then 0
    else 10 * DecimalValue(s[..|s| - 1]) + (s[|s| - 1] as int - '0' as int)
  }

  /** `u64::to_string`. */
  function Decimal(n: nat): string {
    var last := [('0' as int + n % 10) as char];
    if n < 10 then last else Decimal(n / 10) + last
  }

  /** `str::parse::<u64>`: one optional plus sign, digits, and no overflow. */
  function ParseU64(s: string): Option<nat> {
    var digits := if s != [] && s[0] == '+' then s[1..] else s;
    if digits == [] || !AllDigits(digits) || DecimalValue(digits) > U64_MAX then None
    else Some(DecimalValue(digits))
  }

  lemma {:induction false} DecimalReads(n: nat)
    ensures Decimal(n) != [] && AllDigits(Decimal(n)) && DecimalValue(Decimal(n)) == n
  {
    var last := [('0' as int + n % 10) as char];
    if n < 10 {
      assert last[..0] == [];
    } else {
      DecimalReads(n / 10);
      var s := Decimal(n / 10) + last;
      assert s[..|s| - 1] == Decimal(n / 10);
    }
  }

  /** Every u64 is read back from its own decimal text, and nothing beyond u64 is. */
  lemma DecimalRoundTrip(n: nat)
    ensures ParseU64(Decimal(n)) == if n <= U64_MAX then Some(n) else None
  {
    DecimalReads(n);
    assert IsDigit(Decimal(n)[0]);
  }

  // ----- splitting at a separator -----

  lemma SplitAtFirst(c: char, a: string, b: string, x: string, y: string)
    requires c !in a && c !in x && a + ([c] + b) == x + ([c] + y)
    ensures a == x && b == y
  {
    var s := a + ([c] + b);
    assert s == x + ([c] + y);
    assert s[|a|] == c && s[|x|] == c;
    assert forall k :: 0 <= k < |a| ==> s[k] == a[k] && s[k] != c;
    assert forall k :: 0 <= k < |x| ==> s[k] == x[k] && s[k] != c;
    assert |a| == |x|;
    assert s[..|a|] == a && s[..|x|] == x && s[|a| + 1..] == b && s[|x| + 1..] == y;
  }

  lemma SplitAtLast(c: char, a: string, b: string, x: string, y: string)
    requires c !in b && c !in y && a + ([c] + b) == x + ([c] + y)
    ensures a == x && b == y
  {
    var s := a + ([c] + b);
    assert s == x + ([c] + y);
    assert s[|a|] == c && s[|x|] == c;
    assert forall k :: |a| < k < |s| ==> s[k] == b[k - |a| - 1] && s[k] != c;
    assert forall k :: |x| < k < |s| ==> s[k] == y[k - |x| - 1] && s[k] != c;
    assert |a| == |x|;
    assert s[..|a|] == a && s[..|x|] == x && s[|a| + 1..] == b && s[|x| + 1..] == y;
  }

  function Elements(values: seq<string>): set<string> {
    set v | v in values
  }

  // ----- the order of Rust strings -----

  /** Strict lexicographic order by character, which is the byte order of UTF-8 text. */
  predicate Below(a: string, b: string) {
    b != [] && (a == [] || a[0] < b[0] || (a[0] == b[0] && Below(a[1..], b[1..])))
  }

  lemma {:induction false} BelowIrreflexive(a: string)
    ensures !Below(a, a)
  {
    if a != [] { BelowIrreflexive(a[1..]); }
  }

  lemma {:induction false} BelowTransitive(a: string, b: string, c: string)
    requires Below(a, b) && Below(b, c)
    ensures Below(a, c)
  {
    if a != [] && a[0] == b[0] && b[0] == c[0] { BelowTransitive(a[1..], b[1..], c[1..]); }
  }

  lemma {:induction false} BelowTotal(a: string, b: string)
    ensures a == b || Below(a, b) || Below(b, a)
  {
    if a != [] && b != [] && a[0] == b[0] {
      BelowTotal(a[1..], b[1..]);
      if a[1..] == b[1..] { assert a == [a[0]] + a[1..] && b == [b[0]] + b[1..]; }
    }
  }
}
