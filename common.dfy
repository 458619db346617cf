/** Small building blocks shared by the whole model: an Option type for the
    values a JSON body or a SQL row may lack, the string helpers the controllers
    lean on (String.prototype.trim, toLowerCase, split(' ') and the e-mail
    regular expression), and decimal rendering of naturals. */
module Common {

  datatype Option<+T> = None | Some(value: T)

  /** SQL `SUM` over `count` rows whose terms add up to `total`: NULL when
      there are no rows, as MySQL answers for an empty table. */
  function SqlSum<T>(count: nat, total: T): Option<T> {
    if count == 0 then None else Some(total)
  }

  // ---------------------------------------------------------------------------
  // Whitespace and trim
  // ---------------------------------------------------------------------------

  /** The ASCII whitespace characters matched by `\s` and removed by `trim()`. */
  predicate IsWhite(c: char) {
    c == ' ' || c == '\t' || c == '\n' || c == '\r' || c == '\U{000B}' || c == '\U{000C}'
  }

  function TrimStart(s: string): (r: string)
    ensures |r| <= |s| && r == s[|s| - |r|..]
    ensures r == [] || !IsWhite(r[0])
    ensures forall i :: 0 <= i < |s| - |r| ==> IsWhite(s[i])
  {
    if s == [] || !IsWhite(s[0]) then s else TrimStart(s[1..])
  }

  function TrimEnd(s: string): (r: string)
    ensures |r| <= |s| && r == s[..|r|]
    ensures r == [] || !IsWhite(r[|r| - 1])
    ensures forall i :: |r| <= i < |s| ==> IsWhite(s[i])
  {
    if s == [] || !IsWhite(s[|s| - 1]) then s else TrimEnd(s[..|s| - 1])
  }

  /** JavaScript's `s.trim()`. */
  function Trim(s: string): string {
    TrimEnd(TrimStart(s))
  }

  /** `!s || !s.trim()`: the string holds nothing but whitespace. */
  predicate IsBlank(s: string) {
    Trim(s) == []
  }

  /** `!x || !x.trim()` on an optional body string. */
  predicate Blank(s: Option<string>) {
    s.None? || IsBlank(s.value)
  }

  predicate NoWhite(s: string) {
    forall i :: 0 <= i < |s| ==> !IsWhite(s[i])
  }

  lemma TrimShape(s: string)
    ensures var t := Trim(s); t == [] || (!IsWhite(t[0]) && !IsWhite(t[|t| - 1]))
    ensures exists a, b :: 0 <= a <= b <= |s| && Trim(s) == s[a..b]
  {
    var u := TrimStart(s);
    var t := TrimEnd(u);
    if t != [] {
      assert t[0] == u[0];
    }
    var a := |s| - |u|;
    assert t == s[a..a + |t|];
  }

  lemma {:induction false} TrimIdempotent(s: string)
    ensures Trim(Trim(s)) == Trim(s)
  {
    TrimShape(s);
    var t := Trim(s);
    assert TrimStart(t) == t;
    assert TrimEnd(t) == t;
  }

  /** A string without whitespace is its own trim. */
  lemma TrimNoWhite(s: string)
    requires NoWhite(s)
    ensures Trim(s) == s
  {
    assert TrimStart(s) == s;
    assert TrimEnd(s) == s;
  }

  /** Blank exactly when every character is whitespace. */
  lemma BlankIffAllWhite(s: string)
    ensures IsBlank(s) <==> forall i :: 0 <= i < |s| ==> IsWhite(s[i])
  {
    var u := TrimStart(s);
    assert u != [] ==> !IsWhite(u[0]);
  }

  // ---------------------------------------------------------------------------
  // Case
  // ---------------------------------------------------------------------------

  function LowerChar(c: char): char {
    if 'A' <= c <= 'Z' then (c as int + 32) as char else c
  }

  function UpperChar(c: char): char {
    if 'a' <= c <= 'z' then (c as int - 32) as char else c
  }

  /** `s.toLowerCase()` on ASCII letters. */
  function ToLower(s: string): (r: string)
    ensures |r| == |s|
    ensures forall i :: 0 <= i < |s| ==> r[i] == LowerChar(s[i])
  {
    seq(|s|, i requires 0 <= i < |s| => LowerChar(s[i]))
  }

  /** `s.toUpperCase()` on ASCII letters. */
  function ToUpper(s: string): (r: string)
    ensures |r| == |s|
    ensures forall i :: 0 <= i < |s| ==> r[i] == UpperChar(s[i])
  {
    seq(|s|, i requires 0 <= i < |s| => UpperChar(s[i]))
  }

  /** The e-mail key every lookup in the user table uses: `correo.trim().toLowerCase()`. */
  function NormalizeEmail(s: string): string {
    ToLower(Trim(s))
  }

  lemma ToLowerIdempotent(s: string)
    ensures ToLower(ToLower(s)) == ToLower(s)
  {
  }

  // ---------------------------------------------------------------------------
  // The e-mail pattern /^[^\s@]+@[^\s@]+\.[^\s@]+$/
  // ---------------------------------------------------------------------------

  /** Exactly one '@', not first; no whitespace; after the '@' a '.' that has at
      least one character on each side. */
  predicate EmailPattern(s: string) {
    NoWhite(s) &&
    exists a :: 0 < a < |s| && s[a] == '@' &&
      (forall i :: 0 <= i < |s| && i != a ==> s[i] != '@') &&
      (exists d :: a + 1 < d < |s| - 1 && s[d] == '.')
  }

  /** A string the pattern accepts is untouched by trim. */
  lemma EmailPatternTrimmed(s: string)
    requires EmailPattern(s)
    ensures Trim(s) == s && !IsBlank(s)
  {
    TrimNoWhite(s);
  }

  // ---------------------------------------------------------------------------
  // split(' ')
  // ---------------------------------------------------------------------------

  /** Index of the first ' ' in `s`, if any. */
  function FirstSpace(s: string): (r: Option<nat>)
    ensures r.None? ==> forall i :: 0 <= i < |s| ==> s[i] != ' '
    ensures r.Some? ==> r.value < |s| && s[r.value] == ' ' &&
                        forall i :: 0 <= i < r.value ==> s[i] != ' '
  {
    if s == [] then None
    else if s[0] == ' ' then Some(0)
    else match FirstSpace(s[1..])
      case None => None
      case Some(k) => Some(k + 1)
  }

  /** `s.split(' ')[0]`. */
  function BeforeFirstSpace(s: string): string {
    match FirstSpace(s)
    case None => s
    case Some(k) => s[..k]
  }

  /** `s.split(' ').slice(1).join(' ')`: everything after the first space. */
  function AfterFirstSpace(s: string): string {
    match FirstSpace(s)
    case None => []
    case Some(k) => s[k + 1..]
  }

  /** `s.split(' ')[1]`, or None when there is no second piece. */
  function SecondPiece(s: string): Option<string> {
    match FirstSpace(s)
    case None => None
    case Some(k) => Some(BeforeFirstSpace(s[k + 1..]))
  }

  // ---------------------------------------------------------------------------
  // Substrings
  // ---------------------------------------------------------------------------

  predicate Contains(s: string, q: string) {
    exists i :: 0 <= i <= |s| && q <= s[i..]
  }

  // ---------------------------------------------------------------------------
  // Decimal rendering (Number.prototype.toString on naturals)
  // ---------------------------------------------------------------------------

  predicate IsDigit(c: char) {
    '0' <= c <= '9'
  }

  function DigitChar(d: nat): char
    requires d < 10
  {
    ('0' as int + d) as char
  }

  function DigitValue(c: char): nat
    requires IsDigit(c)
  {
    c as int - '0' as int
  }

  /** Decimal digits of `n`, most significant first, no leading zero. */
  function NatToString(n: nat): (r: string)
    ensures |r| >= 1
    ensures forall i :: 0 <= i < |r| ==> IsDigit(r[i])
    decreases n
  {
    if n < 10 then [DigitChar(n)] else NatToString(n / 10) + [DigitChar(n % 10)]
  }

  /** The value of a string of decimal digits. */
  function ParseNat(s: string): nat
    requires forall i :: 0 <= i < |s| ==> IsDigit(s[i])
  {
    if s == [] then 0 else 10 * ParseNat(s[..|s| - 1]) + DigitValue(s[|s| - 1])
  }

  lemma {:induction false} ParseNatToString(n: nat)
    ensures ParseNat(NatToString(n)) == n
    decreases n
  {
    var r := NatToString(n);
    if n >= 10 {
      ParseNatToString(n / 10);
      assert r[..|r| - 1] == NatToString(n / 10);
    }
  }

  /** A number of `k + 1` digits renders with exactly `k + 1` characters and no leading zero. */
  lemma {:induction false} NatToStringLength(n: nat, k: nat)
    requires Pow10(k) <= n < Pow10(k + 1)
    ensures |NatToString(n)| == k + 1
    ensures NatToString(n)[0] != '0'
    decreases k
  {
    if k == 0 {
    } else {
      NatToStringLength(n / 10, k - 1);
      assert NatToString(n)[0] == NatToString(n / 10)[0];
    }
  }

  function Pow10(k: nat): (r: nat)
    ensures r >= 1
  {
    if k == 0 then 1 else 10 * Pow10(k - 1)
  }
}
