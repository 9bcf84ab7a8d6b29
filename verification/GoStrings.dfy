/** The parts of Go's strings and strconv packages that the gateway relies on. */
module GoStrings {

  /** An error return next to a value; Go's `(int, error)`. */
  datatype Parsed = Number(value: int) | Malformed

  const MAX_INT := 0x7fff_ffff_ffff_ffff

  // ----- splitting -----

  /** Puts a character in front: a separator starts a new part. */
  function Before(c: char, sep: char, parts: seq<string>): (r: seq<string>)
    requires parts != []
    ensures r != []
  {
    if c == sep then [""] + parts else [[c] + parts[0]] + parts[1..]
  }

  /** The parts of `s` between the separators; there is one part more than there are separators. */
  function Split(s: string, sep: char): (parts: seq<string>)
    ensures parts != []
  {
    if s == [] then [""] else Before(s[0], sep, Split(s[1..], sep))
  }

  lemma {:induction false} SplitWithout(s: string, sep: char)
    requires sep !in s
    ensures Split(s, sep) == [s]
  {
    if s != [] {
      SplitWithout(s[1..], sep);
      assert [s[0]] + s[1..] == s;
    }
  }

  lemma BeforeFirst(c: char, sep: char, p: seq<string>, q: seq<string>)
    requires p != []
    ensures Before(c, sep, p + q) == Before(c, sep, p) + q
  {
    assert (p + q)[1..] == p[1..] + q;
  }

  /** Splitting distributes over a separator. */
  lemma {:induction false} SplitAt(a: string, sep: char, b: string)
    ensures Split(a + [sep] + b, sep) == Split(a, sep) + Split(b, sep)
  {
    var s := a + [sep] + b;
    if a == [] {
      assert s[1..] == b;
    } else {
      SplitAt(a[1..], sep, b);
      assert s[0] == a[0] && s[1..] == a[1..] + [sep] + b;
      BeforeFirst(a[0], sep, Split(a[1..], sep), Split(b, sep));
    }
  }

  function Last(parts: seq<string>): string
    requires parts != []
  {
    parts[|parts| - 1]
  }

  // ----- decimal numbers -----

  predicate IsDigit(c: char) {
    '0' <= c <= '9'
  }

  function DigitValue(c: char): nat
    requires IsDigit(c)
  {
    (c - '0') as nat
  }

  function DigitChar(d: nat): (c: char)
    requires d < 10
    ensures IsDigit(c) && DigitValue(c) == d
  {
    '0' + (d as char)
  }

  function DigitsValue(s: string): nat
    requires forall c <- s :: IsDigit(c)
  {
    if s == [] then 0 else 10 * DigitsValue(s[..|s| - 1]) + DigitValue(s[|s| - 1])
  }

  /** strconv.Atoi on 64-bit integers: an optional sign, at least one digit, and no overflow. */
  function Atoi(s: string): Parsed {
    var digits := if s != [] && (s[0] == '+' || s[0] == '-') then s[1..] else s;
    if digits == [] || exists c <- digits :: !IsDigit(c) then Malformed
    else if s[0] == '-' then
      if DigitsValue(digits) <= MAX_INT + 1 then Number(-(DigitsValue(digits) as int)) else Malformed
    else
      if DigitsValue(digits) <= MAX_INT then Number(DigitsValue(digits)) else Malformed
  }

  /** `n` in decimal, padded with zeros to at least `width` digits. */
  function Decimal(n: nat, width: nat): (s: string)
    ensures forall c <- s :: IsDigit(c)
    ensures DigitsValue(s) == n && |s| >= width && (n > 0 ==> s != [])
    decreases n + width
  {
    if n == 0 && width == 0 then ""
    else Decimal(n / 10, if width == 0 then 0 else width - 1) + [DigitChar(n % 10)]
  }

  lemma AtoiOfDigits(d: string)
    requires d != [] && forall c <- d :: IsDigit(c)
    ensures Atoi(d) == if DigitsValue(d) <= MAX_INT then Number(DigitsValue(d)) else Malformed
  {
    assert IsDigit(d[0]);
  }

  // ----- trimming -----

  function TrimLeft(s: string, cut: char): string {
    if s != [] && s[0] == cut then TrimLeft(s[1..], cut) else s
  }

  function TrimRight(s: string, cut: char): string {
    if s != [] && s[|s| - 1] == cut then TrimRight(s[..|s| - 1], cut) else s
  }

  function Trim(s: string, cut: char): string {
    TrimRight(TrimLeft(s, cut), cut)
  }
}
