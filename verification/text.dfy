/** The string operations that routing and header handling rely on. */
module Text {
  import opened Common

  /** `split(sep)`: the pieces of a string between separators, of which there is always one. */
  function Split(s: string, sep: char): (r: seq<string>)
    ensures r != []
  {
    if s == "" then [""]
    else
      var rest := Split(s[1..], sep);
      if s[0] == sep then [""] + rest else [[s[0]] + rest[0]] + rest[1..]
  }

  /** `p` reaches from the start of `s` to its first separator. */
  ghost predicate FirstPiece(s: string, sep: char, p: string) {
    && p <= s && sep !in p
    && (|p| < |s| ==> s[|p|] == sep)
  }

  /** `p` stands in `s` right after a separator and reaches to the next one. */
  ghost predicate LaterPieceAt(s: string, sep: char, p: string, k: nat) {
    0 < k <= |s| && s[k - 1] == sep && FirstPiece(s[k..], sep, p)
  }

  ghost predicate LaterPiece(s: string, sep: char, p: string) {
    exists k: nat :: LaterPieceAt(s, sep, p, k)
  }

  lemma {:induction false} SplitGivesFirst(s: string, sep: char, p: string)
    ensures p == Split(s, sep)[0] <==> FirstPiece(s, sep, p)
  {
    if s != "" && s[0] != sep {
      var first := Split(s[1..], sep)[0];
      SplitGivesFirst(s[1..], sep, first);
      assert s == [s[0]] + s[1..];
      if FirstPiece(s, sep, p) {
        assert p != "";
        SplitGivesFirst(s[1..], sep, p[1..]);
        assert FirstPiece(s[1..], sep, p[1..]);
        assert p == [p[0]] + p[1..];
      }
    }
  }

  lemma {:induction false} SplitGivesLater(s: string, sep: char, p: string)
    ensures p in Split(s, sep)[1..] <==> LaterPiece(s, sep, p)
  {
    if s != "" {
      var t := s[1..];
      SplitGivesLater(t, sep, p);
      SplitGivesFirst(t, sep, p);
      if LaterPiece(t, sep, p) {
        var k: nat :| LaterPieceAt(t, sep, p, k);
        assert t[k..] == s[k + 1..];
        assert LaterPieceAt(s, sep, p, k + 1);
      }
      if s[0] == sep && FirstPiece(t, sep, p) {
        assert LaterPieceAt(s, sep, p, 1);
      }
      if LaterPiece(s, sep, p) {
        var k: nat :| LaterPieceAt(s, sep, p, k);
        if k > 1 {
          assert t[k - 1..] == s[k..];
          assert LaterPieceAt(t, sep, p, k - 1);
        }
      }
      if s[0] == sep {
        assert Split(s, sep)[1..] == Split(t, sep);
        assert Split(t, sep) == [Split(t, sep)[0]] + Split(t, sep)[1..];
      } else {
        assert Split(s, sep)[1..] == Split(t, sep)[1..];
      }
    }
  }

  /** The split's elements are exactly the maximal pieces without a separator. */
  lemma SplitGivesPieces(s: string, sep: char, p: string)
    ensures p in Split(s, sep) <==> FirstPiece(s, sep, p) || LaterPiece(s, sep, p)
  {
    SplitGivesFirst(s, sep, p);
    SplitGivesLater(s, sep, p);
    var r := Split(s, sep);
    assert r == [r[0]] + r[1..];
  }

  predicate Blank(c: char) {
    c == ' ' || c == '\t'
  }

  /** `trim`, on text whose only white space is blanks and tabs. */
  function Trim(s: string): string
    decreases |s|
  {
    if s != "" && Blank(s[0]) then Trim(s[1..])
    else if s != "" && Blank(s[|s| - 1]) then Trim(s[..|s| - 1])
    else s
  }

  predicate Blanks(s: string) {
    forall i :: 0 <= i < |s| ==> s[i] == ' ' || s[i] == '\t'
  }

  /** Trimming takes away nothing but blanks, from the two ends. */
  lemma {:induction false} TrimIsInner(s: string) returns (before: string, after: string)
    ensures s == before + Trim(s) + after && Blanks(before) && Blanks(after)
    decreases |s|
  {
    if s != "" && Blank(s[0]) {
      var b, a := TrimIsInner(s[1..]);
      before, after := [s[0]] + b, a;
      assert s == [s[0]] + s[1..];
    } else if s != "" && Blank(s[|s| - 1]) {
      var b, a := TrimIsInner(s[..|s| - 1]);
      before, after := b, a + [s[|s| - 1]];
      assert s == s[..|s| - 1] + [s[|s| - 1]];
    } else {
      before, after := "", "";
    }
  }

  /** And it takes them all. */
  lemma {:induction false} TrimTakesAll(s: string)
    ensures var t := Trim(s);
            t != "" ==> t[0] != ' ' && t[0] != '\t' && t[|t| - 1] != ' ' && t[|t| - 1] != '\t'
    decreases |s|
  {
    if s != "" && Blank(s[0]) {
      TrimTakesAll(s[1..]);
    } else if s != "" && Blank(s[|s| - 1]) {
      TrimTakesAll(s[..|s| - 1]);
    }
  }

  const UPPER := "ABCDEFGHIJKLMNOPQRSTUVWXYZ"
  const LOWER := "abcdefghijklmnopqrstuvwxyz"

  /** Each capital letter becomes the small letter with the same place in the alphabet; nothing else changes. */
  lemma LowerIsSmall(s: string, i: nat)
    requires i < |s|
    ensures forall k :: 0 <= k < 26 && s[i] == UPPER[k] ==> Lower(s)[i] == LOWER[k]
    ensures s[i] !in UPPER ==> Lower(s)[i] == s[i]
  {
    forall k | 0 <= k < 26 ensures UPPER[k] as int == 'A' as int + k && LOWER[k] as int == 'a' as int + k {
      Alphabet(k);
    }
    if 'A' <= s[i] <= 'Z' {
      assert s[i] == UPPER[s[i] as int - 'A' as int];
    }
  }

  lemma Alphabet(k: nat)
    requires k < 26
    ensures UPPER[k] as int == 'A' as int + k && LOWER[k] as int == 'a' as int + k
  {
  }

  function Lower(s: string): (r: string)
    ensures |r| == |s|
  {
    seq(|s|, i requires 0 <= i < |s| => if 'A' <= s[i] <= 'Z' then ((s[i] as int + 32) as char) else s[i])
  }

  // ---------------------------------------------------------------------------------------------
  // Decimal numbers
  // ---------------------------------------------------------------------------------------------

  function Decimal(n: nat): (s: string)
    ensures s != ""
  {
    (if n < 10 then "" else Decimal(n / 10)) + [(n % 10 + '0' as int) as char]
  }

  predicate Digits(s: string) {
    forall i :: 0 <= i < |s| ==> '0' <= s[i] <= '9'
  }

  /** `parse::<u64>()`: an optional plus sign and digits, if the value fits. */
  function ParseU64(s: string): Option<nat> {
    var digits := if s != "" && s[0] == '+' then s[1..] else s;
    if digits == "" || !Digits(digits) then None
    else
      var value := ValueOf(digits);
      if value < TWO_64 then Some(value) else None
  }

  function ValueOf(digits: string): nat
    requires Digits(digits)
  {
    if digits == "" then 0
    else 10 * ValueOf(digits[..|digits| - 1]) + (digits[|digits| - 1] as int - '0' as int)
  }

  lemma {:induction false} DecimalDigits(n: nat)
    ensures Digits(Decimal(n))
    ensures ValueOf(Decimal(n)) == n
  {
    if n >= 10 {
      DecimalDigits(n / 10);
      assert Decimal(n)[..|Decimal(n)| - 1] == Decimal(n / 10);
    }
  }

  /** Parsing gives every printed 64-bit number back. */
  lemma ParseInvertsDecimal(n: nat)
    requires n < TWO_64
    ensures ParseU64(Decimal(n)) == Some(n)
  {
    DecimalDigits(n);
    assert Decimal(n)[0] != '+';
  }

  function Zeroes(k: nat): string {
    seq(k, _ => '0')
  }

  lemma {:induction false} LeadingZeros(k: nat, digits: string)
    requires Digits(digits)
    ensures Digits(Zeroes(k) + digits) && ValueOf(Zeroes(k) + digits) == ValueOf(digits)
    decreases |digits|, k
  {
    var all := Zeroes(k) + digits;
    if digits != "" {
      LeadingZeros(k, digits[..|digits| - 1]);
      assert all[..|all| - 1] == Zeroes(k) + digits[..|digits| - 1];
    } else if k > 0 {
      LeadingZeros(k - 1, digits);
      assert all[..|all| - 1] == Zeroes(k - 1) + digits;
    }
  }

  function Figure(d: nat): char
    requires d < 10
  {
    (d + '0' as int) as char
  }

  lemma LastFigure(v: nat, d: nat)
    requires d < 10
    ensures Decimal(10 * v + d) == if v == 0 then [Figure(d)] else Decimal(v) + [Figure(d)]
  {
    assert (10 * v + d) / 10 == v && (10 * v + d) % 10 == d;
  }

  lemma LastDigit(digits: string) returns (front: string, d: nat)
    requires digits != "" && Digits(digits)
    ensures d < 10 && digits == front + [Figure(d)] && Digits(front) && ValueOf(digits) == 10 * ValueOf(front) + d
  {
    front := digits[..|digits| - 1];
    d := digits[|digits| - 1] as int - '0' as int;
  }

  /** Every string of digits is a printed number with zeros in front. */
  lemma {:induction false} DigitsAreDecimal(digits: string) returns (k: nat)
    requires digits != "" && Digits(digits)
    ensures digits == Zeroes(k) + Decimal(ValueOf(digits))
    decreases |digits|
  {
    hide Decimal, ValueOf, Digits;
    var front, d := LastDigit(digits);
    if front == "" {
      k := 0;
      NothingIsZero();
      LastFigure(0, d);
    } else {
      k := DigitsAreDecimal(front);
      LastFigure(ValueOf(front), d);
      if ValueOf(front) == 0 {
        LastFigure(0, 0);
        k := k + 1;
        assert front == Zeroes(k - 1) + "0" == Zeroes(k);
      } else {
        assert digits == Zeroes(k) + Decimal(ValueOf(front)) + [Figure(d)];
      }
    }
  }

  lemma NothingIsZero()
    ensures ValueOf("") == 0
  {
  }

  ghost predicate Written(s: string, n: nat, plus: bool, k: nat) {
    s == (if plus then "+" else "") + (Zeroes(k) + Decimal(n))
  }

  /** What parses as `n` is `n` as it is printed, with any number of zeros and at most one plus sign in
      front, as long as it fits 64 bits. */
  lemma ParsesExactly(s: string, n: nat)
    ensures ParseU64(s) == Some(n) <==> n < TWO_64 && exists plus: bool, k: nat :: Written(s, n, plus, k)
  {
    hide ParseU64, Written;
    if ParseU64(s) == Some(n) {
      var plus, k := ParsedIsWritten(s, n);
    }
    if n < TWO_64 && exists plus: bool, k: nat :: Written(s, n, plus, k) {
      var plus: bool, k: nat :| Written(s, n, plus, k);
      WrittenParses(s, n, plus, k);
    }
  }

  lemma ParsedIsWritten(s: string, n: nat) returns (plus: bool, k: nat)
    requires ParseU64(s) == Some(n)
    ensures n < TWO_64 && Written(s, n, plus, k)
  {
    hide Digits, ValueOf, Decimal, Zeroes;
    plus := s != "" && s[0] == '+';
    var digits := if plus then s[1..] else s;
    k := DigitsAreDecimal(digits);
    assert s == (if plus then "+" else "") + digits;
  }

  lemma WrittenParses(s: string, n: nat, plus: bool, k: nat)
    requires n < TWO_64 && Written(s, n, plus, k)
    ensures ParseU64(s) == Some(n)
  {
    DecimalDigits(n);
    LeadingZeros(k, Decimal(n));
    var digits := Zeroes(k) + Decimal(n);
    assert digits != "" && digits[0] != '+' by {
      assert '0' <= digits[0];
    }
    hide Decimal, ValueOf, Digits, Zeroes;
    if plus {
      assert s[1..] == digits;
    } else {
      assert s == digits;
    }
  }
}
