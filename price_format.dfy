/** `formatPrice`: '$' followed by the price's decimal string in which the
    regular expression /\B(?=(\d{3})+(?!\d))/g has put a comma at every
    position it matches. The regular expression is modelled position by
    position; `Group` is an independent definition of the intended grouping,
    and the two are proved to agree on every integer. */
module PriceFormat {

  predicate IsDigit(c: char) {
    '0' <= c <= '9'
  }

  /** `\w`: an ASCII letter, a digit or an underscore. */
  predicate IsWordChar(c: char) {
    IsDigit(c) || 'a' <= c <= 'z' || 'A' <= c <= 'Z' || c == '_'
  }

  predicate AllDigits(s: string) {
    forall i :: 0 <= i < |s| ==> IsDigit(s[i])
  }

  function DigitChar(d: nat): (c: char)
    requires d < 10
    ensures IsDigit(c)
  {
    ('0' as int + d) as char
  }

  /** The decimal digits of `n`, without leading zeros. */
  function Digits(n: nat): (s: string)
    ensures |s| > 0 && AllDigits(s)
    ensures s[0] == '0' ==> n == 0
    ensures n == 0 ==> s == "0"
    decreases n
  {
    if n < 10 then [DigitChar(n)] else Digits(n / 10) + [DigitChar(n % 10)]
  }

  /** The number a string of decimal digits denotes. */
  function Value(s: string): nat
    requires AllDigits(s)
  {
    if s == [] then 0 else 10 * Value(s[..|s| - 1]) + (s[|s| - 1] as int - '0' as int)
  }

  /** `Digits` is the decimal representation: reading it back gives `n`. */
  lemma {:induction false} DigitsValue(n: nat)
    ensures Value(Digits(n)) == n
  {
    if n >= 10 {
      DigitsValue(n / 10);
      var s := Digits(n);
      assert s[..|s| - 1] == Digits(n / 10);
    }
  }

  /** `price.toString()` for an integer price: a minus sign exactly for a
      negative price, then decimal digits. */
  function NumberToString(p: int): (r: string)
    ensures |r| > 0 && (r[0] == '-' <==> p < 0)
    ensures AllDigits(if p < 0 then r[1..] else r)
  {
    if p < 0 then "-" + Digits(-p) else Digits(p)
  }

  // ---------------------------------------------------------------------
  // The regular expression, position by position

  /** Whether the character at `i` exists and is a word character. */
  predicate WordAt(s: string, i: int) {
    0 <= i < |s| && IsWordChar(s[i])
  }

  /** `\B` at position `i`: the characters on both sides are both word
      characters or both not (a missing character is not one). */
  function NotBoundary(s: string, i: int): (r: bool)
    ensures WordAt(s, i) && r ==> 1 <= i && IsWordChar(s[i - 1])
    ensures i == |s| && r ==> !WordAt(s, i - 1)
  {
    WordAt(s, i - 1) == WordAt(s, i)
  }

  /** `(\d{3}){k}(?!\d)` matches at `i`: `3 * k` digits follow, and then no
      digit. */
  predicate GroupsOf3(s: string, i: nat, k: nat) {
    && i + 3 * k <= |s|
    && AllDigits(s[i..i + 3 * k])
    && (i + 3 * k == |s| || !IsDigit(s[i + 3 * k]))
  }

  /** The lookahead `(?=(\d{3})+(?!\d))` at position `i`. */
  function GroupsAhead(s: string, i: nat): (r: bool)
    ensures r ==> i < |s| && IsDigit(s[i])
  {
    exists k: nat :: 1 <= k <= |s| && GroupsOf3(s, i, k)
  }

  /** The whole pattern matches the empty string at position `i`. */
  function CommaAt(s: string, i: nat): (r: bool)
    ensures r ==> 0 < i < |s| && IsDigit(s[i]) && IsWordChar(s[i - 1])
  {
    NotBoundary(s, i) && GroupsAhead(s, i)
  }

  /** What the global replacement makes of the character at `i`: a comma in
      front of it when the pattern matches there. */
  function Piece(s: string, i: nat): string
    requires i < |s|
  {
    (if CommaAt(s, i) then [','] else []) + [s[i]]
  }

  /** The global replacement applied to the first `j` characters (each
      position is judged in the whole string). The end position never
      matches, as no digit follows it. */
  function CommasUpTo(s: string, j: nat): string
    requires j <= |s|
  {
    if j == 0 then [] else CommasUpTo(s, j - 1) + Piece(s, j - 1)
  }

  /** The global replacement only inserts commas: deleting them gives back
      what deleting them from the input gives. */
  function InsertCommas(s: string): (r: string)
    ensures Strip(r) == Strip(s)
  {
    CommasOnlyInserted(s, |s|);
    assert s[..|s|] == s;
    CommasUpTo(s, |s|)
  }

  /** `formatPrice`: '$', then the decimal string with commas inserted;
      deleting the commas gives back the decimal string. */
  function FormatPrice(p: int): (r: string)
    ensures |r| >= 2 && r[0] == '$'
    ensures Strip(r[1..]) == NumberToString(p)
  {
    var ns := NumberToString(p);
    var body := InsertCommas(ns);
    NoCommaInNumber(p);
    StripNoCommas(ns);
    assert Strip([]) == "";
    var r := "$" + body;
    assert r[1..] == body;
    r
  }

  // ---------------------------------------------------------------------
  // The grouping it is meant to produce

  /** A comma before each complete group of three digits, counted from the
      right. */
  function Group(ds: string): string
    decreases |ds|
  {
    if |ds| <= 3 then ds else Group(ds[..|ds| - 3]) + [','] + ds[|ds| - 3..]
  }

  /** `s` with its commas deleted. */
  function Strip(s: string): (r: string)
    ensures ',' !in r
  {
    if s == [] then []
    else (if s[0] == ',' then [] else [s[0]]) + Strip(s[1..])
  }

  // ---------------------------------------------------------------------
  // Proofs

  /** The number of digits in the run that starts at `i`. */
  function DigitRun(s: string, i: nat): (n: nat)
    requires i <= |s|
    ensures i + n <= |s| && AllDigits(s[i..i + n])
    ensures i + n == |s| || !IsDigit(s[i + n])
    decreases |s| - i
  {
    if i < |s| && IsDigit(s[i]) then
      var n := 1 + DigitRun(s, i + 1);
      assert s[i..i + n] == [s[i]] + s[i + 1..i + n];
      n
    else 0
  }

  /** The lookahead holds exactly when the digit run ahead is a positive
      multiple of three long. */
  lemma {:induction false} GroupsAheadRun(s: string, i: nat)
    requires i <= |s|
    ensures GroupsAhead(s, i) <==> DigitRun(s, i) > 0 && DigitRun(s, i) % 3 == 0
  {
    var n := DigitRun(s, i);
    if GroupsAhead(s, i) {
      var k: nat :| 1 <= k <= |s| && GroupsOf3(s, i, k);
      forall j | i <= j < i + n ensures IsDigit(s[j]) {
        assert s[j] == s[i..i + n][j - i];
      }
      assert n == 3 * k;
    }
    if n > 0 && n % 3 == 0 {
      assert GroupsOf3(s, i, n / 3);
    }
  }

  lemma {:induction false} DigitRunAllDigits(s: string, i: nat)
    requires i <= |s| && AllDigits(s)
    ensures DigitRun(s, i) == |s| - i
    decreases |s| - i
  {
    if i < |s| {
      DigitRunAllDigits(s, i + 1);
    }
  }

  /** In a string of digits the pattern matches at the inner positions that
      have a multiple of three digits to their right. */
  lemma {:induction false} CommaAtDigits(s: string, i: nat)
    requires i < |s| && AllDigits(s)
    ensures CommaAt(s, i) <==> 0 < i && (|s| - i) % 3 == 0
  {
    DigitRunAllDigits(s, i);
    GroupsAheadRun(s, i);
  }

  /** Two strings whose first `j` positions are replaced alike. */
  lemma {:induction false} CommasUpToAgree(s: string, t: string, j: nat)
    requires j <= |s| && j <= |t|
    requires forall k :: 0 <= k < j ==> Piece(s, k) == Piece(t, k)
    ensures CommasUpTo(s, j) == CommasUpTo(t, j)
  {
    if j > 0 {
      CommasUpToAgree(s, t, j - 1);
    }
  }

  /** Up to three leading digits get no comma. */
  lemma {:induction false} CommasUpToShort(s: string, j: nat)
    requires AllDigits(s) && j <= |s| <= 3
    ensures CommasUpTo(s, j) == s[..j]
  {
    if j > 0 {
      CommasUpToShort(s, j - 1);
      CommaAtDigits(s, j - 1);
      assert s[..j] == s[..j - 1] + [s[j - 1]];
    }
  }

  /** On a string of digits the regular expression produces `Group`. */
  lemma {:induction false} InsertCommasDigits(ds: string)
    requires AllDigits(ds)
    ensures InsertCommas(ds) == Group(ds)
    decreases |ds|
  {
    var n := |ds|;
    if n <= 3 {
      InsertCommasShort(ds);
    } else {
      var p, tail := ds[..n - 3], ds[n - 3..];
      calc {
        InsertCommas(ds);
        { CommasUpToLastGroup(ds); }
        CommasUpTo(ds, n - 3) + [','] + tail;
        { CommasUpToPrefix(ds); }
        InsertCommas(p) + [','] + tail;
        { CommasUpToPrefix(ds); InsertCommasDigits(p); }
        Group(p) + [','] + tail;
        Group(ds);
      }
    }
  }

  lemma {:induction false} InsertCommasShort(ds: string)
    requires AllDigits(ds) && |ds| <= 3
    ensures InsertCommas(ds) == ds
  {
    CommasUpToShort(ds, |ds|);
    assert ds[..|ds|] == ds;
  }

  /** The positions before the last three digits are replaced as in the
      digits without those three. */
  lemma {:induction false} CommasUpToPrefix(ds: string)
    requires AllDigits(ds) && |ds| > 3
    ensures AllDigits(ds[..|ds| - 3])
    ensures CommasUpTo(ds, |ds| - 3) == InsertCommas(ds[..|ds| - 3])
  {
    var n := |ds|;
    var p := ds[..n - 3];
    assert AllDigits(p);
    forall k | 0 <= k < n - 3 ensures Piece(ds, k) == Piece(p, k) {
      CommaAtDigits(ds, k);
      CommaAtDigits(p, k);
    }
    CommasUpToAgree(ds, p, n - 3);
  }

  /** A comma goes in front of the last three digits and none inside them. */
  lemma {:induction false} CommasUpToLastGroup(ds: string)
    requires AllDigits(ds) && |ds| > 3
    ensures InsertCommas(ds) == CommasUpTo(ds, |ds| - 3) + [','] + ds[|ds| - 3..]
  {
    var n := |ds|;
    CommaAtDigits(ds, n - 3);
    CommaAtDigits(ds, n - 2);
    CommaAtDigits(ds, n - 1);
    var head := CommasUpTo(ds, n - 3);
    assert CommasUpTo(ds, n - 2) == head + [',', ds[n - 3]];
    assert CommasUpTo(ds, n - 1) == head + [',', ds[n - 3], ds[n - 2]];
    assert CommasUpTo(ds, n) == head + [',', ds[n - 3], ds[n - 2], ds[n - 1]];
    assert ds[n - 3..] == [ds[n - 3], ds[n - 2], ds[n - 1]];
  }

  /** A leading character that is not a word character (the minus sign)
      gets no comma and changes no other position's replacement. */
  lemma {:induction false} CommasUpToShift(c: char, t: string, j: nat)
    requires !IsWordChar(c) && j <= |t|
    ensures CommasUpTo([c] + t, j + 1) == [c] + CommasUpTo(t, j)
  {
    if j == 0 {
      PieceFirst(c, t);
    } else {
      var s := [c] + t;
      CommasUpToShift(c, t, j - 1);
      PieceShift(c, t, j - 1);
      assert CommasUpTo(s, j + 1) == CommasUpTo(s, j) + Piece(s, j);
      assert CommasUpTo(t, j) == CommasUpTo(t, j - 1) + Piece(t, j - 1);
    }
  }

  lemma {:induction false} PieceFirst(c: char, t: string)
    requires !IsWordChar(c)
    ensures Piece([c] + t, 0) == [c]
  {
    var s := [c] + t;
    GroupsAheadRun(s, 0);
  }

  lemma {:induction false} PieceShift(c: char, t: string, k: nat)
    requires !IsWordChar(c) && k < |t|
    ensures Piece([c] + t, k + 1) == Piece(t, k)
  {
    var s := [c] + t;
    assert s[k + 1] == t[k];
    assert NotBoundary(s, k + 1) == NotBoundary(t, k);
    GroupsAheadRun(s, k + 1);
    GroupsAheadRun(t, k);
    DigitRunShift(c, t, k);
  }

  lemma {:induction false} DigitRunShift(c: char, t: string, i: nat)
    requires i <= |t|
    ensures DigitRun([c] + t, i + 1) == DigitRun(t, i)
    decreases |t| - i
  {
    if i < |t| {
      DigitRunShift(c, t, i + 1);
      assert ([c] + t)[i + 1] == t[i];
    }
  }

  /** `formatPrice` puts '$', then a minus sign for a negative price, then
      the digits of its magnitude grouped in threes from the right. */
  lemma {:induction false} FormatPriceGroups(p: int)
    ensures FormatPrice(p) == "$" + (if p < 0 then "-" else "") + Group(Digits(if p < 0 then -p else p))
  {
    if p < 0 {
      var ds := Digits(-p);
      calc {
        FormatPrice(p);
        "$" + InsertCommas(NumberToString(p));
        { assert NumberToString(p) == ['-'] + ds; }
        "$" + CommasUpTo(['-'] + ds, |ds| + 1);
        { CommasUpToShift('-', ds, |ds|); }
        "$" + (['-'] + CommasUpTo(ds, |ds|));
        { InsertCommasDigits(ds); }
        "$" + (['-'] + Group(ds));
      }
    } else {
      var ds := Digits(p);
      calc {
        FormatPrice(p);
        "$" + InsertCommas(ds);
        { InsertCommasDigits(ds); }
        "$" + Group(ds);
      }
    }
  }

  lemma {:induction false} StripAppend(a: string, b: string)
    ensures Strip(a + b) == Strip(a) + Strip(b)
  {
    if a != [] {
      StripAppend(a[1..], b);
      assert (a + b)[0] == a[0] && (a + b)[1..] == a[1..] + b;
    } else {
      assert a + b == b;
    }
  }

  lemma {:induction false} StripNoCommas(s: string)
    requires ',' !in s
    ensures Strip(s) == s
  {
    if s != [] {
      StripNoCommas(s[1..]);
      assert s == [s[0]] + s[1..];
    }
  }

  /** Deleting the commas from the replacement of the first `j` characters
      gives what deleting them from those characters gives. */
  lemma {:induction false} CommasOnlyInserted(s: string, j: nat)
    requires j <= |s|
    ensures Strip(CommasUpTo(s, j)) == Strip(s[..j])
  {
    if j > 0 {
      CommasOnlyInserted(s, j - 1);
      StripAppend(CommasUpTo(s, j - 1), Piece(s, j - 1));
      assert s[..j] == s[..j - 1] + [s[j - 1]];
      StripAppend(s[..j - 1], [s[j - 1]]);
      PieceStrip(s, j - 1);
    }
  }

  /** A piece strips to the character it was made from. */
  lemma {:induction false} PieceStrip(s: string, i: nat)
    requires i < |s|
    ensures Strip(Piece(s, i)) == Strip([s[i]])
  {
    if CommaAt(s, i) {
      var p := Piece(s, i);
      assert p[0] == ',' && p[1..] == [s[i]];
    }
  }

  lemma {:induction false} NoCommaInNumber(p: int)
    ensures ',' !in NumberToString(p)
  {
    var ns := NumberToString(p);
    if p < 0 {
      assert ns == [ns[0]] + ns[1..];
      DigitsHaveNoComma(ns[1..]);
    } else {
      DigitsHaveNoComma(ns);
    }
  }

  lemma {:induction false} DigitsHaveNoComma(ds: string)
    requires AllDigits(ds)
    ensures ',' !in ds
  {
  }

  /** Deleting the commas from the grouped digits gives the digits back. */
  lemma {:induction false} GroupStrip(ds: string)
    requires ',' !in ds
    ensures Strip(Group(ds)) == ds
    decreases |ds|
  {
    if |ds| <= 3 {
      StripNoCommas(ds);
    } else {
      var head, tail := ds[..|ds| - 3], ds[|ds| - 3..];
      assert ds == head + tail;
      GroupStrip(head);
      StripNoCommas(tail);
      StripAroundComma(Group(head), tail);
    }
  }

  lemma {:induction false} StripAroundComma(a: string, b: string)
    ensures Strip(a + [','] + b) == Strip(a) + Strip(b)
  {
    var comma: string := [','];
    assert comma[1..] == [];
    assert Strip(comma) == [];
    StripAppend(a + comma, b);
    StripAppend(a, comma);
  }

  /** The grouping starts with the first digit and ends with the last, so it
      neither starts nor ends with a comma. */
  lemma {:induction false} GroupEnds(ds: string)
    requires |ds| > 0
    ensures |Group(ds)| > 0 && Group(ds)[0] == ds[0] && Group(ds)[|Group(ds)| - 1] == ds[|ds| - 1]
    decreases |ds|
  {
    if |ds| > 3 {
      GroupEnds(ds[..|ds| - 3]);
    }
  }

  /** For a non-negative price: the result is '$' and the grouped digits;
      deleting the '$' and the commas gives the decimal representation of the
      price, and there is no comma at either end. */
  lemma {:induction false} FormatPriceRoundTrip(n: nat)
    ensures var r := FormatPrice(n);
      && |r| >= 2 && r[0] == '$'
      && r[1..] == Group(Digits(n))
      && Strip(r[1..]) == Digits(n)
      && AllDigits(Strip(r[1..])) && Value(Strip(r[1..])) == n
      && r[1] != ',' && r[|r| - 1] != ','
  {
    FormatPriceGroups(n);
    DigitsHaveNoComma(Digits(n));
    GroupStrip(Digits(n));
    GroupEnds(Digits(n));
    DigitsValue(n);
    var r := FormatPrice(n);
    assert r[1..] == Group(Digits(n));
  }
}
