/** Digit localisation and thousands grouping (utils.ts).

    `toPersianDigits` rewrites every ASCII digit of a value's string form as the
    Persian digit of the same value (U+06F0 to U+06F9). `formatCurrency` renders an
    amount with `toString`, inserts `,` wherever the regular expression
    `\B(?=(\d{3})+(?!\d))` matches, and localises the digits. The regular
    expression is modelled literally on any string; for the string form of an
    integer it is then shown to be the usual right-to-left grouping in threes. */
module Utils {

  predicate IsAsciiDigit(c: char) {
    '0' <= c <= '9'
  }

  predicate IsPersianDigit(c: char) {
    '\U{06F0}' <= c <= '\U{06F9}'
  }

  /** The Persian digit with the same value as the ASCII digit `c`. */
  function PersianDigitOf(c: char): (p: char)
    requires IsAsciiDigit(c)
    ensures IsPersianDigit(p)
    ensures p as int - 0x06F0 == c as int - '0' as int
  {
    (c as int - '0' as int + 0x06F0) as char
  }

  /** The ASCII digit with the same value as the Persian digit `p`. */
  function AsciiDigitOf(p: char): (c: char)
    requires IsPersianDigit(p)
    ensures IsAsciiDigit(c)
    ensures PersianDigitOf(c) == p
  {
    (p as int - 0x06F0 + '0' as int) as char
  }

  function LocaliseChar(c: char): char {
    if IsAsciiDigit(c) then PersianDigitOf(c) else c
  }

  function DelocaliseChar(c: char): char {
    if IsPersianDigit(c) then AsciiDigitOf(c) else c
  }

  /** `toPersianDigits` on a string: every ASCII digit becomes the Persian digit
      of the same value, every other character is kept. */
  function ToPersianDigits(s: string): (r: string)
    ensures |r| == |s|
    ensures forall i :: 0 <= i < |s| && IsAsciiDigit(s[i]) ==> r[i] == PersianDigitOf(s[i])
    ensures forall i :: 0 <= i < |s| && !IsAsciiDigit(s[i]) ==> r[i] == s[i]
    ensures forall i :: 0 <= i < |r| ==> !IsAsciiDigit(r[i])
  {
    if s == [] then [] else [LocaliseChar(s[0])] + ToPersianDigits(s[1..])
  }

  /** The inverse direction: Persian digits back to ASCII digits. */
  function ToAsciiDigits(s: string): (r: string)
    ensures |r| == |s|
    ensures forall i :: 0 <= i < |s| ==> r[i] == DelocaliseChar(s[i])
  {
    seq(|s|, i requires 0 <= i < |s| => DelocaliseChar(s[i]))
  }

  predicate NoPersianDigits(s: string) {
    forall i :: 0 <= i < |s| ==> !IsPersianDigit(s[i])
  }

  /** Localising twice is localising once. */
  lemma ToPersianDigitsIdempotent(s: string)
    ensures ToPersianDigits(ToPersianDigits(s)) == ToPersianDigits(s)
  {
    var r := ToPersianDigits(s);
    var rr := ToPersianDigits(r);
    assert forall i :: 0 <= i < |r| ==> rr[i] == r[i];
  }

  /** Localisation is undone by mapping the Persian digits back, as long as the
      input held no Persian digits of its own. */
  lemma ToPersianDigitsRoundTrip(s: string)
    requires NoPersianDigits(s)
    ensures ToAsciiDigits(ToPersianDigits(s)) == s
  {
    var r := ToAsciiDigits(ToPersianDigits(s));
    assert forall i :: 0 <= i < |s| ==> r[i] == s[i];
  }

  /** Localisation acts character by character, so it distributes over concatenation. */
  lemma ToPersianDigitsAppend(a: string, b: string)
    ensures ToPersianDigits(a + b) == ToPersianDigits(a) + ToPersianDigits(b)
  {
    var l, r := ToPersianDigits(a + b), ToPersianDigits(a) + ToPersianDigits(b);
    assert forall i :: 0 <= i < |l| ==> l[i] == r[i];
  }

  // ---------------------------------------------------------------------------
  // Decimal rendering of integers (`Number.prototype.toString` below 10^21)

  function DigitChar(d: nat): (c: char)
    requires d < 10
    ensures IsAsciiDigit(c)
  {
    ('0' as int + d) as char
  }

  function DigitValue(c: char): (d: nat)
    requires IsAsciiDigit(c)
    ensures d < 10 && DigitChar(d) == c
  {
    c as int - '0' as int
  }

  predicate AllAsciiDigits(s: string) {
    forall i :: 0 <= i < |s| ==> IsAsciiDigit(s[i])
  }

  /** The decimal digits of `n`, most significant first, without leading zeros. */
  function NatToString(n: nat): (s: string)
    ensures |s| > 0 && AllAsciiDigits(s)
    ensures s[0] == '0' ==> n == 0
    ensures n < 10 <==> |s| == 1
  {
    if n < 10 then [DigitChar(n)] else NatToString(n / 10) + [DigitChar(n % 10)]
  }

  /** The value of a string of decimal digits. */
  function ParseDigits(s: string): nat
    requires AllAsciiDigits(s)
  {
    if s == [] then 0 else ParseDigits(s[..|s| - 1]) * 10 + DigitValue(s[|s| - 1])
  }

  /** Reading back the decimal rendering of `n` gives `n`. */
  lemma {:induction false} ParseNatToString(n: nat)
    ensures ParseDigits(NatToString(n)) == n
  {
    var s := NatToString(n);
    if n >= 10 {
      assert s[..|s| - 1] == NatToString(n / 10);
      ParseNatToString(n / 10);
    }
  }

  /** `toString` of an integer amount: an optional minus sign, then its digits. */
  function IntToString(n: int): (s: string)
    ensures n < 0 ==> s == "-" + NatToString(-n)
    ensures n >= 0 ==> s == NatToString(n)
  {
    if n < 0 then "-" + NatToString(-n) else NatToString(n)
  }

  // ---------------------------------------------------------------------------
  // The regular expression \B(?=(\d{3})+(?!\d)) and the global replace

  /** A character matched by `\w`. */
  predicate IsWordChar(c: char) {
    'a' <= c <= 'z' || 'A' <= c <= 'Z' || IsAsciiDigit(c) || c == '_'
  }

  /** `\B` at position `p`: the characters on both sides of `p` (nothing, at
      either end of the string) are both word characters or both not. */
  predicate NotWordBoundary(s: string, p: nat)
    requires p <= |s|
  {
    (p > 0 && IsWordChar(s[p - 1])) == (p < |s| && IsWordChar(s[p]))
  }

  /** The lookahead `(\d{3})+(?!\d)` at position `p`: one or more groups of three
      digits, the last of them not followed by a further digit. */
  predicate DigitTriplesToEnd(s: string, p: nat)
    requires p <= |s|
    decreases |s| - p
  {
    && p + 3 <= |s|
    && IsAsciiDigit(s[p]) && IsAsciiDigit(s[p + 1]) && IsAsciiDigit(s[p + 2])
    && (p + 3 == |s| || !IsAsciiDigit(s[p + 3]) || DigitTriplesToEnd(s, p + 3))
  }

  /** Whether the pattern matches (a zero-width match) just before `s[p]`. */
  predicate CommaBefore(s: string, p: nat)
    requires p <= |s|
  {
    NotWordBoundary(s, p) && DigitTriplesToEnd(s, p)
  }

  /** `marks[i]` says whether a comma goes in front of `s[i]`. */
  function Splice(s: string, marks: seq<bool>): (r: string)
    requires |marks| == |s|
    ensures |r| >= |s|
  {
    if s == [] then []
    else
      var k := |s| - 1;
      Splice(s[..k], marks[..k]) + (if marks[k] then [',', s[k]] else [s[k]])
  }

  /** The match positions of the pattern in `s`, all taken in the original string
      as a global `replace` does. No match can sit at the very end of the string,
      since the lookahead needs three characters after it. */
  function CommaMarks(s: string): (m: seq<bool>)
    ensures |m| == |s|
    ensures forall p :: 0 <= p < |s| ==> m[p] == CommaBefore(s, p)
  {
    seq(|s|, p requires 0 <= p < |s| => CommaBefore(s, p))
  }

  /** `s.replace(/\B(?=(\d{3})+(?!\d))/g, ",")`. */
  function InsertCommas(s: string): string {
    Splice(s, CommaMarks(s))
  }

  /** 10^21, where `toString` switches to exponent notation. */
  function Exp21(): int {
    1_000_000_000_000_000_000_000
  }

  /** `formatCurrency` for an integer amount. */
  function FormatCurrency(amount: int): string
    requires -Exp21() < amount < Exp21()
  {
    ToPersianDigits(InsertCommas(IntToString(amount)))
  }

  // ---------------------------------------------------------------------------
  // The reference grouping and its shape

  /** Right-to-left grouping of a digit string in threes. */
  function Group(d: string): string {
    if |d| <= 3 then d else Group(d[..|d| - 3]) + [','] + d[|d| - 3..]
  }

  /** Thousands-grouped digits: a first group of one to three digits, then groups
      of a comma and exactly three digits. `digit` says which characters count as
      digits (ASCII before localisation, Persian after). */
  ghost predicate Grouped(g: string, digit: char -> bool) {
    && |g| > 0
    && g[0] != ','
    && (forall i :: 0 <= i < |g| ==> g[i] == ',' || digit(g[i]))
    && (forall i :: 0 <= i < |g| && g[i] == ',' ==>
          && i + 3 < |g|
          && digit(g[i + 1]) && digit(g[i + 2]) && digit(g[i + 3])
          && (i + 4 == |g| || g[i + 4] == ','))
    && (|g| <= 3 || g[1] == ',' || g[2] == ',' || g[3] == ',')
  }

  function CountCommas(s: string): nat {
    multiset(s)[',']
  }

  /** The string with every comma removed. */
  function StripCommas(s: string): (r: string)
    ensures |r| <= |s|
  {
    if s == [] then [] else (if s[0] == ',' then [] else [s[0]]) + StripCommas(s[1..])
  }

  lemma {:induction false} StripCommasAppend(a: string, b: string)
    ensures StripCommas(a + b) == StripCommas(a) + StripCommas(b)
  {
    if a == [] {
      assert a + b == b;
    } else {
      assert (a + b)[0] == a[0];
      assert (a + b)[1..] == a[1..] + b;
      StripCommasAppend(a[1..], b);
    }
  }

  /** A comma between two strings is removed like the commas in them. */
  lemma StripCommasAroundComma(a: string, b: string)
    ensures StripCommas(a + [','] + b) == StripCommas(a) + StripCommas(b)
  {
    var c: string := [','];
    assert c[1..] == [];
    var sc := StripCommas(c);
    assert sc == [];
    StripCommasAppend(a, c);
    var sac := StripCommas(a + c);
    assert sac == StripCommas(a);
    StripCommasAppend(a + c, b);
  }

  lemma {:induction false} StripCommasOfDigits(d: string)
    requires AllAsciiDigits(d)
    ensures StripCommas(d) == d
  {
    if d != [] {
      StripCommasOfDigits(d[1..]);
    }
  }

  /** The grouping of a digit string is well formed. */
  lemma {:induction false} GroupGrouped(d: string)
    requires |d| > 0 && AllAsciiDigits(d)
    ensures Grouped(Group(d), IsAsciiDigit)
  {
    if |d| > 3 {
      var p, t := d[..|d| - 3], d[|d| - 3..];
      assert d == p + t;
      assert AllAsciiDigits(p) && AllAsciiDigits(t);
      GroupGrouped(p);
      var gp := Group(p);
      var g := gp + [','] + t;
      assert Group(d) == g;
      forall i | 0 <= i < |g| && g[i] == ','
        ensures i + 3 < |g| && IsAsciiDigit(g[i + 1]) && IsAsciiDigit(g[i + 2]) && IsAsciiDigit(g[i + 3])
        ensures i + 4 == |g| || g[i + 4] == ','
      {
        if i < |gp| {
          assert gp[i] == ',';
        } else {
          assert i == |gp|;
        }
      }
      assert forall i :: 0 <= i < |g| ==> g[i] == ',' || IsAsciiDigit(g[i]);
      if |gp| > 3 {
        assert gp[1] == ',' || gp[2] == ',' || gp[3] == ',';
      }
    }
  }

  /** The grouping of a `k`-digit string holds `(k - 1) / 3` commas. */
  lemma {:induction false} GroupCommaCount(d: string)
    requires |d| > 0 && AllAsciiDigits(d)
    ensures CountCommas(Group(d)) == (|d| - 1) / 3
  {
    if |d| <= 3 {
      NoCommasInDigits(d);
    } else {
      var p, t := d[..|d| - 3], d[|d| - 3..];
      assert d == p + t;
      assert AllAsciiDigits(p) && AllAsciiDigits(t);
      GroupCommaCount(p);
      var gp := Group(p);
      assert Group(d) == gp + [','] + t;
      NoCommasInDigits(t);
      CountCommasAroundComma(gp, t);
      assert (|p| - 1) / 3 + 1 == (|d| - 1) / 3;
    }
  }

  lemma NoCommasInDigits(d: string)
    requires AllAsciiDigits(d)
    ensures CountCommas(d) == 0
  {
    assert forall i :: 0 <= i < |d| ==> d[i] != ',';
    assert ',' !in d;
  }

  /** A comma between two strings adds one to the commas in them. */
  lemma CountCommasAroundComma(a: string, b: string)
    ensures CountCommas(a + [','] + b) == CountCommas(a) + 1 + CountCommas(b)
  {
    assert multiset(a + [','] + b) == multiset(a) + multiset([',']) + multiset(b);
  }

  /** Removing the commas of the grouping gives the digits back. */
  lemma {:induction false} GroupStrip(d: string)
    requires |d| > 0 && AllAsciiDigits(d)
    ensures StripCommas(Group(d)) == d
  {
    if |d| <= 3 {
      StripCommasOfDigits(d);
    } else {
      var p, t := d[..|d| - 3], d[|d| - 3..];
      assert d == p + t;
      assert AllAsciiDigits(p) && AllAsciiDigits(t);
      GroupStrip(p);
      var gp := Group(p);
      assert Group(d) == gp + [','] + t;
      StripCommasAroundComma(gp, t);
      StripCommasOfDigits(t);
      assert StripCommas(gp + [','] + t) == p + t;
    }
  }

  // ---------------------------------------------------------------------------
  // The regular expression groups integer renderings in threes

  /** Inside a trailing run of digits, the lookahead holds exactly when a
      positive multiple of three digits remains. */
  lemma {:induction false} TriplesInDigitTail(s: string, q: nat, p: nat)
    requires q <= p <= |s|
    requires forall i :: q <= i < |s| ==> IsAsciiDigit(s[i])
    ensures DigitTriplesToEnd(s, p) <==> |s| - p > 0 && (|s| - p) % 3 == 0
    decreases |s| - p
  {
    if p + 3 <= |s| {
      TriplesInDigitTail(s, q, p + 3);
    }
  }

  lemma {:induction false} SpliceAppend(a: string, ma: seq<bool>, b: string, mb: seq<bool>)
    requires |ma| == |a| && |mb| == |b|
    ensures Splice(a + b, ma + mb) == Splice(a, ma) + Splice(b, mb)
    decreases |b|
  {
    if b == [] {
      assert a + b == a && ma + mb == ma;
    } else {
      var k := |b| - 1;
      assert (a + b)[..|a| + k] == a + b[..k];
      assert (ma + mb)[..|a| + k] == ma + mb[..k];
      SpliceAppend(a, ma, b[..k], mb[..k]);
    }
  }

  lemma {:induction false} SpliceUnmarked(s: string, marks: seq<bool>)
    requires |marks| == |s|
    requires forall i :: 0 <= i < |s| ==> !marks[i]
    ensures Splice(s, marks) == s
  {
    if s != [] {
      SpliceUnmarked(s[..|s| - 1], marks[..|s| - 1]);
    }
  }

  /** Marking every position that has a positive multiple of three digits after
      it, except the first, is the right-to-left grouping. */
  lemma {:induction false} SpliceIsGroup(d: string, marks: seq<bool>)
    requires |d| > 0 && AllAsciiDigits(d) && |marks| == |d|
    requires forall p :: 0 <= p < |d| ==> marks[p] == (p > 0 && (|d| - p) % 3 == 0)
    ensures Splice(d, marks) == Group(d)
  {
    if |d| <= 3 {
      SpliceUnmarked(d, marks);
    } else {
      var n := |d| - 3;
      var p, t := d[..n], d[n..];
      var mp, mt := marks[..n], marks[n..];
      assert d == p + t && marks == mp + mt;
      GroupMarksSplit(d, marks, mp);
      SpliceIsGroup(p, mp);
      SpliceAppend(p, mp, t, mt);
      SpliceOneTriple(t);
      assert Group(d) == Group(p) + [','] + t;
    }
  }

  /** The grouping marks of a digit string longer than three split into the
      grouping marks of all but its last three digits, and a single mark in front
      of those three. */
  lemma GroupMarksSplit(d: string, marks: seq<bool>, prefix: seq<bool>)
    requires |d| > 3 && AllAsciiDigits(d) && |marks| == |d|
    requires forall p :: 0 <= p < |d| ==> marks[p] == (p > 0 && (|d| - p) % 3 == 0)
    requires prefix == marks[..|d| - 3]
    ensures AllAsciiDigits(d[..|d| - 3])
    ensures forall i :: 0 <= i < |prefix| ==> prefix[i] == (i > 0 && (|prefix| - i) % 3 == 0)
    ensures marks[|d| - 3..] == [true, false, false]
  {
    var n := |d| - 3;
    forall i | 0 <= i < n
      ensures prefix[i] == (i > 0 && (n - i) % 3 == 0)
    {
      assert (|d| - i) % 3 == (n - i) % 3;
    }
  }

  /** A single character, with or without a comma in front. */
  lemma SpliceSingle(c: char, mark: bool)
    ensures Splice([c], [mark]) == if mark then [',', c] else [c]
  {
    assert [c][..0] == [] && [mark][..0] == [];
  }

  /** Splicing one more character extends the result at its end. */
  lemma SpliceSnoc(s: string, marks: seq<bool>, c: char, mark: bool)
    requires |marks| == |s|
    ensures Splice(s + [c], marks + [mark]) == Splice(s, marks) + (if mark then [',', c] else [c])
  {
    assert (s + [c])[..|s|] == s && (marks + [mark])[..|s|] == marks;
  }

  /** A comma in front of three characters and nowhere else. */
  lemma SpliceOneTriple(t: string)
    requires |t| == 3
    ensures Splice(t, [true, false, false]) == [','] + t
  {
    var t1, m1 := [t[0]], [true];
    SpliceSingle(t[0], true);
    var t2, m2 := t1 + [t[1]], m1 + [false];
    SpliceSnoc(t1, m1, t[1], false);
    SpliceSnoc(t2, m2, t[2], false);
    assert t2 + [t[2]] == t && m2 + [false] == [true, false, false];
  }

  /** On the rendering of an integer the regular expression inserts a comma in
      front of every digit that has a positive multiple of three digits after it,
      the first digit excepted. */
  lemma InsertCommasGroups(n: int)
    ensures InsertCommas(IntToString(n)) == (if n < 0 then "-" else "") + Group(NatToString(if n < 0 then -n else n))
  {
    var d := NatToString(if n < 0 then -n else n);
    if n >= 0 {
      InsertCommasUnsigned(d);
    } else {
      InsertCommasSigned(d);
    }
  }

  /** On a plain string of digits the regular expression is the grouping. */
  lemma InsertCommasUnsigned(d: string)
    requires |d| > 0 && AllAsciiDigits(d)
    ensures InsertCommas(d) == Group(d)
  {
    var m := CommaMarks(d);
    forall p | 0 <= p < |d|
      ensures m[p] == (p > 0 && (|d| - p) % 3 == 0)
    {
      TriplesInDigitTail(d, 0, p);
    }
    SpliceIsGroup(d, m);
  }

  /** Behind a minus sign the regular expression groups the digits the same
      way, and puts no comma between the sign and the first digit. */
  lemma InsertCommasSigned(d: string)
    requires |d| > 0 && AllAsciiDigits(d)
    ensures InsertCommas("-" + d) == "-" + Group(d)
  {
    var m := CommaMarks("-" + d);
    SignedCommaMarks(d, m);
    SpliceSigned(d, m);
  }

  /** Splicing a minus sign and digits with no mark on the sign and the
      grouping marks on the digits. */
  lemma SpliceSigned(d: string, m: seq<bool>)
    requires |d| > 0 && AllAsciiDigits(d)
    requires |m| == |d| + 1 && !m[0]
    requires forall q :: 1 <= q < |m| ==> m[q] == (q > 1 && (|m| - q) % 3 == 0)
    ensures Splice("-" + d, m) == "-" + Group(d)
  {
    var md := m[1..];
    forall p | 0 <= p < |d|
      ensures md[p] == (p > 0 && (|d| - p) % 3 == 0)
    {
      assert md[p] == m[p + 1];
    }
    assert m == [false] + md;
    SpliceSingle('-', false);
    SpliceAppend("-", [false], d, md);
    SpliceIsGroup(d, md);
  }

  /** Where the pattern matches in a minus sign followed by digits: never in
      front of the sign, and in front of a digit exactly as without the sign. */
  lemma SignedCommaMarks(d: string, m: seq<bool>)
    requires |d| > 0 && AllAsciiDigits(d)
    requires m == CommaMarks("-" + d)
    ensures |m| == |d| + 1 && !m[0]
    ensures forall q :: 1 <= q < |m| ==> m[q] == (q > 1 && (|m| - q) % 3 == 0)
  {
    var s := "-" + d;
    forall q | 1 <= q < |m|
      ensures m[q] == (q > 1 && (|m| - q) % 3 == 0)
    {
      TriplesInDigitTail(s, 1, q);
      assert IsWordChar(s[q]);
      if q > 1 {
        assert IsWordChar(s[q - 1]);
      }
    }
    assert !IsAsciiDigit(s[0]);
  }

  // ---------------------------------------------------------------------------
  // What formatCurrency promises

  lemma {:induction false} StripCommasLocalised(s: string)
    ensures StripCommas(ToPersianDigits(s)) == ToPersianDigits(StripCommas(s))
  {
    if s != [] {
      StripCommasLocalised(s[1..]);
      ToPersianDigitsAppend(if s[0] == ',' then [] else [s[0]], StripCommas(s[1..]));
    }
  }

  lemma {:induction false} CountCommasLocalised(s: string)
    ensures CountCommas(ToPersianDigits(s)) == CountCommas(s)
  {
    if s != [] {
      CountCommasLocalised(s[1..]);
      assert s == [s[0]] + s[1..];
      assert ToPersianDigits(s) == [LocaliseChar(s[0])] + ToPersianDigits(s[1..]);
    }
  }

  /** Localising a grouped ASCII digit string gives a grouped Persian one. */
  lemma GroupedLocalised(g: string)
    requires Grouped(g, IsAsciiDigit)
    ensures Grouped(ToPersianDigits(g), IsPersianDigit)
  {
    var r := ToPersianDigits(g);
    assert forall i :: 0 <= i < |g| ==> (r[i] == ',' <==> g[i] == ',');
    assert forall i :: 0 <= i < |g| && IsAsciiDigit(g[i]) ==> IsPersianDigit(r[i]);
  }

  /** `formatCurrency` of an integer is the sign followed by the localised
      right-to-left grouping of its digits. */
  lemma FormatCurrencyDecomposed(amount: int)
    requires -Exp21() < amount < Exp21()
    ensures FormatCurrency(amount)
            == (if amount < 0 then "-" else "") + ToPersianDigits(Group(NatToString(if amount < 0 then -amount else amount)))
  {
    var d := NatToString(if amount < 0 then -amount else amount);
    var sign: string := if amount < 0 then "-" else "";
    InsertCommasGroups(amount);
    ToPersianDigitsAppend(sign, Group(d));
    assert ToPersianDigits(sign) == sign;
  }

  /** `formatCurrency` starts with a minus sign exactly for negative amounts,
      and behind it lies a leading group of one to three Persian digits followed
      by groups of a comma and exactly three Persian digits. */
  lemma FormatCurrencyGrouped(amount: int)
    requires -Exp21() < amount < Exp21()
    ensures var r := FormatCurrency(amount);
            && |r| > 0
            && (amount < 0 <==> r[0] == '-')
            && Grouped(if amount < 0 then r[1..] else r, IsPersianDigit)
  {
    var d := NatToString(if amount < 0 then -amount else amount);
    var g := Group(d);
    var lg := ToPersianDigits(g);
    var r := FormatCurrency(amount);
    FormatCurrencyDecomposed(amount);
    GroupGrouped(d);
    GroupedLocalised(g);
    if amount < 0 {
      assert r == "-" + lg;
      assert r[1..] == lg;
    } else {
      assert r == lg;
      assert lg[0] != '-';
    }
  }

  /** A `k`-digit amount gets exactly `(k - 1) / 3` commas, so none at all up
      to three digits. */
  lemma FormatCurrencyCommaCount(amount: int)
    requires -Exp21() < amount < Exp21()
    ensures var k := |NatToString(if amount < 0 then -amount else amount)|;
            && CountCommas(FormatCurrency(amount)) == (k - 1) / 3
            && (k <= 3 ==> ',' !in FormatCurrency(amount))
  {
    var d := NatToString(if amount < 0 then -amount else amount);
    FormatCurrencyDecomposed(amount);
    SignedGroupCommaCount(if amount < 0 then "-" else "", d);
  }

  /** The comma count of a sign followed by a localised grouping. */
  lemma SignedGroupCommaCount(sign: string, d: string)
    requires sign == "" || sign == "-"
    requires |d| > 0 && AllAsciiDigits(d)
    ensures CountCommas(sign + ToPersianDigits(Group(d))) == (|d| - 1) / 3
    ensures |d| <= 3 ==> ',' !in sign + ToPersianDigits(Group(d))
  {
    var g := Group(d);
    var r := sign + ToPersianDigits(g);
    GroupCommaCount(d);
    CountCommasLocalised(g);
    CountCommasAfterSign(sign, ToPersianDigits(g));
    if |d| <= 3 {
      assert multiset(r)[','] == 0;
    }
  }

  lemma CountCommasAfterSign(sign: string, rest: string)
    requires sign == "" || sign == "-"
    ensures CountCommas(sign + rest) == CountCommas(rest)
  {
    assert multiset(sign + rest) == multiset(sign) + multiset(rest);
  }

  /** Removing the commas of `formatCurrency` and mapping the digits back gives
      the decimal rendering of the amount, whose digits read back as the amount. */
  lemma FormatCurrencyRoundTrip(amount: int)
    requires -Exp21() < amount < Exp21()
    ensures ToAsciiDigits(StripCommas(FormatCurrency(amount))) == IntToString(amount)
    ensures ParseDigits(NatToString(if amount < 0 then -amount else amount)) == (if amount < 0 then -amount else amount)
  {
    var d := NatToString(if amount < 0 then -amount else amount);
    var sign: string := if amount < 0 then "-" else "";
    var g := Group(d);
    FormatCurrencyDecomposed(amount);
    GroupStrip(d);
    StripCommasLocalised(g);
    var x := ToPersianDigits(d);
    assert StripCommas(ToPersianDigits(g)) == x;
    StripCommasAfterSign(sign, ToPersianDigits(g));
    ToPersianDigitsRoundTrip(d);
    ToAsciiDigitsAfterSign(sign, x);
    assert IntToString(amount) == sign + d;
    ParseNatToString(if amount < 0 then -amount else amount);
  }

  lemma StripCommasAfterSign(sign: string, rest: string)
    requires sign == "" || sign == "-"
    ensures StripCommas(sign + rest) == sign + StripCommas(rest)
  {
    StripCommasAppend(sign, rest);
    assert StripCommas(sign) == sign;
  }

  lemma ToAsciiDigitsAfterSign(sign: string, rest: string)
    requires sign == "" || sign == "-"
    ensures ToAsciiDigits(sign + rest) == sign + ToAsciiDigits(rest)
  {
    var l, r := ToAsciiDigits(sign + rest), sign + ToAsciiDigits(rest);
    assert forall i :: 0 <= i < |l| ==> l[i] == r[i];
  }
}
