/** The text of an identifier: "txn%022d". */
module IdText {
  import opened Domain
  import IdGenerator

  const WIDTH: nat := 22
  const SEEDED: int := 1_000_000 // the seeder writes the identifiers 0 .. 999,999

  function Digit(d: nat): char
    requires d < 10
  {
    '0' + d as char
  }

  /** %d, for a non-negative number. */
  function Decimal(n: nat): string {
    if n < 10 then [Digit(n)] else Decimal(n / 10) + [Digit(n % 10)]
  }

  /** Zero padding on the left up to a width; longer texts stay as they are. */
  function Padded(s: string, width: nat): string
    decreases width - |s|
  {
    if |s| >= width then s else Padded("0" + s, width)
  }

  /** "txn%022d"; a sign would count towards the width. */
  function Text(n: int): string {
    "txn" + (if n < 0 then "-" + Padded(Decimal(-n), WIDTH - 1) else Padded(Decimal(n), WIDTH))
  }

  function Pow10(k: nat): nat {
    if k == 0 then 1 else 10 * Pow10(k - 1)
  }

  /** The last `w` decimal digits of a number. */
  function Fixed(n: nat, w: nat): (s: string)
    ensures |s| == w
  {
    if w == 0 then "" else Fixed(n / 10, w - 1) + [Digit(n % 10)]
  }

  /** String comparison, for texts of equal length: the first difference decides. */
  ghost predicate Before(s: string, t: string) {
    exists k :: 0 <= k < |s| && k < |t| && s[..k] == t[..k] && s[k] < t[k]
  }

  lemma {:induction false} PaddedZeros(s: string, width: nat)
    ensures |s| <= width ==> |Padded(s, width)| == width && Padded(s, width)[width - |s|..] == s
    ensures |s| <= width ==> forall i :: 0 <= i < width - |s| ==> Padded(s, width)[i] == '0'
    decreases width - |s|
  {
    if |s| < width {
      PaddedZeros("0" + s, width);
      var p := Padded(s, width);
      assert p[width - |s| - 1..] == "0" + s;
      assert p[width - |s|..] == p[width - |s| - 1..][1..] == s;
      assert p[width - |s| - 1] == p[width - |s| - 1..][0] == '0';
    }
  }

  lemma {:induction false} FixedZero(w: nat)
    ensures forall i :: 0 <= i < w ==> Fixed(0, w)[i] == '0'
  {
    if w > 0 { FixedZero(w - 1); }
  }

  /** The digits of a number that fits are zeros followed by its decimal text. */
  lemma {:induction false} FixedIsDecimal(n: nat, w: nat)
    requires n < Pow10(w) && w > 0
    ensures |Decimal(n)| <= w
    ensures Fixed(n, w)[w - |Decimal(n)|..] == Decimal(n)
    ensures forall i :: 0 <= i < w - |Decimal(n)| ==> Fixed(n, w)[i] == '0'
  {
    if n < 10 {
      FixedZero(w - 1);
      assert n / 10 == 0;
      assert Fixed(n, w) == Fixed(0, w - 1) + [Digit(n)];
    } else {
      assert Pow10(1) == 10 * Pow10(0) && w > 1;
      FixedIsDecimal(n / 10, w - 1);
      var f, d := Fixed(n / 10, w - 1), Decimal(n / 10);
      assert Fixed(n, w) == f + [Digit(n % 10)];
      assert w - |Decimal(n)| == w - 1 - |d|;
      assert (f + [Digit(n % 10)])[w - 1 - |d|..] == f[w - 1 - |d|..] + [Digit(n % 10)];
    }
  }

  lemma PaddedIsFixed(n: nat, w: nat)
    requires n < Pow10(w) && w > 0
    ensures Padded(Decimal(n), w) == Fixed(n, w)
  {
    FixedIsDecimal(n, w);
    PaddedZeros(Decimal(n), w);
    var p, f, z := Padded(Decimal(n), w), Fixed(n, w), w - |Decimal(n)|;
    assert p[..z] == f[..z];
    assert p == p[..z] + p[z..];
    assert f == f[..z] + f[z..];
  }

  lemma DivideBoth(n: nat, m: nat)
    requires n < m
    ensures n / 10 < m / 10 || (n / 10 == m / 10 && n % 10 < m % 10)
  {
  }

  lemma DivideBound(m: nat, p: nat)
    requires m < 10 * p
    ensures m / 10 < p
  {
  }

  /** One more character on either side: the first difference still decides. */
  lemma SnocBefore(u: string, v: string, c: char, d: char)
    requires |u| == |v| && (Before(u, v) || (u == v && c < d))
    ensures Before(u + [c], v + [d])
  {
    var s, t := u + [c], v + [d];
    if u == v && c < d {
      assert s[..|u|] == t[..|u|] && s[|u|] < t[|u|];
    } else {
      var k :| 0 <= k < |u| && u[..k] == v[..k] && u[k] < v[k];
      assert s[..k] == u[..k] && t[..k] == v[..k] && s[k] == u[k] && t[k] == v[k];
    }
  }

  lemma {:induction false} FixedOrder(n: nat, m: nat, w: nat)
    requires n < m < Pow10(w)
    ensures Before(Fixed(n, w), Fixed(m, w))
  {
    hide Before;
    assert w > 0 && Pow10(w) == 10 * Pow10(w - 1);
    DivideBoth(n, m);
    DivideBound(m, Pow10(w - 1));
    if n / 10 < m / 10 { FixedOrder(n / 10, m / 10, w - 1); }
    SnocBefore(Fixed(n / 10, w - 1), Fixed(m / 10, w - 1), Digit(n % 10), Digit(m % 10));
  }

  lemma {:induction false} PrefixBefore(p: string, s: string, t: string)
    requires Before(s, t)
    ensures Before(p + s, p + t)
  {
    var k :| 0 <= k < |s| && k < |t| && s[..k] == t[..k] && s[k] < t[k];
    assert (p + s)[..|p| + k] == p + s[..k];
    assert (p + t)[..|p| + k] == p + t[..k];
    assert (p + s)[|p| + k] == s[k] && (p + t)[|p| + k] == t[k];
  }

  lemma Int64Fits(n: int)
    requires n <= 0x8000_0000_0000_0000
    ensures n < Pow10(WIDTH - 1) < Pow10(WIDTH)
  {
    assert Pow10(4) == 10_000;
    assert Pow10(8) == 10_000 * Pow10(4);
    assert Pow10(12) == 10_000 * Pow10(8);
    assert Pow10(16) == 10_000 * Pow10(12);
    assert Pow10(20) == 10_000 * Pow10(16);
    assert Pow10(21) == 10 * Pow10(20) && Pow10(22) == 10 * Pow10(21);
  }

  /** Every non-negative int64 has a text of exactly 25 characters, which fits the column, a VARCHAR(26). */
  lemma TextLength(n: nat)
    requires n < 0x8000_0000_0000_0000
    ensures |Text(n)| == 25 <= 26
  {
    Int64Fits(n);
    PaddedIsFixed(n, WIDTH);
  }

  // ---------------------------------------------------------------- what the characters mean

  predicate Digits(s: string) {
    forall i :: 0 <= i < |s| ==> '0' <= s[i] <= '9'
  }

  /** The number a string of decimal digits denotes. */
  function Value(s: string): int {
    if s == "" then 0 else 10 * Value(s[..|s| - 1]) + (s[|s| - 1] as int - '0' as int)
  }

  /** The decimal numeral of a number, without leading zeros. */
  predicate Numeral(s: string, n: nat) {
    s != "" && Digits(s) && Value(s) == n && (s[0] == '0' ==> s == "0")
  }

  lemma {:induction false} DecimalIsNumeral(n: nat)
    ensures Numeral(Decimal(n), n)
  {
    if n < 10 {
      assert Decimal(n)[..0] == "" && Value("") == 0;
    } else {
      DecimalIsNumeral(n / 10);
      var s := Decimal(n / 10);
      assert Decimal(n)[..|s|] == s && Decimal(n)[0] == s[0];
      assert "0"[..0] == "" && Value("0") == 0;
    }
  }

  lemma {:induction false} LeadingZero(s: string)
    ensures Value("0" + s) == Value(s)
  {
    if s == "" {
      assert "0" + s == "0" && "0"[..0] == "";
    } else {
      LeadingZero(s[..|s| - 1]);
      assert ("0" + s)[..|s|] == "0" + s[..|s| - 1];
    }
  }

  lemma {:induction false} PaddedValue(s: string, width: nat)
    requires Digits(s)
    ensures Digits(Padded(s, width)) && Value(Padded(s, width)) == Value(s)
    decreases width - |s|
  {
    if |s| < width {
      LeadingZero(s);
      PaddedValue("0" + s, width);
    }
  }

  /** The text is "txn" and 22 decimal digits that denote the number. */
  lemma TextIsDecimal(n: nat)
    requires n < 0x8000_0000_0000_0000
    ensures |Text(n)| == 25 && Text(n)[..3] == "txn" && Digits(Text(n)[3..]) && Value(Text(n)[3..]) == n
  {
    TextLength(n);
    DecimalIsNumeral(n);
    PaddedValue(Decimal(n), WIDTH);
    assert Text(n)[3..] == Padded(Decimal(n), WIDTH);
  }

  /** A negative number has its sign first, which counts towards the width. */
  lemma NegativeText(n: int)
    requires -0x8000_0000_0000_0000 <= n < 0
    ensures |Text(n)| == 25 && Text(n)[..4] == "txn-" && Digits(Text(n)[4..]) && Value(Text(n)[4..]) == -n
  {
    Int64Fits(-n);
    PaddedIsFixed(-n, WIDTH - 1);
    DecimalIsNumeral(-n);
    PaddedValue(Decimal(-n), WIDTH - 1);
    assert Text(n)[4..] == Padded(Decimal(-n), WIDTH - 1);
  }

  /** Text order is numeric order, so the text is injective and stays clear of the seeded range. */
  lemma TextOrder(n: nat, m: nat)
    requires n < 0x8000_0000_0000_0000 && m < 0x8000_0000_0000_0000
    ensures Before(Text(n), Text(m)) <==> n < m
    ensures Text(n) == Text(m) <==> n == m
    ensures n <= 999_999 < m ==> Text(n) != Text(m) && SEEDED <= m
  {
    if n < m {
      TextBefore(n, m);
      BeforeIsStrict(Text(n), Text(m));
    } else if m < n {
      TextBefore(m, n);
      BeforeIsStrict(Text(m), Text(n));
    }
  }

  /** Whatever the goroutines and the clock do, as long as the clock reads past the seeded range and leaves room below
      the int64 limit: the texts returned ascend in CAS order, fit the column, and equal no seeded one. */
  lemma IssuedTextsAreNew(acts: seq<IdGenerator.Action>, i: nat, k: nat, seed: nat)
    requires IdGenerator.Run(IdGenerator.Start(0), acts).Some? && IdGenerator.ClockAbove(SEEDED, acts) && seed < SEEDED
    requires var s := IdGenerator.Run(IdGenerator.Start(0), acts).value;
             i < k < |s.issued| && IdGenerator.LeavesRoom(acts, |s.issued|)
    ensures var issued := IdGenerator.Run(IdGenerator.Start(0), acts).value.issued;
            && Before(Text(issued[i]), Text(issued[k])) && Text(issued[i]) != Text(issued[k])
            && |Text(issued[k])| == 25 && Text(issued[k]) != Text(seed)
  {
    IdGenerator.IssuedStrictlyIncrease(0, acts);
    IdGenerator.IssuedAboveClock(0, SEEDED, acts);
    assert IdGenerator.ClockAbove(1, acts);
    IdGenerator.NoOverflow(acts);
    var issued := IdGenerator.Run(IdGenerator.Start(0), acts).value.issued;
    assert issued[i] in issued && issued[k] in issued;
    TextOrder(issued[i], issued[k]);
    TextOrder(seed, issued[k]);
    TextLength(issued[k]);
  }

  lemma TextBefore(n: nat, m: nat)
    requires n < m <= IdGenerator.MAX_INT64
    ensures Before(Text(n), Text(m))
  {
    Int64Fits(m);
    PaddedIsFixed(n, WIDTH);
    PaddedIsFixed(m, WIDTH);
    FixedOrder(n, m, WIDTH);
    PrefixBefore("txn", Fixed(n, WIDTH), Fixed(m, WIDTH));
  }

  /** Texts that differ at `k` have no longer prefix in common. */
  lemma DifferBeyond(s: string, t: string, k: nat)
    requires k < |s| && k < |t| && s[k] != t[k]
    ensures forall i :: k < i <= |s| && i <= |t| ==> s[..i] != t[..i]
  {
    forall i | k < i <= |s| && i <= |t| ensures s[..i] != t[..i] {
      assert s[..i][k] == s[k] && t[..i][k] == t[k];
    }
  }

  lemma BeforeIsStrict(s: string, t: string)
    requires Before(s, t)
    ensures !Before(t, s) && s != t
  {
    var k :| 0 <= k < |s| && k < |t| && s[..k] == t[..k] && s[k] < t[k];
    DifferBeyond(s, t, k);
    forall i | 0 <= i < k ensures s[i] == t[i] {
      assert s[..k][i] == s[i] && t[..k][i] == t[i];
    }
  }

  // ---------------------------------------------------------------- cache keys

  /** %d. */
  function Signed(n: int): string {
    if n < 0 then "-" + Decimal(-n) else Decimal(n)
  }

  function BalanceKey(account: int): string {
    "balance:" + Signed(account)
  }

  function StatusKey(id: int): string {
    "tx_status:" + Text(id)
  }

  lemma {:induction false} DecimalDigits(n: nat)
    ensures Decimal(n) != "" && Decimal(n)[0] != '-'
    ensures n >= 10 ==> |Decimal(n)| > 1
  {
    if n >= 10 { DecimalDigits(n / 10); }
  }

  lemma {:induction false} DecimalInjective(n: nat, m: nat)
    requires Decimal(n) == Decimal(m)
    ensures n == m
  {
    DecimalDigits(n);
    DecimalDigits(m);
    var s, t := Decimal(n), Decimal(m);
    assert s[|s| - 1] == Digit(n % 10) && t[|t| - 1] == Digit(m % 10);
    if n >= 10 && m >= 10 {
      assert s[..|s| - 1] == Decimal(n / 10) && t[..|t| - 1] == Decimal(m / 10);
      DecimalInjective(n / 10, m / 10);
    }
  }

  /** One Redis serves both caches: no two accounts share a key, and no account shares one with a transaction. */
  lemma KeysDoNotClash(a: int, b: int, id: int)
    ensures BalanceKey(a) == BalanceKey(b) <==> a == b
    ensures BalanceKey(a) != StatusKey(id)
  {
    assert BalanceKey(a)[0] == 'b' && StatusKey(id)[0] == 't';
    if BalanceKey(a) == BalanceKey(b) {
      assert BalanceKey(a)[8..] == Signed(a) && BalanceKey(b)[8..] == Signed(b);
      DecimalDigits(if a < 0 then -a else a);
      DecimalDigits(if b < 0 then -b else b);
      if a < 0 && b < 0 {
        assert Signed(a)[1..] == Decimal(-a) && Signed(b)[1..] == Decimal(-b);
        DecimalInjective(-a, -b);
      } else if a >= 0 && b >= 0 {
        DecimalInjective(a, b);
      }
    }
  }

  /** A balance key is "balance:" and the account number in decimal; a status key is "tx_status:" and the identifier's text. */
  lemma KeysAreDecimal(account: int, id: int)
    ensures BalanceKey(account)[..8] == "balance:"
    ensures account >= 0 ==> Numeral(BalanceKey(account)[8..], account)
    ensures account < 0 ==> BalanceKey(account)[8..9] == "-" && Numeral(BalanceKey(account)[9..], -account)
    ensures StatusKey(id) == "tx_status:" + Text(id)
  {
    DecimalIsNumeral(if account < 0 then -account else account);
    assert BalanceKey(account)[8..] == Signed(account);
    if account < 0 {
      assert BalanceKey(account)[9..] == Signed(account)[1..] == Decimal(-account);
      assert BalanceKey(account)[8..9] == "-";
    }
  }
}
