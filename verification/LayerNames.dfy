/** Names of per-layer bank entries: the formatter and the pattern that reads it back. */
module LayerNames {
  import opened Basics

  predicate IsDigit(c: char) { '0' <= c <= '9' }

  function DigitChar(d: nat): (c: char)
    requires d < 10
    ensures IsDigit(c) && DigitValue(c) == d
  {
    (d + '0' as int) as char
  }

  function DigitValue(c: char): nat
    requires IsDigit(c)
  {
    c as int - '0' as int
  }

  predicate AllDigits(s: string) { forall i :: 0 <= i < |s| ==> IsDigit(s[i]) }

  function Decimal(n: nat): (s: string)
    ensures s != "" && AllDigits(s)
  {
    if n < 10 then [DigitChar(n)] else Decimal(n / 10) + [DigitChar(n % 10)]
  }

  /** Decimal digits, zero-padded on the left to at least five. */
  function Pad5(n: nat): (s: string)
    ensures AllDigits(s) && 5 <= |s|
  {
    var d := Decimal(n);
    if |d| < 5 then seq(5 - |d|, _ => '0') + d else d
  }

  function Value(s: string): nat
    requires AllDigits(s)
  {
    if s == "" then 0 else 10 * Value(s[..|s| - 1]) + DigitValue(s[|s| - 1])
  }

  function Pow10(k: nat): nat { if k == 0 then 1 else 10 * Pow10(k - 1) }

  lemma {:induction false} DecimalValue(n: nat)
    ensures Value(Decimal(n)) == n
  {
    if n >= 10 {
      DecimalValue(n / 10);
      assert Decimal(n)[..|Decimal(n)| - 1] == Decimal(n / 10);
    }
  }

  lemma {:induction false} DecimalLength(n: nat, k: Pos)
    ensures |Decimal(n)| <= k <==> n < Pow10(k)
  {
    if n < 10 {
      Pow10Grows(k);
    } else if k == 1 {
    } else {
      DecimalLength(n / 10, k - 1);
    }
  }

  lemma {:induction false} Pow10Grows(k: Pos)
    ensures 10 <= Pow10(k)
  {
    if k > 1 { Pow10Grows(k - 1); }
  }

  lemma {:induction false} LeadingZeros(z: nat, s: string)
    requires AllDigits(s)
    ensures AllDigits(seq(z, _ => '0') + s) && Value(seq(z, _ => '0') + s) == Value(s)
    decreases z + |s|
  {
    var p := seq(z, _ => '0') + s;
    if s != "" {
      assert p[..|p| - 1] == seq(z, _ => '0') + s[..|s| - 1];
      LeadingZeros(z, s[..|s| - 1]);
    } else if z > 0 {
      assert p[..z - 1] == seq(z - 1, _ => '0') + "";
      LeadingZeros(z - 1, "");
    }
  }

  lemma {:induction false} Pad5Value(n: nat)
    ensures Value(Pad5(n)) == n
    ensures |Pad5(n)| == 5 <==> n < 100000
  {
    DecimalValue(n);
    DecimalLength(n, 5);
    assert Pow10(5) == 100000 by { assert Pow10(2) == 100; assert Pow10(4) == 10000; }
    if |Decimal(n)| < 5 {
      LeadingZeros(5 - |Decimal(n)|, Decimal(n));
    }
  }

  function LayerEntryName(bank: string, layer: nat): string {
    bank + "#L" + Pad5(layer)
  }

  /** The entry name is the bank's, a mark, and five decimal digits that are the layer. */
  lemma {:induction false} NameHasDigits(bank: string, layer: nat)
    requires layer < 100000
    ensures var name, n := LayerEntryName(bank, layer), |bank| + 2;
      && |name| == n + 5 && name[..n] == bank + "#L"
      && (forall i :: n <= i < n + 5 ==> '0' <= name[i] <= '9')
      && layer == 10000 * (name[n] as int - 48) + 1000 * (name[n + 1] as int - 48) +
          100 * (name[n + 2] as int - 48) + 10 * (name[n + 3] as int - 48) + (name[n + 4] as int - 48)
  {
    var d := Pad5(layer);
    Pad5Value(layer);
    FiveDigits(d);
    hide Pad5, Value;
  }

  lemma {:induction false} FiveDigits(d: string)
    requires |d| == 5 && AllDigits(d)
    ensures Value(d) == 10000 * (d[0] as int - 48) + 1000 * (d[1] as int - 48) +
          100 * (d[2] as int - 48) + 10 * (d[3] as int - 48) + (d[4] as int - 48)
  {
    assert d[..4][..3] == d[..3] && d[..3][..2] == d[..2] && d[..2][..1] == d[..1] && d[..1][..0] == "";
    LastDigit(d);
    LastDigit(d[..4]);
    LastDigit(d[..3]);
    LastDigit(d[..2]);
    LastDigit(d[..1]);
    hide Value;
  }

  lemma {:induction false} LastDigit(d: string)
    requires d != "" && AllDigits(d)
    ensures Value(d) == 10 * Value(d[..|d| - 1]) + (d[|d| - 1] as int - 48)
    ensures Value("") == 0
  {
  }

  /** The pattern `^(.+)#L(\d{5})$`: `.` matches no newline, `$` also matches before a final one. */
  function MatchEntry(name: string): Option<(string, nat)> {
    var core := if name != "" && name[|name| - 1] == '\n' then name[..|name| - 1] else name;
    if |core| >= 8 && core[|core| - 7..|core| - 5] == "#L" && AllDigits(core[|core| - 5..]) &&
        '\n' !in core[..|core| - 7]
    then Some((core[..|core| - 7], Value(core[|core| - 5..])))
    else None
  }

  /** What the pattern matches: a bank name without line feeds, the mark, five digits, and at most one line
      feed at the end. */
  lemma {:induction false} MatchIff(name: string, bank: string, layer: nat)
    ensures MatchEntry(name) == Some((bank, layer)) <==>
      bank != "" && '\n' !in bank && exists digits: string :: (
        && |digits| == 5 && AllDigits(digits) && Value(digits) == layer
        && (name == bank + "#L" + digits || name == bank + "#L" + digits + "\n"))
  {
    if MatchEntry(name) == Some((bank, layer)) {
      var core := if name[|name| - 1] == '\n' then name[..|name| - 1] else name;
      var digits := core[|core| - 5..];
      assert core == bank + "#L" + digits;
      assert name == core || name == core + "\n";
    }
    if bank != "" && '\n' !in bank {
      if digits: string :| (
        && |digits| == 5 && AllDigits(digits) && Value(digits) == layer
        && (name == bank + "#L" + digits || name == bank + "#L" + digits + "\n")) {
        var core := bank + "#L" + digits;
        assert core[|core| - 1] == digits[4] && digits[4] != '\n';
        assert core[|core| - 7..|core| - 5] == "#L" && core[|core| - 5..] == digits && core[..|core| - 7] == bank;
        assert name == core || (name[|name| - 1] == '\n' && name[..|name| - 1] == core);
      }
    }
  }

  /** A name reads back as its bank and layer exactly for bank names the pattern's first group can
      match and for layers of at most five digits; a longer layer number reads as no layer at all. */
  lemma {:induction false} NameReadsBackIff(bank: string, layer: nat)
    ensures MatchEntry(LayerEntryName(bank, layer)) == Some((bank, layer)) <==>
        (layer < 100000 && bank != "" && '\n' !in bank)
    ensures layer >= 100000 ==> MatchEntry(LayerEntryName(bank, layer)) == None
  {
    var name := LayerEntryName(bank, layer);
    var d := Pad5(layer);
    Pad5Value(layer);
    assert name[|name| - 1] == d[|d| - 1];
    assert name[|bank| + 2..] == d;
    if layer < 100000 {
      assert name[|name| - 5..] == d && name[|name| - 7..|name| - 5] == "#L" && name[..|name| - 7] == bank;
    } else {
      assert IsDigit(d[|d| - 6]) && name[|name| - 6] == d[|d| - 6];
      assert name[|name| - 7..|name| - 5][1] == name[|name| - 6];
      assert "#L"[1] == 'L' && !IsDigit('L');
    }
  }
}
