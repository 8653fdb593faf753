// The names of the tool files: `%06d` of a request id, and the byte order in which
// sort.Strings puts them.
module FileNames {
  import opened Texts

  // --- decimal numbers ---

  function Digit(d: nat): char
    requires d < 10
  {
    '0' + d as char
  }

  function Decimal(n: nat): string {
    if n < 10 then [Digit(n)] else Decimal(n / 10) + [Digit(n % 10)]
  }

  function Zeros(k: nat): string {
    if k == 0 then "" else "0" + Zeros(k - 1)
  }

  // Zeros in front up to the given width; the number itself is never cut.
  function Padded(n: nat, width: nat): string {
    var d := Decimal(n);
    if |d| < width then Zeros(width - |d|) + d else d
  }

  // `%06d`, where the sign counts as one of the six places.
  function Base(id: int): string {
    if id < 0 then "-" + Padded(-id, 5) else Padded(id, 6)
  }

  lemma {:induction false} NumberDecimal(n: nat)
    ensures Number(Decimal(n)) == n && Decimal(n) != [] && forall i :: 0 <= i < |Decimal(n)| ==> Decimal(n)[i] != '-'
  {
    if n < 10 {
      assert Decimal(n)[..0] == [];
    } else {
      NumberDecimal(n / 10);
      assert Decimal(n)[..|Decimal(n)| - 1] == Decimal(n / 10);
    }
  }

  lemma {:induction false} ZerosSnoc(k: nat)
    requires k > 0
    ensures Zeros(k) == Zeros(k - 1) + "0"
  {
    if k > 1 {
      ZerosSnoc(k - 1);
    }
  }

  lemma {:induction false} NumberZeros(k: nat, s: string)
    ensures Number(Zeros(k) + s) == Number(s)
    decreases |s|, k
  {
    if s != [] {
      NumberZeros(k, s[..|s| - 1]);
      assert (Zeros(k) + s)[..|Zeros(k) + s| - 1] == Zeros(k) + s[..|s| - 1];
    } else if k > 0 {
      NumberZeros(k - 1, []);
      ZerosSnoc(k);
      assert Zeros(k) + [] == Zeros(k) && Zeros(k - 1) + [] == Zeros(k - 1);
      assert Zeros(k)[..|Zeros(k)| - 1] == Zeros(k - 1);
    }
  }

  lemma NumberPadded(n: nat, width: nat)
    ensures Number(Padded(n, width)) == n && Padded(n, width) != [] && Padded(n, width)[0] != '-'
  {
    NumberDecimal(n);
    if |Decimal(n)| < width {
      NumberZeros(width - |Decimal(n)|, Decimal(n));
    }
  }

  // The sign and the number can be read off the name.
  lemma BaseReads(id: int)
    ensures Base(id) != [] && (Base(id)[0] == '-' <==> id < 0)
    ensures id == if id < 0 then -Number(Base(id)[1..]) else Number(Base(id))
  {
    NumberPadded(if id < 0 then -id else id, if id < 0 then 5 else 6);
    if id < 0 {
      assert Base(id)[1..] == Padded(-id, 5);
    }
  }

  // Different ids have different names.
  lemma BaseInjective(a: int, b: int)
    requires Base(a) == Base(b)
    ensures a == b
  {
    BaseReads(a);
    BaseReads(b);
  }

  // --- six digits sort as numbers ---

  function Pow10(w: nat): nat {
    if w == 0 then 1 else 10 * Pow10(w - 1)
  }

  // The last w digits of n.
  function Fixed(n: nat, w: nat): (s: string)
    ensures |s| == w
  {
    if w == 0 then [] else Fixed(n / 10, w - 1) + [Digit(n % 10)]
  }

  lemma {:induction false} FixedOrder(a: nat, b: nat, w: nat)
    requires a < b < Pow10(w)
    ensures Less(Fixed(a, w), Fixed(b, w))
  {
    if a / 10 < b / 10 {
      FixedOrder(a / 10, b / 10, w - 1);
      LessExtends(Fixed(a / 10, w - 1), Fixed(b / 10, w - 1), [Digit(a % 10)], [Digit(b % 10)]);
    } else {
      LessAfter(Fixed(a / 10, w - 1), [Digit(a % 10)], [Digit(b % 10)]);
    }
  }

  lemma {:induction false} FixedZeros(w: nat)
    ensures Fixed(0, w) == Zeros(w)
  {
    if w > 0 {
      FixedZeros(w - 1);
      ZerosSnoc(w);
    }
  }

  lemma {:induction false} PaddedIsFixed(n: nat, w: nat)
    requires n < Pow10(w) && w > 0
    ensures |Decimal(n)| <= w && Padded(n, w) == Fixed(n, w)
  {
    if n < 10 {
      FixedZeros(w - 1);
    } else {
      PaddedIsFixed(n / 10, w - 1);
      assert Padded(n, w) == Padded(n / 10, w - 1) + [Digit(n % 10)];
    }
  }

  predicate NameLess(a: int, b: int) {
    Less(Base(a) + ".req.json", Base(b) + ".req.json")
  }

  // Up to 999999 the file names sort as the ids do.
  lemma SixDigitsSort(a: int, b: int)
    requires 0 <= a < b <= 999999
    ensures NameLess(a, b)
  {
    assert Pow10(6) == 1000000 by {
      assert Pow10(1) == 10 && Pow10(2) == 100 && Pow10(3) == 1000 && Pow10(4) == 10000 && Pow10(5) == 100000;
    }
    PaddedIsFixed(a, 6);
    PaddedIsFixed(b, 6);
    FixedOrder(a, b, 6);
    LessExtends(Fixed(a, 6), Fixed(b, 6), ".req.json", ".req.json");
  }

  lemma LeadingDigit(n: nat)
    requires n >= 10
    ensures Decimal(n) != [] && Decimal(n / 10) != [] && Decimal(n)[0] == Decimal(n / 10)[0]
  {
    NumberDecimal(n / 10);
  }

  lemma LeadingDigitOf(d: nat, a: nat, b: nat, c: nat, e: nat, f: nat, g: nat)
    requires 0 < d < 10 && a / 10 == d && b / 10 == a && c / 10 == b && e / 10 == c && f / 10 == e
    ensures Decimal(f) != [] && Decimal(f)[0] == Digit(d)
    ensures g / 10 == f ==> Decimal(g) != [] && Decimal(g)[0] == Digit(d)
  {
    assert Decimal(d) == [Digit(d)];
    hide Decimal, Digit;
    LeadingDigit(a);
    LeadingDigit(b);
    LeadingDigit(c);
    LeadingDigit(e);
    LeadingDigit(f);
    if g / 10 == f { LeadingDigit(g); }
  }

  // One id further the order breaks: the seven-digit name sorts in front.
  lemma SevenDigitsSortFirst()
    ensures !NameLess(999999, 1000000)
  {
    LeadingDigitOf(9, 99, 999, 9999, 99999, 999999, 0);
    LeadingDigitOf(1, 10, 100, 1000, 10000, 100000, 1000000);
    NumberPadded(999999, 6);
    hide Decimal;
    PaddedLeads(999999, '9');
    PaddedLeads(1000000, '1');
  }

  lemma PaddedLeads(n: nat, c: char)
    requires n >= 100000 && Decimal(n) != [] && Decimal(n)[0] == c
    ensures Base(n) != [] && Base(n)[0] == c
  {
    AtLeastSix(n, 5);
  }

  lemma {:induction false} AtLeastSix(n: nat, w: nat)
    requires n >= Pow10(w)
    ensures |Decimal(n)| > w
  {
    if w > 0 {
      AtLeastSix(n / 10, w - 1);
    }
  }

  // Ids of up to six digits, and negative ones of up to five, have names of six characters,
  // and the name spells the id.
  lemma SixPlaces(id: int)
    requires -99999 <= id <= 999999
    ensures |Base(id)| == 6
    ensures if id < 0 then Base(id)[0] == '-' && Number(Base(id)[1..]) == -id else Number(Base(id)) == id
  {
    assert Pow10(5) == 100000 && Pow10(6) == 1000000 by {
      assert Pow10(1) == 10 && Pow10(2) == 100 && Pow10(3) == 1000 && Pow10(4) == 10000;
    }
    BaseReads(id);
    if id < 0 {
      PaddedIsFixed(-id, 5);
    } else {
      PaddedIsFixed(id, 6);
    }
  }

  // Longer ids are not cut, and are not padded.
  lemma LongNames(id: int)
    requires id >= 1000000
    ensures Base(id) == Decimal(id) && |Base(id)| > 6 && Number(Base(id)) == id
  {
    assert Pow10(6) == 1000000 by {
      assert Pow10(1) == 10 && Pow10(2) == 100 && Pow10(3) == 1000 && Pow10(4) == 10000 && Pow10(5) == 100000;
    }
    AtLeastSix(id, 6);
    NumberDecimal(id);
  }
}
