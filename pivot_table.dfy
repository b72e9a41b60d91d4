/**
 * The number formatter of the pivot table: `prettifyNumber` inserts a
 * comma before every character that has a multiple of three characters
 * from it to the end, except before the first character and, when the
 * text holds a minus sign, before the character that follows it.
 */
module PivotTable {
  import opened Numerals

  /** Whether the formatter puts a comma before position `i` of `s`. */
  predicate CommaBefore(s: string, i: nat)
  {
    (|s| - i) % 3 == 0 && !(i == 0 || (i == 1 && '-' in s))
  }

  /** The string that the `map` callback returns for position `i`. */
  function Piece(s: string, i: nat): (p: string)
    requires i < |s|
    ensures p == (if CommaBefore(s, i) then [',', s[i]] else [s[i]])
  {
    if (|s| - i) % 3 == 0 then
      (if i == 0 || (i == 1 && '-' in s) then [s[i]] else [',', s[i]])
    else [s[i]]
  }

  function Pieces(s: string): (ps: seq<string>)
    ensures |ps| == |s|
  {
    seq(|s|, i requires 0 <= i < |s| => Piece(s, i))
  }

  /**
   * `prettifyNumber(n)`: split the decimal text, map each character, join.
   * The result is the sign followed by the digits grouped in threes from the right.
   */
  function PrettifyNumber(n: int): (r: string)
    ensures r == GroupedNumber(n)
  {
    PiecesGrouped(n);
    Join(Pieces(NumberToString(n)))
  }

  // ---- A reference definition of thousands grouping ----

  /** Digits grouped in threes from the right, the groups separated by commas. */
  function Grouped(d: string): string
    decreases |d|
  {
    if |d| <= 3 then d else Grouped(d[..|d| - 3]) + [','] + d[|d| - 3..]
  }

  /** The text of `n` with its digits grouped: the intended result of the formatter. */
  function GroupedNumber(n: int): string
  {
    (if n < 0 then "-" else "") + Grouped(NatToString(if n < 0 then -n else n))
  }

  /** A comma at `p` is followed by exactly three digits and then by another comma or the end. */
  predicate GroupAfter(r: string, p: nat)
    requires p < |r|
  {
    r[p] == ',' ==>
      p + 3 < |r| && IsDigit(r[p + 1]) && IsDigit(r[p + 2]) && IsDigit(r[p + 3])
      && (p + 4 == |r| || r[p + 4] == ',')
  }

  /** The four characters from `p` on are not all digits. */
  predicate NotFourDigits(r: string, p: nat)
    requires p + 3 < |r|
  {
    !(IsDigit(r[p]) && IsDigit(r[p + 1]) && IsDigit(r[p + 2]) && IsDigit(r[p + 3]))
  }

  /**
   * Grouping as text: every comma is followed by exactly three digits and
   * then by another comma or the end, and no four digits stand together.
   */
  predicate DigitGroups(r: string)
  {
    && (forall p :: 0 <= p < |r| ==> GroupAfter(r, p))
    && (forall p :: 0 <= p < |r| - 3 ==> NotFourDigits(r, p))
  }

  predicate DigitsOrCommas(r: string)
  {
    forall p :: 0 <= p < |r| ==> IsDigit(r[p]) || r[p] == ','
  }

  lemma {:induction false} GroupedShape(d: string)
    requires 1 <= |d| && AllDigits(d)
    ensures |Grouped(d)| >= 1 && Grouped(d)[0] == d[0]
    ensures DigitsOrCommas(Grouped(d))
    ensures DigitGroups(Grouped(d))
    decreases |d|
  {
    if |d| > 3 {
      var pre, t := d[..|d| - 3], d[|d| - 3..];
      GroupedShape(pre);
      var a := Grouped(pre);
      var g := a + [','] + t;
      assert Grouped(d) == g;
      var m := |a|;
      assert forall p :: 0 <= p < m ==> g[p] == a[p];
      assert g[m] == ',' && g[m + 1] == d[|d| - 3] && g[m + 2] == d[|d| - 2] && g[m + 3] == d[|d| - 1];
      assert |g| == m + 4;
      forall p | 0 <= p < |g| ensures GroupAfter(g, p) {
        if p < m {
          assert GroupAfter(a, p);
          if a[p] == ',' {
            assert g[p + 1] == a[p + 1] && g[p + 2] == a[p + 2] && g[p + 3] == a[p + 3];
            if p + 4 < m { assert g[p + 4] == a[p + 4]; }
          }
        } else if p > m {
          assert IsDigit(g[p]);
        }
      }
      forall p | 0 <= p < |g| - 3 ensures NotFourDigits(g, p) {
        if p + 3 < m {
          assert NotFourDigits(a, p);
          assert g[p] == a[p] && g[p + 1] == a[p + 1] && g[p + 2] == a[p + 2] && g[p + 3] == a[p + 3];
        }
      }
    }
  }

  /** Deleting commas around one more group separator. */
  lemma RemoveCommasSeparator(g: string, pre: string, t: string)
    requires RemoveCommas(g) == pre && ',' !in t
    ensures RemoveCommas(g + [','] + t) == pre + t
  {
    var gc := g + [','];
    RemoveCommasAppend(g, [',']);
    assert RemoveCommas([',']) == [] by { assert [','][..0] == []; }
    assert RemoveCommas(gc) == pre by { assert pre + [] == pre; }
    RemoveCommasAppend(gc, t);
    RemoveCommasNone(t);
  }

  /** One step of the induction below: the last group and its comma. */
  lemma RemoveCommasGroupedStep(d: string)
    requires |d| > 3 && ',' !in d
    requires RemoveCommas(Grouped(d[..|d| - 3])) == d[..|d| - 3]
    ensures RemoveCommas(Grouped(d)) == d
  {
    var pre, t := d[..|d| - 3], d[|d| - 3..];
    assert ',' !in t by {
      AbsentFromSlice(d, ',', |d| - 3, |d|);
      assert t == d[|d| - 3..|d|];
    }
    assert Grouped(d) == Grouped(pre) + [','] + t;
    RemoveCommasSeparator(Grouped(pre), pre, t);
    assert pre + t == d;
  }

  lemma {:induction false} RemoveCommasGrouped(d: string)
    requires ',' !in d
    ensures RemoveCommas(Grouped(d)) == d
    decreases |d|
  {
    if |d| <= 3 {
      RemoveCommasNone(d);
    } else {
      AbsentFromSlice(d, ',', 0, |d| - 3);
      RemoveCommasGrouped(d[..|d| - 3]);
      RemoveCommasGroupedStep(d);
    }
  }

  /** Dropping the last three characters of a text without a minus sign keeps the other pieces. */
  lemma PiecesPrefix(d: string)
    requires |d| > 3 && '-' !in d
    ensures Pieces(d)[..|d| - 3] == Pieces(d[..|d| - 3])
  {
    var n := |d|;
    var pre := d[..n - 3];
    AbsentFromSlice(d, '-', 0, n - 3);
    forall i | 0 <= i < n - 3 ensures Pieces(d)[i] == Pieces(pre)[i] {
      assert (n - i) % 3 == (n - 3 - i) % 3;
    }
  }

  /** The last three pieces of a text of four or more digits: a comma opens the last group. */
  lemma PiecesLastGroup(d: string)
    requires |d| > 3 && '-' !in d
    ensures Join(Pieces(d)[|d| - 3..]) == [','] + d[|d| - 3..]
  {
    var n := |d|;
    var q := Pieces(d)[n - 3..];
    assert q == [[',', d[n - 3]], [d[n - 2]], [d[n - 1]]] by {
      assert (n - (n - 3)) % 3 == 0;
    }
    var q1 := q[..2][..1];
    assert q1 == [[',', d[n - 3]]];
    assert Join(q1) == [',', d[n - 3]] by { assert q1[..0] == []; }
    assert Join(q[..2]) == [',', d[n - 3], d[n - 2]];
    assert Join(q) == [',', d[n - 3], d[n - 2], d[n - 1]];
    assert d[n - 3..] == [d[n - 3], d[n - 2], d[n - 1]];
  }

  /** The formatter on a text without a minus sign equals the reference grouping. */
  lemma {:induction false} PiecesGroupDigits(d: string)
    requires '-' !in d
    ensures Join(Pieces(d)) == Grouped(d)
    decreases |d|
  {
    if |d| <= 3 {
      JoinSingles(d);
    } else {
      var n := |d|;
      var pre := d[..n - 3];
      var ps := Pieces(d);
      AbsentFromSlice(d, '-', 0, n - 3);
      PiecesGroupDigits(pre);
      assert ps == ps[..n - 3] + ps[n - 3..];
      calc {
        Join(ps);
        { JoinAppend(ps[..n - 3], ps[n - 3..]); }
        Join(ps[..n - 3]) + Join(ps[n - 3..]);
        { PiecesPrefix(d); PiecesLastGroup(d); }
        Grouped(pre) + ([','] + d[n - 3..]);
        { assert Grouped(pre) + ([','] + d[n - 3..]) == Grouped(pre) + [','] + d[n - 3..]; }
        Grouped(d);
      }
    }
  }

  lemma {:induction false} JoinOfSingles(d: string, ps: seq<string>)
    requires |ps| == |d| && forall i :: 0 <= i < |d| ==> ps[i] == [d[i]]
    ensures Join(ps) == d
    decreases |d|
  {
    if d != [] {
      var k := |d| - 1;
      assert d == d[..k] + [d[k]];
      JoinOfSingles(d[..k], ps[..k]);
    }
  }

  /** Joining the one-character pieces of a text shorter than four characters gives it back. */
  lemma JoinSingles(d: string)
    requires |d| <= 3
    ensures Join(Pieces(d)) == d
  {
    var ps := Pieces(d);
    forall i | 0 <= i < |d| ensures ps[i] == [d[i]] {
      assert (|d| - i) % 3 == 0 ==> i == 0;
    }
    JoinOfSingles(d, ps);
  }

  /** A minus sign in front contributes its own piece; the digits' pieces are unchanged. */
  lemma PiecesWithSign(d: string)
    requires |d| >= 1 && '-' !in d
    ensures Pieces("-" + d) == ["-"] + Pieces(d)
  {
    var s := "-" + d;
    assert '-' in s by { assert s[0] == '-'; }
    forall i | 1 <= i < |s| ensures Piece(s, i) == Piece(d, i - 1) {
      assert s[i] == d[i - 1];
      assert (|s| - i) == (|d| - (i - 1));
    }
  }

  /** The joined pieces equal the reference: an optional minus sign, then the grouped digits. */
  lemma PiecesGrouped(n: int)
    ensures Join(Pieces(NumberToString(n))) == GroupedNumber(n)
  {
    var m := if n < 0 then -n else n;
    var d := NatToString(m);
    assert '-' !in d by { forall c | c in d ensures c != '-' { var i :| 0 <= i < |d| && d[i] == c; } }
    PiecesGroupDigits(d);
    if n < 0 {
      assert NumberToString(n) == "-" + d;
      PiecesWithSign(d);
      JoinAppend(["-"], Pieces(d));
      assert Join(["-"]) == "-" by { assert ["-"][..0] == []; }
    } else {
      assert NumberToString(n) == d;
    }
  }

  /** Deleting the commas from the result gives back `n.toString()`. */
  lemma CommasOnlyAdded(n: int)
    ensures RemoveCommas(PrettifyNumber(n)) == NumberToString(n)
  {
    var s := NumberToString(n);
    NumberHasNoComma(n);
    StripCommaPieces(s, Pieces(s));
  }

  /** A minus sign at `p` directly followed by a comma. */
  predicate MinusCommaAt(r: string, p: nat)
    requires p + 1 < |r|
  {
    r[p] == '-' && r[p + 1] == ','
  }

  /** Properly grouped digits after an optional minus sign. */
  predicate WellGrouped(r: string)
  {
    && |r| >= 1 && r[0] != ','
    && (forall p :: 0 <= p < |r| - 1 ==> !MinusCommaAt(r, p))
    && DigitGroups(r)
  }

  lemma GroupedIsWellGrouped(g: string)
    requires |g| >= 1 && IsDigit(g[0]) && DigitsOrCommas(g) && DigitGroups(g)
    ensures WellGrouped(g)
  {
    forall p | 0 <= p < |g| - 1 ensures !MinusCommaAt(g, p) {
      assert IsDigit(g[p]) || g[p] == ',';
    }
  }

  lemma SignedIsWellGrouped(g: string)
    requires |g| >= 1 && IsDigit(g[0]) && DigitsOrCommas(g) && DigitGroups(g)
    ensures WellGrouped("-" + g)
  {
    var r := "-" + g;
    assert forall p :: 1 <= p < |r| ==> r[p] == g[p - 1];
    forall p | 0 <= p < |r| ensures GroupAfter(r, p) {
      if p > 0 {
        assert GroupAfter(g, p - 1);
        if r[p] == ',' && p + 4 < |r| { assert r[p + 4] == g[p + 3]; }
      }
    }
    forall p | 0 <= p < |r| - 3 ensures NotFourDigits(r, p) {
      if p > 0 { assert NotFourDigits(g, p - 1); }
    }
    forall p | 0 <= p < |r| - 1 ensures !MinusCommaAt(r, p) {
      if p > 0 { assert IsDigit(g[p - 1]) || g[p - 1] == ','; }
    }
  }

  /**
   * The result is correctly grouped: no leading comma, no comma right after
   * the minus sign, every comma followed by exactly three digits, and no
   * run of four digits without a comma.
   */
  lemma PrettifyGroups(n: int)
    ensures WellGrouped(PrettifyNumber(n))
  {
    var d := NatToString(if n < 0 then -n else n);
    GroupedShape(d);
    if n < 0 {
      SignedIsWellGrouped(Grouped(d));
    } else {
      assert PrettifyNumber(n) == Grouped(d) by { assert "" + Grouped(d) == Grouped(d); }
      GroupedIsWellGrouped(Grouped(d));
    }
  }

  /** Numbers of at most three digits are printed unchanged. */
  lemma SmallValuesUnchanged(n: int)
    requires -1000 < n < 1000
    ensures PrettifyNumber(n) == NumberToString(n)
  {
    NatToStringShort(if n < 0 then -n else n);
  }

  lemma Digits1234()
    ensures NatToString(1234) == "1234"
  {
  }

  lemma Grouped1234()
    ensures Grouped("1234") == "1,234"
  {
    assert "1234"[..1] == "1" && "1234"[1..] == "234";
  }

  lemma NegativeExample()
    ensures PrettifyNumber(-1234) == "-1,234"
  {
    Digits1234();
    Grouped1234();
  }
}
