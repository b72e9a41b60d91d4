/**
 * The earlier number formatter of the pivot table: it inserts a comma
 * before every character that has a multiple of three characters from it
 * to the end, except before the first character. It has no exception for
 * the character after a minus sign.
 */
module PivotTableLegacy {
  import opened Numerals
  import PivotTable

  /** Whether the earlier formatter puts a comma before position `i` of `s`. */
  predicate CommaBefore(s: string, i: nat)
  {
    (|s| - i) % 3 == 0 && i != 0
  }

  /** The string that the `map` callback returns for position `i`. */
  function Piece(s: string, i: nat): (p: string)
    requires i < |s|
    ensures p == (if CommaBefore(s, i) then [',', s[i]] else [s[i]])
  {
    if (|s| - i) % 3 == 0 then (if i == 0 then [s[i]] else [',', s[i]]) else [s[i]]
  }

  /** The pieces `s.split('').map(...)` produces, one per character. */
  function Pieces(s: string): (ps: seq<string>)
    ensures |ps| == |s| && forall i :: 0 <= i < |s| ==> ps[i] == Piece(s, i)
  {
    seq(|s|, i requires 0 <= i < |s| => Piece(s, i))
  }

  /** The earlier `prettifyNumber(n)`: deleting the commas from it gives back `n.toString()`. */
  function PrettifyNumber(n: int): (r: string)
    ensures RemoveCommas(r) == NumberToString(n)
  {
    var s := NumberToString(n);
    NumberHasNoComma(n);
    StripCommaPieces(s, Pieces(s));
    Join(Pieces(s))
  }

  /** Without a minus sign the two formatters place the same commas. */
  lemma AgreesOnNonNegatives(n: int)
    requires n >= 0
    ensures PrettifyNumber(n) == PivotTable.PrettifyNumber(n)
  {
    var s := NumberToString(n);
    assert '-' !in s by {
      forall i | 0 <= i < |s| ensures s[i] != '-' { assert IsDigit(s[i]); }
    }
    assert Pieces(s) == PivotTable.Pieces(s);
  }

  /** A text of length 1 more than a multiple of 3 that starts with `-` is printed starting with `-,`. */
  lemma MinusThenComma(s: string)
    requires |s| >= 2 && |s| % 3 == 1 && s[0] == '-'
    ensures var r := Join(Pieces(s)); |r| >= 3 && r[0] == '-' && r[1] == ','
  {
    var ps := Pieces(s);
    assert ps[0] == "-" && ps[1] == [',', s[1]];
    assert ps == ps[..2] + ps[2..];
    JoinAppend(ps[..2], ps[2..]);
    assert Join(ps[..2]) == ['-', ',', s[1]] by {
      assert ps[..2][..1] == ["-"];
      assert Join(ps[..2][..1]) == "-" by { assert ps[..2][..1][..0] == []; }
    }
  }

  /**
   * For a negative number whose text, minus sign included, has a length of
   * one more than a multiple of three, a comma follows the minus sign, so
   * the result is not grouped correctly.
   */
  lemma CommaAfterMinus(n: int)
    requires n < 0 && |NumberToString(n)| % 3 == 1
    ensures var r := PrettifyNumber(n); |r| >= 2 && r[..2] == "-,"
    ensures !PivotTable.WellGrouped(PrettifyNumber(n))
  {
    var s := NumberToString(n);
    MinusThenComma(s);
    var r := Join(Pieces(s));
    assert r[..2] == "-,";
    assert PivotTable.MinusCommaAt(r, 0);
  }

  lemma Digits123456()
    ensures NatToString(123456) == "123456"
  {
  }

  lemma MinusText()
    ensures NumberToString(-123456) == "-123456"
  {
    Digits123456();
  }

  /** The pieces the earlier formatter makes of -123456: a comma lands after the minus sign. */
  lemma MinusCommaPieces()
    ensures Pieces(NumberToString(-123456)) == ["-", ",1", "2", "3", ",4", "5", "6"]
  {
    MinusText();
    var s := "-123456";
    var ps, want := Pieces(s), ["-", ",1", "2", "3", ",4", "5", "6"];
    forall i | 0 <= i < 7 ensures ps[i] == want[i] {
      assert ps[i] == Piece(s, i);
    }
  }

  /** The earlier formatter prints -123456 as "-,123,456". */
  lemma MinusCommaExample()
    ensures PrettifyNumber(-123456) == "-,123,456"
  {
    MinusCommaPieces();
    var ps := Pieces(NumberToString(-123456));
    assert Join(ps[..1]) == "-" by { assert ps[..1][..0] == []; }
    assert Join(ps[..2]) == "-,1" by { assert ps[..2][..1] == ps[..1]; }
    assert Join(ps[..3]) == "-,12" by { assert ps[..3][..2] == ps[..2]; }
    assert Join(ps[..4]) == "-,123" by { assert ps[..4][..3] == ps[..3]; }
    assert Join(ps[..5]) == "-,123,4" by { assert ps[..5][..4] == ps[..4]; }
    assert Join(ps[..6]) == "-,123,45" by { assert ps[..6][..5] == ps[..5]; }
    assert Join(ps) == "-,123,456" by { assert ps[..6] == ps[..|ps| - 1]; }
  }

  /** The current formatter prints the same number as "-123,456". */
  lemma MinusCommaFixedExample()
    ensures PivotTable.PrettifyNumber(-123456) == "-123,456"
  {
    Digits123456();
    assert PivotTable.Grouped("123456") == "123,456" by {
      assert "123456"[..3] == "123" && "123456"[3..] == "456";
    }
  }
}
