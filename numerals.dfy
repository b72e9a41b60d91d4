/**
 * Decimal text of integers as JavaScript's `Number.prototype.toString()`
 * produces it for integral values, and the `join('')` of a list of strings.
 */
module Numerals {

  predicate IsDigit(c: char)
  {
    '0' <= c <= '9'
  }

  predicate AllDigits(s: string)
  {
    forall i :: 0 <= i < |s| ==> IsDigit(s[i])
  }

  function DigitChar(d: nat): (c: char)
    requires d < 10
    ensures IsDigit(c)
  {
    (48 + d) as char
  }

  function DigitValue(c: char): (d: nat)
    requires IsDigit(c)
    ensures d < 10
  {
    c as int - 48
  }

  /** The decimal digits of `m`, most significant first, without leading zeros. */
  function NatToString(m: nat): (s: string)
    ensures 1 <= |s| && AllDigits(s)
    ensures |s| > 1 ==> s[0] != '0'
    ensures m < 10 <==> |s| == 1
  {
    if m < 10 then [DigitChar(m)]
    else NatToString(m / 10) + [DigitChar(m % 10)]
  }

  /** The value of a string of decimal digits. */
  function ParseDigits(s: string): nat
    requires AllDigits(s)
  {
    if s == [] then 0
    else ParseDigits(s[..|s| - 1]) * 10 + DigitValue(s[|s| - 1])
  }

  lemma {:induction false} NatToStringRoundTrip(m: nat)
    ensures ParseDigits(NatToString(m)) == m
  {
    if m >= 10 {
      NatToStringRoundTrip(m / 10);
      var s := NatToString(m);
      assert s[..|s| - 1] == NatToString(m / 10);
    }
  }

  lemma {:induction false} NatToStringShort(m: nat)
    requires m < 1000
    ensures |NatToString(m)| <= 3
  {
    if m >= 10 { NatToStringShort(m / 10); if m >= 100 { assert m / 10 >= 10; } }
  }

  /** `n.toString()` for an integral number. */
  function NumberToString(n: int): (s: string)
    ensures 1 <= |s|
    ensures (s[0] == '-') <==> n < 0
    ensures n < 0 ==> |s| >= 2 && AllDigits(s[1..]) && ParseDigits(s[1..]) == -n
    ensures n >= 0 ==> AllDigits(s) && ParseDigits(s) == n
    ensures var first := if n < 0 then 1 else 0; |s| > first + 1 ==> s[first] != '0'
  {
    if n < 0 then
      NatToStringRoundTrip(-n);
      var s := "-" + NatToString(-n);
      assert s[1..] == NatToString(-n);
      s
    else
      NatToStringRoundTrip(n);
      NatToString(n)
  }

  /** The text of a number holds no comma. */
  lemma NumberHasNoComma(n: int)
    ensures ',' !in NumberToString(n)
  {
    var s := NumberToString(n);
    forall i | 0 <= i < |s| ensures s[i] != ',' {
      if i > 0 { assert s[1..][i - 1] == s[i]; }
    }
  }

  /** `parts.join('')`. */
  function Join(parts: seq<string>): string
  {
    if parts == [] then "" else Join(parts[..|parts| - 1]) + parts[|parts| - 1]
  }

  lemma {:induction false} JoinAppend(a: seq<string>, b: seq<string>)
    ensures Join(a + b) == Join(a) + Join(b)
    decreases |b|
  {
    if b == [] {
      assert a + b == a;
    } else {
      var b' := b[..|b| - 1];
      assert (a + b)[..|a + b| - 1] == a + b';
      assert (a + b)[|a + b| - 1] == b[|b| - 1];
      JoinAppend(a, b');
      assert Join(b) == Join(b') + b[|b| - 1];
    }
  }

  /** `s` with every comma deleted. */
  function RemoveCommas(s: string): string
  {
    if s == [] then ""
    else RemoveCommas(s[..|s| - 1]) + (if s[|s| - 1] == ',' then "" else [s[|s| - 1]])
  }

  lemma {:induction false} RemoveCommasAppend(a: string, b: string)
    ensures RemoveCommas(a + b) == RemoveCommas(a) + RemoveCommas(b)
    decreases |b|
  {
    if b == [] {
      assert a + b == a;
    } else {
      var b' := b[..|b| - 1];
      assert (a + b)[..|a + b| - 1] == a + b';
      assert (a + b)[|a + b| - 1] == b[|b| - 1];
      RemoveCommasAppend(a, b');
    }
  }

  lemma {:induction false} RemoveCommasNone(s: string)
    requires ',' !in s
    ensures RemoveCommas(s) == s
    decreases |s|
  {
    if s != [] {
      RemoveCommasNone(s[..|s| - 1]);
      assert s == s[..|s| - 1] + [s[|s| - 1]];
    }
  }

  /** A character absent from a text is absent from every slice of it. */
  lemma AbsentFromSlice(s: string, c: char, i: nat, j: nat)
    requires c !in s && i <= j <= |s|
    ensures c !in s[i..j]
  {
  }

  lemma RemoveCommasPiece(c: char)
    requires c != ','
    ensures RemoveCommas([c]) == [c] && RemoveCommas([',', c]) == [c]
  {
    assert [',', c][..1] == [','];
    assert [','][..0] == [];
    assert [c][..0] == [];
  }

  /**
   * Joining one piece per character, each the character alone or preceded
   * by a comma, and then deleting the commas gives back the characters.
   */
  lemma {:induction false} StripCommaPieces(s: string, pieces: seq<string>)
    requires ',' !in s && |pieces| == |s|
    requires forall i :: 0 <= i < |s| ==> pieces[i] == [s[i]] || pieces[i] == [',', s[i]]
    ensures RemoveCommas(Join(pieces)) == s
    decreases |s|
  {
    if s != [] {
      var k := |s| - 1;
      var pre, last := pieces[..k], pieces[k];
      assert s == s[..k] + [s[k]];
      assert ',' !in s[..k] by {
        forall c | c in s[..k] ensures c in s { }
      }
      assert forall i :: 0 <= i < k ==> pre[i] == [s[..k][i]] || pre[i] == [',', s[..k][i]] by {
        forall i | 0 <= i < k ensures pre[i] == [s[..k][i]] || pre[i] == [',', s[..k][i]] {
          assert pre[i] == pieces[i] && s[..k][i] == s[i];
        }
      }
      StripCommaPieces(s[..k], pre);
      assert Join(pieces) == Join(pre) + last;
      RemoveCommasAppend(Join(pre), last);
      assert s[k] != ',' by { assert s[k] in s; }
      RemoveCommasPiece(s[k]);
    }
  }
}
