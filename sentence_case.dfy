/**
 * `camelToSentenceCase`: a space is put before every capital by a global
 * regular-expression replace, then the string is split on spaces, every
 * piece upper-cased and the pieces joined with spaces again. Only ASCII
 * letters change case.
 */
module SentenceCase {

  predicate IsUpper(c: char)
  {
    'A' <= c <= 'Z'
  }

  /** The class `[a-z0-9]`. */
  predicate IsLowerOrDigit(c: char)
  {
    'a' <= c <= 'z' || '0' <= c <= '9'
  }

  /** One character with a space before it when it is a capital. */
  function SpaceBefore(c: char): string
  {
    if IsUpper(c) then [' ', c] else [c]
  }

  /** The string with a space inserted before every capital, character by character. */
  function Spaced(s: string): string
  {
    if s == [] then [] else SpaceBefore(s[0]) + Spaced(s[1..])
  }

  /**
   * `s.replace(/([a-z0-9]|(?=[A-Z]))([A-Z])/g, '$1 $2')`, scanning left to
   * right: a lower-case letter or digit followed by a capital is one match
   * (the space goes between them), a capital on its own is a match of the
   * empty alternative (the space goes before it), anything else is copied.
   * Either way the replace puts a space before every capital and nowhere else.
   */
  function ReplaceCapitals(s: string): (r: string)
    ensures r == Spaced(s)
    decreases |s|
  {
    if s == [] then []
    else if |s| >= 2 && IsLowerOrDigit(s[0]) && IsUpper(s[1]) then
      var rest := ReplaceCapitals(s[2..]);
      assert s[1..][1..] == s[2..];
      assert Spaced(s) == [s[0]] + ([' ', s[1]] + Spaced(s[2..]));
      [s[0], ' ', s[1]] + rest
    else if IsUpper(s[0]) then [' ', s[0]] + ReplaceCapitals(s[1..])
    else [s[0]] + ReplaceCapitals(s[1..])
  }

  /** `s.split(sep)`: the pieces between separators; `""` splits into `[""]`. */
  function Split(s: string, sep: char): (parts: seq<string>)
    ensures |parts| >= 1
    ensures forall k :: 0 <= k < |parts| ==> sep !in parts[k]
  {
    if s == [] then [[]]
    else
      var rest := Split(s[1..], sep);
      if s[0] == sep then [[]] + rest else [[s[0]] + rest[0]] + rest[1..]
  }

  /** `parts.join(sep)`. */
  function JoinWith(parts: seq<string>, sep: char): string
  {
    if parts == [] then []
    else if |parts| == 1 then parts[0]
    else parts[0] + [sep] + JoinWith(parts[1..], sep)
  }

  /** A longer first piece makes a longer joined string, with the rest unchanged. */
  lemma JoinFirst(c: char, parts: seq<string>, sep: char)
    requires parts != []
    ensures JoinWith([[c] + parts[0]] + parts[1..], sep) == [c] + JoinWith(parts, sep)
  {
    var p := [[c] + parts[0]] + parts[1..];
    assert p[1..] == parts[1..];
  }

  /** Joining the pieces of a split gives the string back. */
  lemma {:induction false} JoinSplit(s: string, sep: char)
    ensures JoinWith(Split(s, sep), sep) == s
    decreases |s|
  {
    if s != [] {
      var rest := Split(s[1..], sep);
      JoinSplit(s[1..], sep);
      if s[0] == sep {
        assert ([[]] + rest)[1..] == rest;
      } else {
        JoinFirst(s[0], rest, sep);
      }
      assert s == [s[0]] + s[1..];
    }
  }

  /** `toUpperCase` on ASCII: lower-case letters become capitals, everything else stays. */
  function Upper(c: char): char
  {
    if 'a' <= c <= 'z' then (c as int - 32) as char else c
  }

  function UpperString(s: string): (r: string)
    ensures |r| == |s| && forall i :: 0 <= i < |s| ==> r[i] == Upper(s[i])
  {
    seq(|s|, i requires 0 <= i < |s| => Upper(s[i]))
  }

  /** `parts.map(s => s.toUpperCase())`. */
  function UpperAll(parts: seq<string>): (r: seq<string>)
    ensures |r| == |parts| && forall k :: 0 <= k < |parts| ==> r[k] == UpperString(parts[k])
  {
    seq(|parts|, k requires 0 <= k < |parts| => UpperString(parts[k]))
  }

  /** Upper-casing piece by piece and joining is upper-casing the joined string, when the separator has no case. */
  lemma {:induction false} JoinUpper(parts: seq<string>, sep: char)
    requires Upper(sep) == sep
    ensures JoinWith(UpperAll(parts), sep) == UpperString(JoinWith(parts, sep))
  {
    if |parts| > 1 {
      JoinUpper(parts[1..], sep);
      assert UpperAll(parts)[1..] == UpperAll(parts[1..]);
      assert UpperString(JoinWith(parts, sep)) == UpperString(parts[0]) + [sep] + UpperString(JoinWith(parts[1..], sep));
    }
  }

  /**
   * `camelToSentenceCase`: the title is the upper-cased input with a space
   * before every capital of the input.
   */
  function CamelToSentenceCase(s: string): (r: string)
    ensures r == UpperString(Spaced(s))
  {
    var spaced := ReplaceCapitals(s);
    JoinUpper(Split(spaced, ' '), ' ');
    JoinSplit(spaced, ' ');
    JoinWith(UpperAll(Split(spaced, ' ')), ' ')
  }

  lemma AppendAssociative(x: string, y: string, z: string)
    ensures x + (y + z) == (x + y) + z
  {
  }

  lemma SpacedCons(c: char, s: string)
    ensures Spaced([c] + s) == SpaceBefore(c) + Spaced(s)
  {
    assert ([c] + s)[1..] == s;
  }

  /** Spacing works piece by piece. */
  lemma {:induction false} SpacedAppend(a: string, b: string)
    ensures Spaced(a + b) == Spaced(a) + Spaced(b)
  {
    if a == [] {
      assert a + b == b;
    } else {
      var c, t := a[0], a[1..];
      SpacedAppend(t, b);
      assert a + b == [c] + (t + b);
      assert a == [c] + t;
      SpacedCons(c, t + b);
      SpacedCons(c, t);
      AppendAssociative(SpaceBefore(c), Spaced(t), Spaced(b));
    }
  }

  /** A string without capitals gets no spaces. */
  lemma {:induction false} SpacedNoCapitals(s: string)
    requires forall i :: 0 <= i < |s| ==> !IsUpper(s[i])
    ensures Spaced(s) == s
  {
    if s != [] {
      SpacedNoCapitals(s[1..]);
    }
  }

  /** One capital between two runs without capitals gets the only space. */
  lemma SpacedOneCapital(head: string, cap: char, tail: string)
    requires forall i :: 0 <= i < |head| ==> !IsUpper(head[i])
    requires forall i :: 0 <= i < |tail| ==> !IsUpper(tail[i])
    requires IsUpper(cap)
    ensures Spaced(head + [cap] + tail) == head + [' ', cap] + tail
  {
    SpacedAppend(head + [cap], tail);
    SpacedAppend(head, [cap]);
    SpacedNoCapitals(head);
    SpacedNoCapitals(tail);
    assert Spaced([cap]) == [' ', cap];
  }

  lemma SubCategorySpaced()
    ensures Spaced("subCategory") == "sub Category"
  {
    var head, tail := "sub", "ategory";
    SpacedOneCapital(head, 'C', tail);
    assert head + ['C'] + tail == "subCategory";
    assert head + [' ', 'C'] + tail == "sub Category";
  }

  lemma SubCategoryUpper()
    ensures UpperString("sub Category") == "SUB CATEGORY"
  {
    var r := UpperString("sub Category");
    assert forall i :: 0 <= i < |r| ==> r[i] == "SUB CATEGORY"[i];
  }

  lemma SubCategoryExample()
    ensures CamelToSentenceCase("subCategory") == "SUB CATEGORY"
  {
    SubCategorySpaced();
    SubCategoryUpper();
  }

  lemma StateExample()
    ensures CamelToSentenceCase("state") == "STATE"
  {
    SpacedNoCapitals("state");
    var r := UpperString("state");
    assert forall i :: 0 <= i < |r| ==> r[i] == "STATE"[i];
  }
}
