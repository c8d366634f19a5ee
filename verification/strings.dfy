/**
  String primitives the service relies on from JavaScript: `includes`,
  `startsWith`, `toLowerCase`, the `\D` filter and `join('\n')`.
  A string is a `seq<char>`; nothing here knows about Unicode normalisation.
 */
module Strings {

  /** `p` is a prefix of `s` (JavaScript `s.startsWith(p)`). */
  predicate StartsWith(s: string, p: string)
  {
    |p| <= |s| && s[..|p|] == p
  }

  /** `w` occurs in `s` starting at index `i`. */
  predicate OccursAt(s: string, w: string, i: nat)
  {
    i + |w| <= |s| && s[i..i + |w|] == w
  }

  /** JavaScript `s.includes(w)`: `w` occurs somewhere in `s`. */
  predicate Contains(s: string, w: string)
  {
    exists i :: 0 <= i <= |s| - |w| && OccursAt(s, w, i)
  }

  /** Whatever surrounds `w`, the result contains `w`. */
  lemma ContainsInMiddle(a: string, w: string, b: string)
    ensures Contains(a + w + b, w)
  {
    var s := a + w + b;
    assert s[|a|..|a| + |w|] == w;
    assert OccursAt(s, w, |a|);
  }

  /** Containing a word implies containing each of its prefixes. */
  lemma ContainsPrefixOfWord(s: string, w: string, rest: string)
    requires Contains(s, w + rest)
    ensures Contains(s, w)
  {
    var i :| 0 <= i <= |s| - |w + rest| && OccursAt(s, w + rest, i);
    assert s[i..i + |w|] == (w + rest)[..|w|];
    assert OccursAt(s, w, i);
  }

  /** A word with a character that never appears in `s` does not occur in `s`. */
  lemma AbsentChar(s: string, w: string, k: nat)
    requires k < |w| && w[k] !in s
    ensures !Contains(s, w)
  {
  }

  /**
    The case mapping of `toLowerCase` for the characters this model covers:
    ASCII capitals and the Latin-1 capitals U+00C0..U+00DE (except the
    multiplication sign U+00D7) move 32 code points up to their small forms.
   */
  function LowerChar(c: char): (r: char)
    ensures 'A' <= c <= 'Z' ==> 'a' <= r <= 'z'
    ensures 'À' <= c <= 'Þ' && c != '×' ==> 'à' <= r <= 'þ'
    ensures !('A' <= c <= 'Z') && !('À' <= c <= 'Þ' && c != '×') ==> r == c
  {
    if 'A' <= c <= 'Z' then (c as int + 32) as char
    else if 'À' <= c <= 'Þ' && c != '×' then (c as int + 32) as char
    else c
  }

  // The capitals the mapping covers, in code-point order, and their small forms in the same order.
  const AsciiCapitals := "ABCDEFGHIJKLMNOPQRSTUVWXYZ"
  const AsciiSmalls := "abcdefghijklmnopqrstuvwxyz"
  const Latin1Capitals := "ÀÁÂÃÄÅÆÇÈÉÊËÌÍÎÏÐÑÒÓÔÕÖØÙÚÛÜÝÞ"
  const Latin1Smalls := "àáâãäåæçèéêëìíîïðñòóôõöøùúûüýþ"

  /** Each ASCII capital becomes its own small letter, as the two tables pair them. */
  lemma AsciiLowerCase()
    ensures |AsciiCapitals| == |AsciiSmalls| == 26
    ensures forall i :: 0 <= i < |AsciiCapitals| ==> LowerChar(AsciiCapitals[i]) == AsciiSmalls[i]
  {
  }

  /** Each Latin-1 capital becomes its own small letter, as the two tables pair them. */
  lemma Latin1LowerCase()
    ensures |Latin1Capitals| == |Latin1Smalls| == 30
    ensures forall i :: 0 <= i < |Latin1Capitals| ==> LowerChar(Latin1Capitals[i]) == Latin1Smalls[i]
  {
  }

  /**
    JavaScript `s.toLowerCase()`, character by character: no capital the
    mapping covers survives, and every other character is kept in place.
   */
  function ToLower(s: string): (r: string)
    ensures |r| == |s|
    ensures forall i :: 0 <= i < |r| ==> !('A' <= r[i] <= 'Z') && !('À' <= r[i] <= 'Þ' && r[i] != '×')
    ensures forall i :: 0 <= i < |s| && !('A' <= s[i] <= 'Z') && !('À' <= s[i] <= 'Þ' && s[i] != '×') ==> r[i] == s[i]
    ensures forall i :: 0 <= i < |s| ==> r[i] == LowerChar(s[i])
  {
    seq(|s|, i requires 0 <= i < |s| => LowerChar(s[i]))
  }

  /** Lower-casing twice changes nothing more than lower-casing once. */
  lemma ToLowerIdempotent(s: string)
    ensures ToLower(ToLower(s)) == ToLower(s)
  {
    var t := ToLower(s);
    forall i | 0 <= i < |s| ensures ToLower(t)[i] == t[i] {
      var c := s[i];
      assert LowerChar(LowerChar(c)) == LowerChar(c);
    }
  }

  /** The regular-expression class `\d`: an ASCII decimal digit. */
  predicate IsDigit(c: char)
  {
    '0' <= c <= '9'
  }

  predicate AllDigits(s: string)
  {
    forall i :: 0 <= i < |s| ==> IsDigit(s[i])
  }

  /** JavaScript `s.replace(/\D/g, '')`: keep the digits, in order. */
  function KeepDigits(s: string): (r: string)
    ensures AllDigits(r)
    ensures |r| <= |s|
    ensures forall c :: c in r <==> c in s && IsDigit(c)
    decreases |s|
  {
    if |s| == 0 then ""
    else if IsDigit(s[|s| - 1]) then KeepDigits(s[..|s| - 1]) + [s[|s| - 1]]
    else KeepDigits(s[..|s| - 1])
  }

  /** Digit filtering distributes over concatenation. */
  lemma {:induction false} KeepDigitsAppend(a: string, b: string)
    ensures KeepDigits(a + b) == KeepDigits(a) + KeepDigits(b)
    decreases |b|
  {
    if |b| == 0 {
      assert a + b == a;
    } else {
      var b' := b[..|b| - 1];
      assert (a + b)[..|a + b| - 1] == a + b';
      assert b[..|b| - 1] == b';
      KeepDigitsAppend(a, b');
    }
  }

  /** A string of digits is left as it is by the filter. */
  lemma {:induction false} KeepDigitsOfDigits(s: string)
    requires AllDigits(s)
    ensures KeepDigits(s) == s
    decreases |s|
  {
    if |s| > 0 {
      KeepDigitsOfDigits(s[..|s| - 1]);
      assert s[..|s| - 1] + [s[|s| - 1]] == s;
    }
  }

  /** A string without digits disappears under the filter. */
  lemma {:induction false} KeepDigitsOfNonDigits(s: string)
    requires forall i :: 0 <= i < |s| ==> !IsDigit(s[i])
    ensures KeepDigits(s) == ""
    decreases |s|
  {
    if |s| > 0 {
      KeepDigitsOfNonDigits(s[..|s| - 1]);
    }
  }

  /** The decimal rendering of a natural number, as a template literal shows it. */
  function NatToString(n: nat): (r: string)
    ensures |r| > 0 && AllDigits(r)
  {
    var d := ['0', '1', '2', '3', '4', '5', '6', '7', '8', '9'][n % 10];
    if n < 10 then [d] else NatToString(n / 10) + [d]
  }

  /** JavaScript `lines.join(sep)`. */
  function Join(lines: seq<string>, sep: char): (r: string)
    decreases |lines|
  {
    if |lines| == 0 then ""
    else if |lines| == 1 then lines[0]
    else lines[0] + [sep] + Join(lines[1..], sep)
  }

  /** Index of the first `c` in `s`. */
  function IndexOf(s: string, c: char): (i: nat)
    requires c in s
    ensures i < |s| && s[i] == c
    ensures forall j :: 0 <= j < i ==> s[j] != c
  {
    if s[0] == c then 0 else 1 + IndexOf(s[1..], c)
  }

  /** JavaScript `s.split(sep)` for a one-character separator. */
  function Split(s: string, sep: char): (r: seq<string>)
    ensures |r| > 0
    decreases |s|
  {
    if sep !in s then [s]
    else
      var i := IndexOf(s, sep);
      [s[..i]] + Split(s[i + 1..], sep)
  }

  /** The first separator of `a + [sep] + b` is the one placed after `a` when `a` has none. */
  lemma IndexOfAfterClean(a: string, sep: char, b: string)
    requires sep !in a
    ensures sep in a + [sep] + b
    ensures IndexOf(a + [sep] + b, sep) == |a|
  {
    var s := a + [sep] + b;
    assert s[|a|] == sep;
    assert forall j :: 0 <= j < |a| ==> s[j] == a[j];
  }

  /** Splitting at a first separator placed after a separator-free part yields that part, then the split of the remainder. */
  lemma SplitAfterClean(a: string, sep: char, b: string)
    requires sep !in a
    ensures Split(a + [sep] + b, sep) == [a] + Split(b, sep)
  {
    var s := a + [sep] + b;
    IndexOfAfterClean(a, sep, b);
    assert s[..|a|] == a;
    assert s[|a| + 1..] == b;
  }

  /**
    Splitting a join recovers the parts, provided there is at least one
    part and no part contains the separator.
   */
  lemma {:induction false} SplitJoin(lines: seq<string>, sep: char)
    requires |lines| > 0
    requires forall k :: 0 <= k < |lines| ==> sep !in lines[k]
    ensures Split(Join(lines, sep), sep) == lines
    decreases |lines|
  {
    if |lines| > 1 {
      var rest := Join(lines[1..], sep);
      assert Join(lines, sep) == lines[0] + [sep] + rest;
      SplitAfterClean(lines[0], sep, rest);
      SplitJoin(lines[1..], sep);
      assert [lines[0]] + lines[1..] == lines;
    }
  }
}
