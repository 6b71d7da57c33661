/**
 Byte strings as the host treats them.  A Go string is a sequence of bytes; here each
 `char` of a `string` stands for one byte, and case folding is ASCII only.
 */
module Ascii {

  function LowerChar(c: char): char {
    if 'A' <= c <= 'Z' then c + ('a' - 'A') else c
  }

  function Lower(s: string): (r: string)
    ensures |r| == |s|
  {
    seq(|s|, i requires 0 <= i < |s| => LowerChar(s[i]))
  }

  // Two bytes are the same letter, whatever its case.
  predicate SameLetter(c: char, d: char) {
    || c == d
    || ('A' <= c <= 'Z' && d == c + ('a' - 'A'))
    || ('A' <= d <= 'Z' && c == d + ('a' - 'A'))
  }

  predicate EqualFold(s: string, t: string) {
    |s| == |t| && forall i | 0 <= i < |s| :: SameLetter(s[i], t[i])
  }

  lemma LowerDecidesEqualFold(s: string, t: string)
    ensures Lower(s) == Lower(t) <==> EqualFold(s, t)
  {
    if Lower(s) == Lower(t) {
      forall i | 0 <= i < |s| ensures SameLetter(s[i], t[i]) {
        assert Lower(s)[i] == Lower(t)[i];
      }
    }
    if EqualFold(s, t) {
      assert forall i | 0 <= i < |s| :: LowerChar(s[i]) == LowerChar(t[i]);
    }
  }

  // The copy-and-overwrite loop: bytes already visited are lowered, the rest untouched.
  method LowerBytes(s: string) returns (r: string)
    ensures r == Lower(s)
    ensures EqualFold(r, s) && forall i | 0 <= i < |r| :: !('A' <= r[i] <= 'Z')
  {
    var b := new char[|s|](i requires 0 <= i < |s| => s[i]);
    for i := 0 to b.Length
      invariant forall k | 0 <= k < i :: b[k] == LowerChar(s[k])
      invariant forall k | i <= k < |s| :: b[k] == s[k]
    {
      if b[i] >= 'A' && b[i] <= 'Z' {
        b[i] := b[i] + ('a' - 'A');
      }
    }
    r := b[..];
  }

  predicate HasPrefix(s: string, prefix: string) {
    |prefix| <= |s| && s[..|prefix|] == prefix
  }

  // Decimal numerals, as strconv.Itoa and the %d verb print them.

  predicate IsDigit(c: char) { '0' <= c <= '9' }

  predicate AllDigits(s: string) { forall i | 0 <= i < |s| :: IsDigit(s[i]) }

  function Itoa(n: nat): (r: string)
    ensures |r| > 0 && AllDigits(r)
  {
    if n < 10 then ['0' + n as char] else Itoa(n / 10) + ['0' + (n % 10) as char]
  }

  function Atoi(s: string): int {
    if |s| == 0 then 0 else 10 * Atoi(s[..|s| - 1]) + (s[|s| - 1] as int - '0' as int)
  }

  lemma {:induction false} AtoiItoa(n: nat)
    ensures Atoi(Itoa(n)) == n
  {
    if n < 10 {
      assert Itoa(n)[..0] == "";
    } else {
      AtoiItoa(n / 10);
      assert Itoa(n)[..|Itoa(n)| - 1] == Itoa(n / 10);
    }
  }

  // The numerals are the decimal ones, without leading zeros.
  lemma ItoaIsDecimal(n: nat, d: nat)
    requires d < 10
    ensures Itoa(d) == ["0123456789"[d]]
    ensures n > 0 ==> Itoa(10 * n + d) == Itoa(n) + Itoa(d)
  {
    assert (10 * n + d) / 10 == n && (10 * n + d) % 10 == d;
  }

  // Removes the longest run of digits at the end.
  function TrimDigits(s: string): string {
    if |s| > 0 && IsDigit(s[|s| - 1]) then TrimDigits(s[..|s| - 1]) else s
  }

  lemma {:induction false} TrimDigitsSplits(word: string, digits: string)
    requires AllDigits(digits)
    requires |word| > 0 ==> !IsDigit(word[|word| - 1])
    ensures TrimDigits(word + digits) == word
  {
    if |digits| == 0 {
      assert word + digits == word;
    } else {
      var front := digits[..|digits| - 1];
      assert (word + digits)[..|word + digits| - 1] == word + front;
      TrimDigitsSplits(word, front);
    }
  }

  // strings.Join(values, ",")
  function JoinComma(values: seq<string>): string {
    if |values| == 0 then ""
    else if |values| == 1 then values[0]
    else values[0] + "," + JoinComma(values[1..])
  }

  function SplitComma(s: string): (fields: seq<string>)
    ensures |fields| > 0
  {
    if s == "" then [""]
    else
      var rest := SplitComma(s[1..]);
      if s[0] == ',' then [""] + rest else [[s[0]] + rest[0]] + rest[1..]
  }

  // One value is joined to itself, whatever is in it, and no values to nothing.
  lemma JoinOfOne(value: string)
    ensures JoinComma([value]) == value && JoinComma([]) == ""
  {}

  // A text without commas comes only of the one value that it is.
  lemma JoinedIsOne(values: seq<string>, s: string)
    requires s != "" && ',' !in s
    ensures JoinComma(values) == s <==> values == [s]
  {
    if |values| > 1 { assert JoinComma(values)[|values[0]|] == ','; }
  }

  // Joining is associative: one comma, and nothing else, comes between two lists.
  lemma {:induction false} JoinOfBoth(front: seq<string>, back: seq<string>)
    requires front != [] && back != []
    ensures JoinComma(front + back) == JoinComma(front) + "," + JoinComma(back)
  {
    assert (front + back)[1..] == front[1..] + back;
    if |front| > 1 {
      JoinOfBoth(front[1..], back);
      var rest := JoinComma(front[1..]) + "," + JoinComma(back);
      assert front[0] + "," + rest == front[0] + "," + JoinComma(front[1..]) + "," + JoinComma(back);
    } else {
      assert front[1..] + back == back;
    }
  }

  // What one more character in front does to the fields.
  function Prepended(c: char, fields: seq<string>): seq<string>
    requires fields != []
  {
    if c == ',' then [""] + fields else [[c] + fields[0]] + fields[1..]
  }

  lemma SplitStep(c: char, s: string)
    ensures SplitComma([c] + s) == Prepended(c, SplitComma(s))
  {
    assert ([c] + s)[1..] == s;
  }

  lemma PrependedConcat(c: char, first: seq<string>, second: seq<string>)
    requires first != []
    ensures Prepended(c, first + second) == Prepended(c, first) + second
  {
    assert (first + second)[1..] == first[1..] + second;
  }

  lemma {:induction false} SplitAtComma(field: string, rest: string)
    ensures SplitComma(field + "," + rest) == SplitComma(field) + SplitComma(rest)
  {
    if field == "" {
      assert field + "," + rest == [','] + rest;
      SplitStep(',', rest);
    } else {
      var c, tail := field[0], field[1..];
      SplitAtComma(tail, rest);
      assert field == [c] + tail && field + "," + rest == [c] + (tail + "," + rest);
      SplitStep(c, tail);
      SplitStep(c, tail + "," + rest);
      PrependedConcat(c, SplitComma(tail), SplitComma(rest));
    }
  }

  lemma {:induction false} SplitWithoutComma(field: string)
    requires ',' !in field
    ensures SplitComma(field) == [field]
  {
    if field != "" {
      SplitWithoutComma(field[1..]);
      assert [field[0]] + field[1..] == field;
    }
  }

  // The fields of all values, in order.
  function Fields(values: seq<string>): seq<string> {
    if values == [] then [] else SplitComma(values[0]) + Fields(values[1..])
  }

  // Joined values split into the fields of each, in order; so values without commas can be
  // told apart again.
  lemma {:induction false} JoinedValuesSplit(values: seq<string>)
    requires |values| > 0
    ensures SplitComma(JoinComma(values)) == Fields(values)
    ensures (forall i | 0 <= i < |values| :: ',' !in values[i]) ==> SplitComma(JoinComma(values)) == values
  {
    if ',' !in values[0] { SplitWithoutComma(values[0]); }
    if |values| == 1 {
      assert Fields(values[1..]) == [];
    } else {
      JoinedValuesSplit(values[1..]);
      SplitAtComma(values[0], JoinComma(values[1..]));
      assert values == [values[0]] + values[1..];
    }
  }

  // strings.Contains(s, part)
  predicate Contains(s: string, part: string) {
    exists i | 0 <= i <= |s| :: HasPrefix(s[i..], part)
  }

  ghost predicate Inside(s: string, part: string) {
    exists before: string, after: string :: s == before + part + after
  }

  lemma ContainsMeansInside(s: string, part: string)
    ensures Contains(s, part) <==> Inside(s, part)
  {
    if i :| 0 <= i <= |s| && HasPrefix(s[i..], part) {
      assert s == s[..i] + part + s[i..][|part|..];
    }
    if before: string, after: string :| s == before + part + after {
      assert s[|before|..] == part + after;
      assert HasPrefix(s[|before|..], part);
    }
  }

  // A part without a comma stands on one side of a comma.
  lemma ContainsAcrossComma(left: string, right: string, part: string)
    requires part != "" && ',' !in part
    ensures Contains(left + "," + right, part) <==> Contains(left, part) || Contains(right, part)
  {
    var s := left + "," + right;
    if i :| 0 <= i <= |s| && HasPrefix(s[i..], part) {
      assert s[i..][..|part|] == s[i..i + |part|] == part;
      if i <= |left| {
        assert s[|left|] == ',';
        forall k | i <= k < i + |part| ensures s[k] != ',' { assert s[k] == part[k - i]; }
        assert left[i..][..|part|] == part;
      } else {
        assert right[i - |left| - 1..] == s[i..];
      }
    }
    if i :| 0 <= i <= |left| && HasPrefix(left[i..], part) {
      assert s[i..][..|part|] == left[i..][..|part|];
    }
    if i :| 0 <= i <= |right| && HasPrefix(right[i..], part) {
      assert s[|left| + 1 + i..] == right[i..];
    }
  }

  // A joined list contains a part without a comma exactly when one of its values does.
  lemma {:induction false} JoinContains(values: seq<string>, part: string)
    requires part != "" && ',' !in part
    ensures Contains(JoinComma(values), part) <==> exists i | 0 <= i < |values| :: Contains(values[i], part)
  {
    if |values| > 1 {
      ContainsAcrossComma(values[0], JoinComma(values[1..]), part);
      JoinContains(values[1..], part);
      if i :| 0 <= i < |values| && Contains(values[i], part) {
        assert i > 0 ==> values[1..][i - 1] == values[i];
      }
      if i :| 0 <= i < |values[1..]| && Contains(values[1..][i], part) {
        assert values[i + 1] == values[1..][i];
      }
    }
  }
}
