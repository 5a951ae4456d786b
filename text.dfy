/** String primitives the application's handlers are built from: the ASCII
    restriction of toUpperCase/toLowerCase, split('') and join(sep), a
    character replacement, a character count, and Number.prototype.toString
    on non-negative integers (used to turn a clock reading into an id). */
module Text {

  predicate IsAsciiLower(c: char) { 'a' <= c <= 'z' }
  predicate IsAsciiUpper(c: char) { 'A' <= c <= 'Z' }

  /** toUpperCase on one character, restricted to ASCII letters. */
  function UpperChar(c: char): char
  {
    if IsAsciiLower(c) then (c as int - 32) as char else c
  }

  /** toLowerCase on one character, restricted to ASCII letters. */
  function LowerChar(c: char): char
  {
    if IsAsciiUpper(c) then (c as int + 32) as char else c
  }

  /** String.prototype.toUpperCase under the ASCII case map. */
  function Upper(s: string): string
  {
    seq(|s|, i requires 0 <= i < |s| => UpperChar(s[i]))
  }

  /** String.prototype.toLowerCase under the ASCII case map. */
  function Lower(s: string): string
  {
    seq(|s|, i requires 0 <= i < |s| => LowerChar(s[i]))
  }

  /** After upper-casing no lower-case letter is left, length and every
      non-letter are kept, and lower-casing forgets the earlier upper-casing. */
  lemma UpperProperties(s: string)
    ensures |Upper(s)| == |s|
    ensures forall i :: 0 <= i < |s| ==> !IsAsciiLower(Upper(s)[i])
    ensures forall i :: 0 <= i < |s| ==> (IsAsciiLower(s[i]) || IsAsciiUpper(s[i]) || Upper(s)[i] == s[i])
    ensures Lower(Upper(s)) == Lower(s) && Upper(Upper(s)) == Upper(s)
  {
  }

  /** The mirror image of UpperProperties for lower-casing. */
  lemma LowerProperties(s: string)
    ensures |Lower(s)| == |s|
    ensures forall i :: 0 <= i < |s| ==> !IsAsciiUpper(Lower(s)[i])
    ensures forall i :: 0 <= i < |s| ==> (IsAsciiLower(s[i]) || IsAsciiUpper(s[i]) || Lower(s)[i] == s[i])
    ensures Upper(Lower(s)) == Upper(s) && Lower(Lower(s)) == Lower(s)
  {
  }

  /** s.replace(/from/g, to) for a one-character pattern. */
  function ReplaceAll(s: string, from: char, to: char): string
  {
    seq(|s|, i requires 0 <= i < |s| => if s[i] == from then to else s[i])
  }

  /** s.split(''): one single-character string per character. */
  function Chars(s: string): seq<string>
  {
    seq(|s|, i requires 0 <= i < |s| => [s[i]])
  }

  /** Array.prototype.join(sep): "" for no parts, the part itself for one. */
  function Join<T>(parts: seq<seq<T>>, sep: seq<T>): seq<T>
  {
    if |parts| == 0 then []
    else if |parts| == 1 then parts[0]
    else parts[0] + sep + Join(parts[1..], sep)
  }

  /** Joining the characters of a non-empty s with a one-character separator
      puts s[k/2] at every even position and the separator at every odd one. */
  lemma {:induction false} JoinChars(s: string, sep: char)
    requires |s| > 0
    ensures |Join(Chars(s), [sep])| == 2 * |s| - 1
    ensures forall k :: 0 <= k < 2 * |s| - 1 ==>
              Join(Chars(s), [sep])[k] == if k % 2 == 0 then s[k / 2] else sep
  {
    if |s| > 1 {
      var rest := s[1..];
      assert Chars(s)[1..] == Chars(rest);
      JoinChars(rest, sep);
      var j := Join(Chars(s), [sep]);
      var jr := Join(Chars(rest), [sep]);
      assert j == [s[0]] + [sep] + jr;
      forall k | 0 <= k < 2 * |s| - 1
        ensures j[k] == if k % 2 == 0 then s[k / 2] else sep
      {
        if k >= 2 {
          assert j[k] == jr[k - 2];
          assert (k - 2) % 2 == k % 2 && (k - 2) / 2 == k / 2 - 1;
        }
      }
    }
  }

  /** Number of occurrences of x in s. */
  function Count<T(==)>(x: T, s: seq<T>): nat
  {
    if |s| == 0 then 0 else (if s[0] == x then 1 else 0) + Count(x, s[1..])
  }

  /** Sum of the occurrences of x over all parts. */
  function CountAll<T(==)>(x: T, parts: seq<seq<T>>): nat
  {
    if |parts| == 0 then 0 else Count(x, parts[0]) + CountAll(x, parts[1..])
  }

  lemma {:induction false} CountConcat<T>(x: T, a: seq<T>, b: seq<T>)
    ensures Count(x, a + b) == Count(x, a) + Count(x, b)
  {
    if |a| > 0 {
      assert (a + b)[1..] == a[1..] + b;
      CountConcat(x, a[1..], b);
    } else {
      assert a + b == b;
    }
  }

  /** No occurrence is counted exactly when x does not occur. */
  lemma {:induction false} CountZero<T>(x: T, s: seq<T>)
    ensures Count(x, s) == 0 <==> x !in s
  {
    if |s| > 0 {
      CountZero(x, s[1..]);
      assert s == [s[0]] + s[1..];
    }
  }

  lemma {:induction false} CountAllZero<T>(x: T, parts: seq<seq<T>>)
    ensures CountAll(x, parts) == 0 <==> forall i :: 0 <= i < |parts| ==> x !in parts[i]
  {
    if |parts| > 0 {
      CountZero(x, parts[0]);
      CountAllZero(x, parts[1..]);
      assert forall i :: 1 <= i < |parts| ==> parts[i] == parts[1..][i - 1];
    }
  }

  /** A join of n > 0 parts holds the parts' occurrences of x plus n - 1
      copies of the separator's. */
  lemma {:induction false} JoinCount<T>(x: T, parts: seq<seq<T>>, sep: seq<T>)
    requires |parts| > 0
    ensures Count(x, Join(parts, sep)) == CountAll(x, parts) + (|parts| - 1) * Count(x, sep)
  {
    if |parts| > 1 {
      JoinCount(x, parts[1..], sep);
      CountConcat(x, parts[0], sep);
      CountConcat(x, parts[0] + sep, Join(parts[1..], sep));
    } else {
      assert parts[1..] == [];
    }
  }

  predicate IsDigit(c: char) { '0' <= c <= '9' }

  function DigitChar(d: nat): (c: char)
    requires d < 10
    ensures IsDigit(c) && c as int - '0' as int == d
  {
    ('0' as int + d) as char
  }

  /** Decimal rendering of a non-negative integer, as toString gives it:
      non-empty, digits only, and no leading zero unless it is "0". */
  function NatToString(n: nat): (r: string)
    ensures |r| > 0
    ensures forall i :: 0 <= i < |r| ==> IsDigit(r[i])
    ensures |r| > 1 ==> r[0] != '0'
    ensures (n < 10) == (|r| == 1)
    decreases n
  {
    if n < 10 then [DigitChar(n)] else NatToString(n / 10) + [DigitChar(n % 10)]
  }

  /** Value of a string of decimal digits. */
  function DigitsValue(s: string): nat
    requires forall i :: 0 <= i < |s| ==> IsDigit(s[i])
  {
    if |s| == 0 then 0
    else
      assert IsDigit(s[|s| - 1]);
      DigitsValue(s[..|s| - 1]) * 10 + (s[|s| - 1] as int - '0' as int)
  }

  /** Reading the rendering back gives the number. */
  lemma {:induction false} NatToStringRoundTrip(n: nat)
    ensures DigitsValue(NatToString(n)) == n
    decreases n
  {
    var r := NatToString(n);
    if n >= 10 {
      NatToStringRoundTrip(n / 10);
      assert r[..|r| - 1] == NatToString(n / 10);
    } else {
      assert r[..0] == [];
    }
  }

  /** Distinct numbers render as distinct strings. */
  lemma NatToStringInjective(a: nat, b: nat)
    ensures NatToString(a) == NatToString(b) <==> a == b
  {
    NatToStringRoundTrip(a);
    NatToStringRoundTrip(b);
  }
}
