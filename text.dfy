/**
 * The few java.lang.String operations the loaders, parsers and serialisers
 * rely on, with Java's semantics written out: split on a one-character
 * literal separator (trailing empty pieces dropped), join, contains,
 * replaceAll of one character, isBlank, "%d" formatting and Integer.parseInt
 * (over unbounded integers).
 */
module Text {
  import opened Wrappers

  predicate StartsWith(s: string, prefix: string) {
    |prefix| <= |s| && s[..|prefix|] == prefix
  }

  predicate EndsWith(s: string, suffix: string) {
    |suffix| <= |s| && s[|s| - |suffix|..] == suffix
  }

  /**
   * Character.isWhitespace: U+0009 to U+000D, U+001C to U+001F, and the
   * Unicode space, line and paragraph separators except the no-break spaces
   * U+00A0, U+2007 and U+202F.
   */
  predicate IsWhitespace(c: char) {
    ('\t' <= c <= '\r') || ('\U{001C}' <= c <= ' ') || c == '\U{1680}' ||
    ('\U{2000}' <= c <= '\U{200A}' && c != '\U{2007}') ||
    c == '\U{2028}' || c == '\U{2029}' || c == '\U{205F}' || c == '\U{3000}'
  }

  /** String.isBlank: empty or white space only. */
  predicate IsBlank(s: string) {
    forall i :: 0 <= i < |s| ==> IsWhitespace(s[i])
  }

  /** replaceAll(c, ""): every occurrence of `c` removed. */
  function RemoveChar(s: string, c: char): string
  {
    if s == [] then []
    else (if s[0] == c then [] else [s[0]]) + RemoveChar(s[1..], c)
  }

  /** What replaceAll(c, "") leaves: no `c`, every other character of `s`, and `s` itself when it has no `c`. */
  lemma {:induction false} RemoveCharMeaning(s: string, c: char)
    ensures c !in RemoveChar(s, c)
    ensures forall d :: d != c ==> (d in RemoveChar(s, c) <==> d in s)
    ensures c !in s ==> RemoveChar(s, c) == s
    decreases |s|
  {
    if s != [] {
      RemoveCharMeaning(s[1..], c);
      assert s == [s[0]] + s[1..];
      forall d ensures d in s <==> d == s[0] || d in s[1..] {
      }
    }
  }

  /** Removing a character from a concatenation removes it from each half. */
  lemma {:induction false} RemoveCharAppend(a: string, b: string, c: char)
    ensures RemoveChar(a + b, c) == RemoveChar(a, c) + RemoveChar(b, c)
    decreases |a|
  {
    if a != [] {
      assert (a + b)[0] == a[0] && (a + b)[1..] == a[1..] + b;
      RemoveCharAppend(a[1..], b, c);
    } else {
      assert a + b == b;
    }
  }

  /** The pieces of `s` between occurrences of `sep`, empty ones included. */
  function Pieces(s: string, sep: char): (r: seq<string>)
    ensures |r| >= 1
    ensures forall k :: 0 <= k < |r| ==> sep !in r[k]
  {
    if s == [] then [""]
    else
      var rest := Pieces(s[1..], sep);
      if s[0] == sep then [""] + rest
      else [[s[0]] + rest[0]] + rest[1..]
  }

  function DropTrailingEmpty(ps: seq<string>): (r: seq<string>)
    ensures |r| <= |ps| && r == ps[..|r|]
    ensures r != [] ==> r[|r| - 1] != ""
    ensures forall k :: |r| <= k < |ps| ==> ps[k] == ""
  {
    if ps == [] then []
    else if ps[|ps| - 1] == "" then DropTrailingEmpty(ps[..|ps| - 1])
    else ps
  }

  /**
   * String.split with a one-character literal separator: when the separator
   * does not occur the result is the string itself, otherwise the pieces with
   * trailing empty pieces removed.
   */
  function Split(s: string, sep: char): (r: seq<string>)
    ensures forall k :: 0 <= k < |r| ==> sep !in r[k]
  {
    if sep !in s then [s] else DropTrailingEmpty(Pieces(s, sep))
  }

  /** String.join: the parts with `sep` between consecutive ones. */
  function Join(parts: seq<string>, sep: char): string
  {
    if parts == [] then ""
    else if |parts| == 1 then parts[0]
    else parts[0] + [sep] + Join(parts[1..], sep)
  }

  lemma {:induction false} PiecesOfJoin(parts: seq<string>, sep: char)
    requires |parts| >= 1
    requires forall k :: 0 <= k < |parts| ==> sep !in parts[k]
    ensures Pieces(Join(parts, sep), sep) == parts
    decreases |parts|, |parts[0]|
  {
    if |parts| == 1 {
      PiecesOfPlain(parts[0], sep);
    } else if parts[0] == "" {
      assert Join(parts, sep) == [sep] + Join(parts[1..], sep);
      PiecesOfJoin(parts[1..], sep);
      assert Join(parts, sep)[1..] == Join(parts[1..], sep);
    } else {
      var s := Join(parts, sep);
      var tail := [parts[0][1..]] + parts[1..];
      assert Join(tail, sep) == s[1..];
      PiecesOfJoin(tail, sep);
      assert [parts[0][0]] + parts[0][1..] == parts[0];
    }
  }

  lemma {:induction false} PiecesOfPlain(s: string, sep: char)
    requires sep !in s
    ensures Pieces(s, sep) == [s]
  {
    if s != [] {
      PiecesOfPlain(s[1..], sep);
      assert [s[0]] + s[1..] == s;
    }
  }

  /** A separator between two strings splits their pieces apart. */
  lemma {:induction false} PiecesAround(a: string, b: string, sep: char)
    ensures Pieces(a + [sep] + b, sep) == Pieces(a, sep) + Pieces(b, sep)
    decreases |a|
  {
    var s := a + [sep] + b;
    if a == [] {
      assert s == [sep] + b && s[1..] == b;
    } else {
      assert s[0] == a[0] && s[1..] == a[1..] + [sep] + b;
      PiecesAround(a[1..], b, sep);
    }
  }

  /** Joining the pieces of a string puts the string back together. */
  lemma {:induction false} JoinOfPieces(s: string, sep: char)
    ensures Join(Pieces(s, sep), sep) == s
    decreases |s|
  {
    if s != [] {
      var rest := Pieces(s[1..], sep);
      JoinOfPieces(s[1..], sep);
      if s[0] == sep {
        var ps := [""] + rest;
        assert ps[1..] == rest;
        assert Join(ps, sep) == [sep] + Join(rest, sep);
      } else if |rest| > 1 {
        var ps := [[s[0]] + rest[0]] + rest[1..];
        assert ps[1..] == rest[1..];
        assert Join(ps, sep) == [s[0]] + (rest[0] + [sep] + Join(rest[1..], sep));
      }
      assert [s[0]] + s[1..] == s;
    }
  }

  /** One more part joins on after a separator. */
  lemma JoinSnoc(parts: seq<string>, p: string, sep: char)
    requires parts != []
    ensures Join(parts + [p], sep) == Join(parts, sep) + [sep] + p
  {
    var n := |parts| - 1;
    assert parts[..n] + [parts[n]] == parts;
    JoinAppendLast(parts, p, sep);
    JoinAppendLast(parts[..n], parts[n], sep);
    TerminatedAppend(parts[..n], parts[n], sep);
  }

  /** Splitting a join gives the parts back, as long as the last part is not empty. */
  lemma SplitOfJoin(parts: seq<string>, sep: char)
    requires |parts| >= 1 && parts[|parts| - 1] != ""
    requires forall k :: 0 <= k < |parts| ==> sep !in parts[k]
    ensures Split(Join(parts, sep), sep) == parts
  {
    PiecesOfJoin(parts, sep);
    if |parts| > 1 {
      assert Join(parts, sep)[|parts[0]|] == sep;
    }
  }

  lemma Join3(a: string, b: string, c: string, sep: char)
    ensures Join([a, b, c], sep) == a + [sep] + b + [sep] + c
  {
    assert [a, b, c][1..] == [b, c];
    assert [b, c][1..] == [c];
    assert Join([b, c], sep) == b + [sep] + Join([c], sep);
  }

  lemma JoinNoSep(parts: seq<string>, sep: char, c: char)
    requires c != sep
    requires forall k :: 0 <= k < |parts| ==> c !in parts[k]
    ensures c !in Join(parts, sep)
    decreases |parts|
  {
    if |parts| > 1 {
      JoinNoSep(parts[1..], sep, c);
    }
  }

  // ----- String.contains -----

  /** `part` occurs in `s` starting at position i. */
  predicate OccursAt(s: string, part: string, i: int) {
    0 <= i <= |s| - |part| && s[i..i + |part|] == part
  }

  /** String.contains. */
  predicate Contains(s: string, part: string) {
    exists i :: 0 <= i <= |s| && OccursAt(s, part, i)
  }

  /** Every character of a part that occurs in `s` is a character of `s`. */
  lemma ContainsChar(s: string, part: string, c: char)
    requires Contains(s, part) && c in part
    ensures c in s
  {
    var i :| 0 <= i <= |s| && OccursAt(s, part, i);
    assert 0 <= i <= |s| - |part|;
    var j :| 0 <= j < |part| && part[j] == c;
    assert s[i..i + |part|][j] == c;
  }

  /** A string without the part's first character does not contain the part. */
  lemma Lacks(s: string, part: string)
    requires part != [] && part[0] !in s
    ensures !Contains(s, part)
  {
    if Contains(s, part) {
      ContainsChar(s, part, part[0]);
    }
  }

  /** When the part's first character is the head of `s` and appears nowhere else, the part can only be a prefix. */
  lemma OnlyAtStart(h: char, t: string, part: string)
    requires part != [] && part[0] == h && h !in t
    ensures Contains([h] + t, part) ==> StartsWith([h] + t, part)
  {
    var s := [h] + t;
    if Contains(s, part) {
      var i :| 0 <= i <= |s| && OccursAt(s, part, i);
      assert 0 <= i <= |s| - |part| && s[i..i + |part|] == part;
    }
  }

  // ----- numbers -----

  function DigitChar(d: nat): (c: char)
    requires d < 10
    ensures '0' <= c <= '9'
  {
    ['0', '1', '2', '3', '4', '5', '6', '7', '8', '9'][d]
  }

  function DigitValue(c: char): (d: nat)
    requires '0' <= c <= '9'
    ensures d < 10 && DigitChar(d) == c
  {
    (c as int - '0' as int) as nat
  }

  predicate IsDigits(s: string) {
    |s| >= 1 && forall i :: 0 <= i < |s| ==> '0' <= s[i] <= '9'
  }

  /** Decimal digits of a natural number, no leading zeros. */
  function NatToString(n: nat): (s: string)
    ensures IsDigits(s)
  {
    if n < 10 then [DigitChar(n)] else NatToString(n / 10) + [DigitChar(n % 10)]
  }

  function DigitsValue(s: string): nat
    requires IsDigits(s)
  {
    if |s| == 1 then DigitValue(s[0])
    else DigitsValue(s[..|s| - 1]) * 10 + DigitValue(s[|s| - 1])
  }

  /** "%d" and Integer.toString. */
  function IntToString(n: int): (s: string)
  {
    if n < 0 then "-" + NatToString(-n) else NatToString(n)
  }

  /** Integer.parseInt's loop: the digits of s from position i on, read after the value acc
      of those before, or None at the first character that is not a digit. */
  function DigitsFrom(s: string, i: nat, acc: int): Option<int>
    requires i <= |s|
    decreases |s| - i
  {
    if i == |s| then Some(acc)
    else if '0' <= s[i] <= '9' then DigitsFrom(s, i + 1, acc * 10 + DigitValue(s[i]))
    else None
  }

  function Negated(r: Option<int>): Option<int> {
    if r.Some? then Some(-r.value) else None
  }

  /** Integer.parseInt over unbounded integers: an optional sign and at least one digit. */
  function ParseInt(s: string): (r: Option<int>)
  {
    var start := if |s| > 0 && (s[0] == '-' || s[0] == '+') then 1 else 0;
    if start == |s| then None
    else if s[0] == '-' then Negated(DigitsFrom(s, start, 0))
    else DigitsFrom(s, start, 0)
  }

  /** Reading on from the value of the digits between k and i gives the value of all digits from k. */
  lemma {:induction false} DigitsFromValue(s: string, k: nat, i: nat)
    requires k < i <= |s| && IsDigits(s[k..])
    ensures DigitsFrom(s, i, DigitsValue(s[k..i])) == Some(DigitsValue(s[k..]))
    decreases |s| - i
  {
    if i < |s| {
      assert s[k..i + 1][..i - k] == s[k..i];
      assert s[k..i + 1][i - k] == s[i];
      DigitsFromValue(s, k, i + 1);
    } else {
      assert s[k..i] == s[k..];
    }
  }

  /** The digit walk from k reads the value of the digit string s[k..]. */
  lemma DigitsFromStart(s: string, k: nat)
    requires k < |s| && IsDigits(s[k..])
    ensures DigitsFrom(s, k, 0) == Some(DigitsValue(s[k..]))
  {
    assert s[k..][0] == s[k];
    assert s[k..k + 1] == [s[k]];
    DigitsFromValue(s, k, k + 1);
  }

  lemma {:induction false} DigitsOfNat(n: nat)
    ensures DigitsValue(NatToString(n)) == n
  {
    if n >= 10 {
      DigitsOfNat(n / 10);
      var s := NatToString(n);
      assert s[..|s| - 1] == NatToString(n / 10) && s[|s| - 1] == DigitChar(n % 10);
      assert DigitValue(DigitChar(n % 10)) == n % 10;
    }
  }

  /** An unsigned digit string, and one behind a minus sign, parse to their value. */
  lemma ParseIntOfDigits(d: string)
    requires IsDigits(d)
    ensures ParseInt(d) == Some(DigitsValue(d) as int)
    ensures ParseInt("-" + d) == Some(-(DigitsValue(d) as int))
  {
    assert d[0] != '-' && d[0] != '+';
    assert d[0..] == d;
    DigitsFromStart(d, 0);
    var m := "-" + d;
    assert m[0] == '-' && m[1..] == d;
    DigitsFromStart(m, 1);
  }

  /** Integer.parseInt reads back what "%d" wrote. */
  lemma ParseIntOfIntToString(n: int)
    ensures ParseInt(IntToString(n)) == Some(n)
  {
    var d := NatToString(if n < 0 then -n else n);
    DigitsOfNat(if n < 0 then -n else n);
    ParseIntOfDigits(d);
  }

  /** A number written by "%d" holds none of the separators the file formats use. */
  lemma IntToStringPlain(n: int, c: char)
    requires !('0' <= c <= '9') && c != '-'
    ensures c !in IntToString(n)
  {
    var s := NatToString(if n < 0 then -n else n);
    assert forall i :: 0 <= i < |s| ==> s[i] != c;
  }

  /** String.toUpperCase on file extensions, for the ASCII letters only (other characters are kept). */
  function ToUpper(s: string): (r: string)
    ensures |r| == |s|
  {
    if s == [] then []
    else [if 'a' <= s[0] <= 'z' then (s[0] as int - 32) as char else s[0]] + ToUpper(s[1..])
  }

  /** Every part followed by `sep`, as a loop that appends a part and a separator each round writes it. */
  function Terminated(parts: seq<string>, sep: char): string
  {
    if parts == [] then "" else parts[0] + [sep] + Terminated(parts[1..], sep)
  }

  lemma {:induction false} TerminatedAppend(parts: seq<string>, p: string, sep: char)
    ensures Terminated(parts + [p], sep) == Terminated(parts, sep) + p + [sep]
    decreases |parts|
  {
    if parts != [] {
      assert (parts + [p])[1..] == parts[1..] + [p];
      TerminatedAppend(parts[1..], p, sep);
    }
  }

  /** Separator-terminated parts followed by one last part are the parts joined. */
  lemma {:induction false} JoinAppendLast(parts: seq<string>, last: string, sep: char)
    ensures Join(parts + [last], sep) == Terminated(parts, sep) + last
    decreases |parts|
  {
    if parts != [] {
      assert (parts + [last])[1..] == parts[1..] + [last];
      JoinAppendLast(parts[1..], last, sep);
    }
  }

  /** A join of a head, a list and a last part: the head, a separator, the list each followed by a separator, and the last part. */
  lemma JoinFramed(head: string, parts: seq<string>, last: string, sep: char)
    ensures Join([head] + parts + [last], sep) == head + [sep] + Terminated(parts, sep) + last
  {
    var all := [head] + parts + [last];
    assert all[0] == head && all[1..] == parts + [last];
    JoinAppendLast(parts, last, sep);
  }

  lemma TerminatedStep(parts: seq<string>, i: int, acc: string, sep: char)
    requires 0 <= i < |parts| && acc == Terminated(parts[..i], sep)
    ensures acc + parts[i] + [sep] == Terminated(parts[..i + 1], sep)
    ensures acc + parts[i] == Join(parts[..i + 1], sep)
  {
    assert parts[..i + 1] == parts[..i] + [parts[i]];
    TerminatedAppend(parts[..i], parts[i], sep);
    JoinAppendLast(parts[..i], parts[i], sep);
  }

  /**
   * What a loop that writes parts[k] and then, for every part but the last,
   * a separator, and after the last part `last`, has written once it has
   * handled the first i parts.
   */
  function Written(parts: seq<string>, i: nat, sep: char, last: string): string
    requires i <= |parts|
  {
    if i < |parts| then Terminated(parts[..i], sep)
    else if parts == [] then ""
    else Join(parts, sep) + last
  }

  lemma WrittenStep(parts: seq<string>, i: nat, sep: char, last: string)
    requires i < |parts|
    ensures Written(parts, i + 1, sep, last) == Written(parts, i, sep, last) + parts[i] + (if i < |parts| - 1 then [sep] else last)
  {
    TerminatedStep(parts, i, Terminated(parts[..i], sep), sep);
    if i == |parts| - 1 {
      assert parts[..i + 1] == parts;
    }
  }

  /** Appending two pieces after a prefix and a tail is appending them to the tail. */
  lemma AppendAfter(h: string, t: string, x: string, y: string)
    ensures h + t + x + y == h + (t + x + y)
  {
  }
}
