/**
 Functions of package strings that look at runes. A text is its bytes, as in Go; a rune is
 decoded from the front as section 4 of RFC 3629 lays down, and a byte that starts no
 well-formed sequence is a rune of its own. What happens to a rune outside ASCII is left open:
 `lower` gives the bytes its lower-case form is written with, `space` says whether it is white
 space.
 */
module Utf8Text {
  import opened GoStrings

  predicate In(s: string, i: nat, lo: int, hi: int) {
    i < |s| && lo <= s[i] as int <= hi
  }

  /** The range of the second byte, which depends on the first. */
  function SecondLow(b: int): int {
    if b == 0xE0 then 0xA0 else if b == 0xF0 then 0x90 else 0x80
  }

  function SecondHigh(b: int): int {
    if b == 0xED then 0x9F else if b == 0xF4 then 0x8F else 0xBF
  }

  /** The length of the first rune. */
  function Width(s: string): (n: nat)
    requires s != ""
    ensures 1 <= n <= |s|
    ensures n > 1 ==> forall i :: 0 <= i < n ==> !IsAscii(s[i])
  {
    var b := s[0] as int;
    var second := In(s, 1, SecondLow(b), SecondHigh(b));
    if 0xC2 <= b <= 0xDF && second then 2
    else if 0xE0 <= b <= 0xEF && second && In(s, 2, 0x80, 0xBF) then 3
    else if 0xF0 <= b <= 0xF4 && second && In(s, 2, 0x80, 0xBF) && In(s, 3, 0x80, 0xBF) then 4
    else 1
  }

  predicate IsAscii(c: char) {
    c as int < 0x80
  }

  /** A rune does not reach across an ASCII byte. */
  lemma WidthStops(a: string, b: string)
    requires a != "" && (b == "" || IsAscii(b[0]))
    ensures Width(a + b) == Width(a)
  {
  }

  function LowerChar(c: char): char {
    if 'A' <= c <= 'Z' then (c as int + 32) as char else c
  }

  /** What the first rune, `rune`, becomes. */
  function LowerRune(lower: string -> string, rune: string): string {
    if |rune| == 1 && IsAscii(rune[0]) then [LowerChar(rune[0])] else lower(rune)
  }

  /** strings.ToLower */
  function ToLower(lower: string -> string, s: string): string
    decreases |s|
  {
    if s == "" then "" else LowerRune(lower, s[..Width(s)]) + ToLower(lower, s[Width(s)..])
  }

  /** Folding works piecewise at every ASCII byte. */
  lemma {:induction false} ToLowerCat(lower: string -> string, a: string, b: string)
    requires b == "" || IsAscii(b[0])
    ensures ToLower(lower, a + b) == ToLower(lower, a) + ToLower(lower, b)
    decreases |a|
  {
    if a == "" {
      assert a + b == b && "" + ToLower(lower, b) == ToLower(lower, b);
    } else {
      WidthStops(a, b);
      var n := Width(a);
      assert (a + b)[..n] == a[..n] && (a + b)[n..] == a[n..] + b;
      ToLowerCat(lower, a[n..], b);
    }
  }

  predicate AllAscii(s: string) {
    forall i :: 0 <= i < |s| ==> IsAscii(s[i])
  }

  function LowerAscii(s: string): (r: string)
    ensures |r| == |s| && forall i :: 0 <= i < |s| ==> r[i] == LowerChar(s[i])
  {
    seq(|s|, i requires 0 <= i < |s| => LowerChar(s[i]))
  }

  /** On ASCII text folding is letter by letter. */
  lemma {:induction false} ToLowerAscii(lower: string -> string, s: string)
    requires AllAscii(s)
    ensures ToLower(lower, s) == LowerAscii(s)
  {
    if s != "" {
      assert Width(s) == 1 && s[..1] == [s[0]];
      ToLowerAscii(lower, s[1..]);
    }
  }

  lemma ToLowerCons(lower: string -> string, c: char, rest: string)
    requires IsAscii(c)
    ensures ToLower(lower, [c] + rest) == [LowerChar(c)] + ToLower(lower, rest)
  {
    var s := [c] + rest;
    assert Width(s) == 1 && s[..1] == [c] && s[1..] == rest;
  }

  lemma ToLowerSplit(lower: string -> string, front: string, c: char, b: string)
    requires AllAscii(front) && IsAscii(c)
    ensures ToLower(lower, front + ([c] + b)) == LowerAscii(front) + ([LowerChar(c)] + ToLower(lower, b))
  {
    ToLowerCat(lower, front, [c] + b);
    ToLowerCons(lower, c, b);
    ToLowerAscii(lower, front);
  }

  /** Folding works piecewise behind ASCII text too. */
  lemma ToLowerFront(lower: string -> string, a: string, b: string)
    requires AllAscii(a)
    ensures ToLower(lower, a + b) == LowerAscii(a) + ToLower(lower, b)
  {
    if a == "" {
      assert a + b == b && LowerAscii(a) + ToLower(lower, b) == ToLower(lower, b);
    } else {
      var front, c := a[..|a| - 1], a[|a| - 1];
      assert a + b == front + ([c] + b);
      ToLowerSplit(lower, front, c, b);
      LowerAsciiSnoc(front, c, a, ToLower(lower, b));
    }
  }

  lemma LowerAsciiSnoc(front: string, c: char, a: string, rest: string)
    requires a == front + [c]
    ensures LowerAscii(front) + ([LowerChar(c)] + rest) == LowerAscii(a) + rest
  {
  }

  /** Folding a text with ASCII words around it. */
  lemma ToLowerAround(lower: string -> string, before: string, name: string, behind: string)
    requires AllAscii(before) && AllAscii(behind) && name != "" && IsAscii(name[0])
    ensures ToLower(lower, before + name + behind) == LowerAscii(before) + ToLower(lower, name) + LowerAscii(behind)
  {
    ToLowerAscii(lower, before);
    ToLowerAscii(lower, behind);
    ToLowerCat(lower, before, name);
    ToLowerCat(lower, before + name, behind);
  }

  predicate IsSpaceChar(c: char) {
    c == ' ' || c == '\t' || c == '\n' || c == '\r' || c as int == 11 || c as int == 12
  }

  /** A single byte outside ASCII is an encoding error, which is no white space. */
  predicate IsSpaceRune(space: string -> bool, rune: string) {
    if |rune| == 1 then IsSpaceChar(rune[0]) else space(rune)
  }

  function TrimLeft(space: string -> bool, s: string): string
    decreases |s|
  {
    if s != "" && IsSpaceRune(space, s[..Width(s)]) then TrimLeft(space, s[Width(s)..]) else s
  }

  /** The length of the last rune. */
  function LastWidth(s: string): (n: nat)
    requires s != ""
    ensures 1 <= n <= |s|
    ensures IsAscii(s[|s| - 1]) ==> n == 1
  {
    if IsAscii(s[|s| - 1]) then 1
    else if |s| >= 4 && Width(s[|s| - 4..]) == 4 then 4
    else if |s| >= 3 && Width(s[|s| - 3..]) == 3 then 3
    else if |s| >= 2 && Width(s[|s| - 2..]) == 2 then 2
    else 1
  }

  function TrimRight(space: string -> bool, s: string): string
    decreases |s|
  {
    if s != "" && IsSpaceRune(space, s[|s| - LastWidth(s)..]) then TrimRight(space, s[..|s| - LastWidth(s)]) else s
  }

  /** strings.TrimSpace */
  function TrimSpace(space: string -> bool, s: string): string {
    TrimRight(space, TrimLeft(space, s))
  }

  /** Text behind an ASCII byte that is no white space is not trimmed from the left. */
  lemma {:induction false} TrimLeftCat(space: string -> bool, a: string, b: string)
    requires b != "" && IsAscii(b[0]) && !IsSpaceChar(b[0])
    ensures TrimLeft(space, a + b) == TrimLeft(space, a) + b
    decreases |a|
  {
    if a == "" {
      assert a + b == b && TrimLeft(space, a) + b == b;
    } else {
      WidthStops(a, b);
      var n := Width(a);
      assert (a + b)[..n] == a[..n] && (a + b)[n..] == a[n..] + b;
      if IsSpaceRune(space, a[..n]) {
        TrimLeftCat(space, a[n..], b);
      }
    }
  }

  lemma LastAscii(s: string)
    requires s != "" && IsAscii(s[|s| - 1])
    ensures s[|s| - LastWidth(s)..] == [s[|s| - 1]]
  {
  }

  /** Nothing is trimmed behind an ASCII byte that is no white space. */
  lemma TrimsLeftOnly(space: string -> bool, s: string)
    requires var t := TrimLeft(space, s); t != "" && IsAscii(t[|t| - 1]) && !IsSpaceChar(t[|t| - 1])
    ensures TrimSpace(space, s) == TrimLeft(space, s)
  {
    LastAscii(TrimLeft(space, s));
  }

  /** Blanks in front of such a text are skipped, nothing is cut off at its end. */
  lemma TrimsTo(space: string -> bool, a: string, b: string)
    requires b != "" && IsAscii(b[0]) && !IsSpaceChar(b[0]) && IsAscii(b[|b| - 1]) && !IsSpaceChar(b[|b| - 1])
    ensures TrimSpace(space, a + b) == TrimLeft(space, a) + b
  {
    TrimLeftCat(space, a, b);
    var t := TrimLeft(space, a) + b;
    assert t[|t| - 1] == b[|b| - 1];
    TrimsLeftOnly(space, a + b);
  }

  lemma BlankTrimmed(space: string -> bool, a: string)
    requires a == "" || a == " "
    ensures TrimLeft(space, a) == ""
  {
    if a != "" {
      assert Width(a) == 1 && a[..1] == a && a[1..] == "";
    }
  }

  /** Only ASCII white space: blank, tab, line feed, vertical tab, form feed, carriage return. */
  predicate Blank(s: string) {
    forall i :: 0 <= i < |s| ==> IsBlank(s[i])
  }

  predicate IsBlank(c: char) {
    c == ' ' || 9 <= c as int <= 13
  }

  lemma {:induction false} BlankLeft(space: string -> bool, s: string)
    requires Blank(s)
    ensures TrimLeft(space, s) == ""
  {
    if s != "" {
      assert Width(s) == 1 && s[..1] == [s[0]];
      BlankLeft(space, s[1..]);
    }
  }

  lemma {:induction false} BlankRight(space: string -> bool, text: string, behind: string)
    requires Blank(behind)
    requires text == "" || (IsAscii(text[|text| - 1]) && !IsBlank(text[|text| - 1]))
    ensures TrimRight(space, text + behind) == text
    decreases |behind|
  {
    var s := text + behind;
    if behind == "" {
      assert s == text;
      assert text != "" ==> s[|s| - 1..] == [text[|text| - 1]];
    } else {
      var front, last := behind[..|behind| - 1], behind[|behind| - 1];
      assert s[|s| - 1..] == [last] && s[..|s| - 1] == text + front;
      assert IsSpaceChar(last);
      BlankRight(space, text, front);
    }
  }

  /** White space is cut off at both ends, up to the first and the last byte that is none. */
  lemma TrimmedBetween(space: string -> bool, before: string, text: string, behind: string)
    requires Blank(before) && Blank(behind)
    requires text == "" || (IsAscii(text[0]) && !IsBlank(text[0]))
    requires text == "" || (IsAscii(text[|text| - 1]) && !IsBlank(text[|text| - 1]))
    ensures TrimSpace(space, before + text + behind) == text
  {
    if text == "" {
      assert before + text + behind == before + behind;
      BlankLeft(space, before + behind);
    } else {
      assert before + text + behind == before + (text + behind);
      TrimLeftCat(space, before, text + behind);
      BlankLeft(space, before);
      BlankRight(space, text, behind);
      assert "" + (text + behind) == text + behind;
    }
  }
}
