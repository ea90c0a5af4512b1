/** The JavaScript string facts the frontend forms rely on: the `\s` class and
    `String.prototype.trim`, the UTF-16 `length` of a string, and the email pattern
    `^[^\s@]+@[^\s@]+\.[^\s@]+$` shared by Login.jsx and Signup.jsx. */
module JsText {
  import opened Wrappers

  /** The characters `\s` matches and `trim` strips: ECMAScript WhiteSpace and
      LineTerminator. */
  predicate IsJsSpace(c: char) {
    var n := c as int;
    || 0x09 <= n <= 0x0D        // tab, line feed, vertical tab, form feed, carriage return
    || n == 0x20 || n == 0xA0 || n == 0x1680
    || 0x2000 <= n <= 0x200A
    || n == 0x2028 || n == 0x2029 || n == 0x202F || n == 0x205F || n == 0x3000
    || n == 0xFEFF
  }

  /** The first position at or after `i` that is not whitespace (`|s|` if none). */
  function FirstNonSpace(s: string, i: nat): (n: nat)
    requires i <= |s|
    ensures i <= n <= |s|
    ensures forall k :: i <= k < n ==> IsJsSpace(s[k])
    ensures n < |s| ==> !IsJsSpace(s[n])
    decreases |s| - i
  {
    if i == |s| || !IsJsSpace(s[i]) then i else FirstNonSpace(s, i + 1)
  }

  /** Walking back from `j` towards `lo`: the end of the last non-whitespace character
      (`lo` if there is none in between). */
  function EndOfText(s: string, lo: nat, j: nat): (m: nat)
    requires lo <= j <= |s|
    ensures lo <= m <= j
    ensures forall k :: m <= k < j ==> IsJsSpace(s[k])
    ensures m > lo ==> !IsJsSpace(s[m - 1])
  {
    if j == lo || !IsJsSpace(s[j - 1]) then j else EndOfText(s, lo, j - 1)
  }

  /** `s.trim()`: the text between the leading and the trailing whitespace; what it
      drops on either side is whitespace and it neither starts nor ends with whitespace. */
  function Trim(s: string): (r: string)
    ensures var i := FirstNonSpace(s, 0);
      && i + |r| <= |s| && r == s[i..i + |r|]
      && (forall k :: 0 <= k < i ==> IsJsSpace(s[k]))
      && (forall k :: i + |r| <= k < |s| ==> IsJsSpace(s[k]))
    ensures r == [] || (!IsJsSpace(r[0]) && !IsJsSpace(r[|r| - 1]))
  {
    var i := FirstNonSpace(s, 0);
    s[i..EndOfText(s, i, |s|)]
  }

  /** A trimmed string is empty exactly when the string is all whitespace: `s.trim()`
      is falsy iff every character of `s` is a space. */
  lemma TrimEmptyIffBlank(s: string)
    ensures Trim(s) == [] <==> forall k :: 0 <= k < |s| ==> IsJsSpace(s[k])
  {
    var i := FirstNonSpace(s, 0);
    if Trim(s) != [] {
      assert s[i] == Trim(s)[0];
    }
  }

  /** `s.length`: UTF-16 code units, two for a character outside the Basic
      Multilingual Plane. */
  function Utf16Length(s: string): (n: nat)
    ensures |s| <= n <= 2 * |s|
  {
    if s == [] then 0 else Utf16Length(s[..|s| - 1]) + (if s[|s| - 1] as int > 0xFFFF then 2 else 1)
  }

  /** A character `[^\s@]` matches. */
  predicate PartChar(c: char) {
    c != '@' && !IsJsSpace(c)
  }

  predicate AllPart(s: string) {
    forall k :: 0 <= k < |s| ==> PartChar(s[k])
  }

  /** `^[^\s@]+@[^\s@]+\.[^\s@]+$`: a non-empty local part, '@' at `i`, a non-empty
      run, '.' at `j`, and a non-empty run to the end, none containing whitespace or '@'. */
  ghost predicate MatchesEmailPattern(s: string) {
    exists i, j :: 0 < i && i + 1 < j && j + 1 < |s| && s[i] == '@' && s[j] == '.' &&
      AllPart(s[..i]) && AllPart(s[i + 1..j]) && AllPart(s[j + 1..])
  }

  /** The first position of `c` in `s`. */
  function IndexOf(s: string, c: char): (r: Option<nat>)
    ensures r.Some? ==> r.value < |s| && s[r.value] == c && c !in s[..r.value]
    ensures r.None? <==> c !in s
  {
    if s == [] then None
    else if s[0] == c then Some(0)
    else match IndexOf(s[1..], c)
      case None => None
      case Some(k) =>
        assert s[..k + 1] == [s[0]] + s[1..][..k];
        Some(k + 1)
  }

  /** `emailRegex.test(s)`: exactly one '@', not first, no whitespace, and a '.' after
      the '@' with at least one character on each side of it. */
  function IsValidEmail(s: string): (ok: bool)
    ensures ok <==> MatchesEmailPattern(s)
  {
    match IndexOf(s, '@')
    case None => false
    case Some(i) =>
      var rest := s[i + 1..];
      var ok := 0 < i && AllPart(s[..i]) && AllPart(rest) && |rest| >= 3 && '.' in rest[1..|rest| - 1];
      EmailPatternAt(s, i);
      ok
  }

  /** The pattern holds iff the part after the first '@' qualifies. */
  lemma EmailPatternAt(s: string, i: nat)
    requires i < |s| && s[i] == '@' && '@' !in s[..i]
    ensures MatchesEmailPattern(s) <==>
      (0 < i && AllPart(s[..i]) && AllPart(s[i + 1..]) && |s[i + 1..]| >= 3 &&
       '.' in s[i + 1..][1..|s[i + 1..]| - 1])
  {
    if MatchesEmailPattern(s) {
      var a, j :| 0 < a && a + 1 < j && j + 1 < |s| && s[a] == '@' && s[j] == '.' &&
        AllPart(s[..a]) && AllPart(s[a + 1..j]) && AllPart(s[j + 1..]);
      EmailPatternForward(s, i, a, j);
    }
    var rest := s[i + 1..];
    if 0 < i && AllPart(s[..i]) && AllPart(rest) && |rest| >= 3 && '.' in rest[1..|rest| - 1] {
      EmailPatternBackward(s, i);
    }
  }

  /** A match of the pattern puts its '@' at the first '@' of the string. */
  lemma EmailPatternForward(s: string, i: nat, a: nat, j: nat)
    requires i < |s| && s[i] == '@' && '@' !in s[..i]
    requires 0 < a && a + 1 < j && j + 1 < |s| && s[a] == '@' && s[j] == '.'
    requires AllPart(s[..a]) && AllPart(s[a + 1..j]) && AllPart(s[j + 1..])
    ensures 0 < i && AllPart(s[..i]) && AllPart(s[i + 1..]) && |s[i + 1..]| >= 3
    ensures '.' in s[i + 1..][1..|s[i + 1..]| - 1]
  {
    var rest := s[i + 1..];
    forall k | 0 <= k < |rest| ensures PartChar(rest[k]) {
      var p := i + 1 + k;
      if p < j {
        assert rest[k] == s[a + 1..j][k];
      } else if p > j {
        assert rest[k] == s[j + 1..][p - j - 1];
      }
    }
    assert rest[1..|rest| - 1][j - i - 2] == '.';
  }

  /** A '.' strictly inside the part after the '@' yields a match. */
  lemma EmailPatternBackward(s: string, i: nat)
    requires i < |s|
    requires 0 < i && s[i] == '@' && AllPart(s[..i]) && AllPart(s[i + 1..]) && |s[i + 1..]| >= 3
    requires '.' in s[i + 1..][1..|s[i + 1..]| - 1]
    ensures MatchesEmailPattern(s)
  {
    var rest := s[i + 1..];
    var m :| 0 <= m < |rest[1..|rest| - 1]| && rest[1..|rest| - 1][m] == '.';
    var j := i + 2 + m;
    assert s[j] == '.';
    assert s[i + 1..j] == rest[..m + 1];
    assert s[j + 1..] == rest[m + 2..];
    assert AllPart(s[i + 1..j]);
    assert AllPart(s[j + 1..]);
  }
}
