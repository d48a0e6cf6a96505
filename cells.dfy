/** Cell values as the spreadsheet decoder hands them to the converter, and the
    handful of JavaScript string operations the converter applies to them:
    truthiness, `String(x || '')`, `trim()`, `toLowerCase()`, `includes`,
    `Array.prototype.join`, and the two regular expressions it tests. */
module Cells {

  /** A decoded cell: absent (`undefined`), text, an integral number or a boolean. */
  datatype Cell = Missing | Text(s: string) | Num(n: int) | Bool(b: bool)

  /** JavaScript truthiness: `undefined`, `""`, `0` and `false` are falsy;
      every other value, the text "0" included, is truthy. */
  predicate Truthy(c: Cell) {
    match c
    case Missing => false
    case Text(s) => s != ""
    case Num(n) => n != 0
    case Bool(b) => b
  }

  predicate IsDigit(ch: char) { '0' <= ch <= '9' }

  predicate IsUpper(ch: char) { 'A' <= ch <= 'Z' }

  predicate AllDigits(s: string) { forall i | 0 <= i < |s| :: IsDigit(s[i]) }

  /** The value of a string of decimal digits. */
  function DecValue(s: string): nat
    requires AllDigits(s)
  {
    if s == [] then 0 else 10 * DecValue(s[..|s| - 1]) + (s[|s| - 1] as int - '0' as int)
  }

  function DigitChar(d: nat): (ch: char)
    requires d < 10
    ensures IsDigit(ch) && ch as int - '0' as int == d
  {
    (d + '0' as int) as char
  }

  /** Canonical decimal spelling of a natural number, as `String(n)` writes
      every safe integer (up to 2^53; beyond that `String` writes the double's
      shortest digits, padded with zeros). */
  function NatToString(n: nat): (r: string)
    ensures r != [] && AllDigits(r)
    decreases n
  {
    if n < 10 then [DigitChar(n)] else NatToString(n / 10) + [DigitChar(n % 10)]
  }

  /** `NatToString` spells the number in canonical form: its digits denote `n`
      and it has no leading zero. */
  lemma {:induction false} NatToStringValue(n: nat)
    ensures DecValue(NatToString(n)) == n
    ensures NatToString(n)[0] == '0' <==> n == 0
    decreases n
  {
    if n >= 10 {
      var p := NatToString(n / 10);
      var r := NatToString(n);
      assert r[..|r| - 1] == p;
      NatToStringValue(n / 10);
    }
  }

  /** `String(n)` for a safe integer: a minus sign for negatives, then the digits. */
  function IntToString(n: int): (r: string)
    ensures r != []
    ensures n >= 0 ==> AllDigits(r)
    ensures n < 0 ==> r[0] == '-' && AllDigits(r[1..])
  {
    if n < 0 then "-" + NatToString(-n) else NatToString(n)
  }

  /** `String(c || '')`: a falsy cell becomes the empty string. */
  function ToStr(c: Cell): (r: string)
    ensures r == "" <==> !Truthy(c)
    ensures c.Text? && Truthy(c) ==> r == c.s
  {
    if !Truthy(c) then ""
    else match c
      case Text(s) => s
      case Num(n) => IntToString(n)
      case Bool(_) => "true"
      case Missing => ""
  }

  /** The characters `String.prototype.trim` removes: ECMAScript WhiteSpace
      (tab, vertical tab, form feed, space, no-break space, byte-order mark and
      the Unicode space separators) and LineTerminator. */
  predicate IsSpace(ch: char) {
    var c := ch as int;
    c == 0x09 || c == 0x0A || c == 0x0B || c == 0x0C || c == 0x0D || c == 0x20
    || c == 0xA0 || c == 0x1680 || (0x2000 <= c <= 0x200A) || c == 0x2028
    || c == 0x2029 || c == 0x202F || c == 0x205F || c == 0x3000 || c == 0xFEFF
  }

  /** `trimStart()`. */
  function TrimStart(s: string): string
  {
    if s != [] && IsSpace(s[0]) then TrimStart(s[1..]) else s
  }

  /** `trimEnd()`. */
  function TrimEnd(s: string): string
  {
    if s != [] && IsSpace(s[|s| - 1]) then TrimEnd(s[..|s| - 1]) else s
  }

  /** `s.trim()`. */
  function Trim(s: string): string {
    TrimEnd(TrimStart(s))
  }

  /** `r` is the infix of `s` at index `i`, and everything of `s` around it is space. */
  ghost predicate TrimmedAt(s: string, r: string, i: int) {
    0 <= i && i + |r| <= |s| && r == s[i..i + |r|]
    && (forall k | 0 <= k < i :: IsSpace(s[k]))
    && (forall k | i + |r| <= k < |s| :: IsSpace(s[k]))
  }

  /** `trimStart()` keeps a suffix of its input. */
  lemma {:induction false} TrimStartSuffix(s: string)
    ensures |TrimStart(s)| <= |s| && TrimStart(s) == s[|s| - |TrimStart(s)|..]
  {
    if s != [] && IsSpace(s[0]) {
      TrimStartSuffix(s[1..]);
      assert s[1..][|s| - 1 - |TrimStart(s)|..] == s[|s| - |TrimStart(s)|..];
    }
  }

  /** What `trimStart()` drops is space, and what it keeps does not start with space. */
  lemma {:induction false} TrimStartSpaces(s: string)
    ensures |TrimStart(s)| <= |s|
    ensures forall i | 0 <= i < |s| - |TrimStart(s)| :: IsSpace(s[i])
    ensures TrimStart(s) == [] || !IsSpace(TrimStart(s)[0])
  {
    if s != [] && IsSpace(s[0]) {
      TrimStartSpaces(s[1..]);
      assert forall i | 1 <= i < |s| - |TrimStart(s)| :: s[i] == s[1..][i - 1];
    }
  }

  /** `trimEnd()` keeps a prefix of its input. */
  lemma {:induction false} TrimEndPrefix(s: string)
    ensures |TrimEnd(s)| <= |s| && TrimEnd(s) == s[..|TrimEnd(s)|]
  {
    if s != [] && IsSpace(s[|s| - 1]) {
      TrimEndPrefix(s[..|s| - 1]);
    }
  }

  /** What `trimEnd()` drops is space, and what it keeps does not end with space. */
  lemma {:induction false} TrimEndSpaces(s: string)
    ensures |TrimEnd(s)| <= |s|
    ensures forall i | |TrimEnd(s)| <= i < |s| :: IsSpace(s[i])
    ensures TrimEnd(s) == [] || !IsSpace(TrimEnd(s)[|TrimEnd(s)| - 1])
  {
    if s != [] && IsSpace(s[|s| - 1]) {
      TrimEndSpaces(s[..|s| - 1]);
    }
  }

  /** `s.trim()` is the infix of `s` that neither starts nor ends with a space
      and around which there is nothing but space. */
  lemma TrimSpec(s: string)
    ensures var r := Trim(s);
            && (r == [] || (!IsSpace(r[0]) && !IsSpace(r[|r| - 1])))
            && exists i | 0 <= i <= |s| - |r| :: TrimmedAt(s, r, i)
  {
    var t := TrimStart(s);
    TrimStartSuffix(s);
    TrimStartSpaces(s);
    TrimEndPrefix(t);
    TrimEndSpaces(t);
    var r := TrimEnd(t);
    assert TrimmedAt(s, r, |s| - |t|);
    if r != [] {
      assert r[0] == t[0];
    }
  }

  /** A string of spaces alone trims to the empty string. */
  lemma {:induction false} TrimAllSpace(s: string)
    requires forall k | 0 <= k < |s| :: IsSpace(s[k])
    ensures Trim(s) == ""
    decreases |s|
  {
    if s != [] {
      assert forall k | 0 <= k < |s[1..]| :: s[1..][k] == s[k + 1];
      TrimAllSpace(s[1..]);
      assert TrimStart(s) == TrimStart(s[1..]);
    }
  }

  /** A string that neither starts nor ends with a space is its own trim. */
  lemma TrimUnchanged(s: string)
    requires s == [] || (!IsSpace(s[0]) && !IsSpace(s[|s| - 1]))
    ensures Trim(s) == s
  {
    assert TrimStart(s) == s;
    assert TrimEnd(s) == s;
  }

  /** Trimming is idempotent. */
  lemma TrimIdempotent(s: string)
    ensures Trim(Trim(s)) == Trim(s)
  {
    TrimSpec(s);
    TrimUnchanged(Trim(s));
  }

  /** ASCII part of `toLowerCase()`. */
  function LowerChar(ch: char): char {
    if IsUpper(ch) then (ch as int + 32) as char else ch
  }

  /** `toLowerCase()` on ASCII letters; every other character is kept. */
  function LowerAscii(s: string): string {
    seq(|s|, i requires 0 <= i < |s| => LowerChar(s[i]))
  }

  /** `pat` occurs in `s` at index `i`. */
  predicate OccursAt(s: string, pat: string, i: int) {
    0 <= i && i + |pat| <= |s| && s[i..i + |pat|] == pat
  }

  /** `s.includes(pat)`. */
  predicate Includes(s: string, pat: string) {
    exists i | 0 <= i <= |s| - |pat| :: OccursAt(s, pat, i)
  }

  lemma IncludesSelf(s: string)
    ensures Includes(s, s)
  {
    assert OccursAt(s, s, 0);
  }

  /** Containment is transitive. */
  lemma IncludesTrans(a: string, b: string, c: string)
    requires Includes(a, b) && Includes(b, c)
    ensures Includes(a, c)
  {
    var i :| 0 <= i <= |a| - |b| && OccursAt(a, b, i);
    var j :| 0 <= j <= |b| - |c| && OccursAt(b, c, j);
    assert forall m | 0 <= m < |b| :: a[i + m] == b[m];
    assert a[i + j..i + j + |c|] == b[j..j + |c|];
    assert OccursAt(a, c, i + j);
  }

  /** Every string contains the empty string. */
  lemma IncludesEmpty(s: string)
    ensures Includes(s, "")
  {
    assert OccursAt(s, "", 0);
  }

  /** A string of spaces alone contains no pattern that starts with something else. */
  lemma SpacesExclude(t: string, pat: string)
    requires forall k | 0 <= k < |t| :: IsSpace(t[k])
    requires pat != "" && !IsSpace(pat[0])
    ensures !Includes(t, pat)
  {
    forall i | 0 <= i <= |t| - |pat|
      ensures !OccursAt(t, pat, i)
    {
      assert t[i..i + |pat|][0] == t[i];
    }
  }

  /** Extending a string keeps everything it contained. */
  lemma IncludesPrefix(a: string, b: string, pat: string)
    requires a <= b && Includes(a, pat)
    ensures Includes(b, pat)
  {
    assert b == a + b[|a|..];
    IncludesConcat(a, b[|a|..], pat);
  }

  /** What a string contains, a longer string that starts or ends with it contains too. */
  lemma IncludesConcat(a: string, b: string, pat: string)
    ensures Includes(a, pat) ==> Includes(a + b, pat)
    ensures Includes(b, pat) ==> Includes(a + b, pat)
  {
    if Includes(a, pat) {
      var i :| 0 <= i <= |a| - |pat| && OccursAt(a, pat, i);
      assert (a + b)[i..i + |pat|] == a[i..i + |pat|];
      assert OccursAt(a + b, pat, i);
    }
    if Includes(b, pat) {
      var i :| 0 <= i <= |b| - |pat| && OccursAt(b, pat, i);
      assert (a + b)[|a| + i..|a| + i + |pat|] == b[i..i + |pat|];
      assert OccursAt(a + b, pat, |a| + i);
    }
  }

  /** `/^[A-Z]{4}\d{4}$/`: four upper-case Latin letters, then four digits, nothing else. */
  predicate IsCourseCode(s: string) {
    |s| == 8 && (forall i | 0 <= i < 4 :: IsUpper(s[i])) && (forall i | 4 <= i < 8 :: IsDigit(s[i]))
  }

  /** `\d{2}:\d{2}` matches at index `i`. */
  predicate ClockAt(s: string, i: int) {
    0 <= i && i + 5 <= |s|
    && IsDigit(s[i]) && IsDigit(s[i + 1]) && s[i + 2] == ':' && IsDigit(s[i + 3]) && IsDigit(s[i + 4])
  }

  /** `/\d{2}:\d{2}/.test(s)`: a clock time occurs somewhere in `s`. */
  predicate HasClockTime(s: string) {
    exists i | 0 <= i <= |s| - 5 :: ClockAt(s, i)
  }

  /** `parts.join(sep)`. */
  function Join(parts: seq<string>, sep: string): (r: string)
    ensures parts == [] ==> r == ""
    ensures |parts| == 1 ==> r == parts[0]
    ensures |parts| > 1 ==> |r| >= |sep|
  {
    if |parts| == 0 then ""
    else if |parts| == 1 then parts[0]
    else Join(parts[..|parts| - 1], sep) + sep + parts[|parts| - 1]
  }

  /** Every part occurs in the joined string. */
  lemma {:induction false} JoinIncludesParts(parts: seq<string>, sep: string, k: nat)
    requires k < |parts|
    ensures Includes(Join(parts, sep), parts[k])
  {
    if |parts| == 1 {
      IncludesSelf(parts[0]);
    } else {
      var init := parts[..|parts| - 1];
      var last := parts[|parts| - 1];
      assert Join(parts, sep) == (Join(init, sep) + sep) + last;
      if k < |parts| - 1 {
        JoinIncludesParts(init, sep, k);
        IncludesConcat(Join(init, sep), sep, parts[k]);
        IncludesConcat(Join(init, sep) + sep, last, parts[k]);
      } else {
        IncludesSelf(last);
        IncludesConcat(Join(init, sep) + sep, last, last);
      }
    }
  }

  /** A join with a non-empty separator is empty exactly when there is nothing
      to join or the one part is empty. */
  lemma {:induction false} JoinEmpty(parts: seq<string>, sep: string)
    requires sep != ""
    ensures Join(parts, sep) == "" <==> parts == [] || (|parts| == 1 && parts[0] == "")
  {
  }
}
