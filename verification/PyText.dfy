// The string operations the graph store relies on: rpartition, replace, decimal text, int() and
// the ordering of strings.

module PyText {
  import opened Common

  predicate At(s: string, sep: string, i: nat) { i + |sep| <= |s| && s[i..i+|sep|] == sep }

  // The last occurrence of `sep` that starts before position n.
  function LastBefore(s: string, sep: string, n: nat): (r: Option<nat>)
    ensures r.Some? ==> r.value < n && At(s, sep, r.value) && forall k | r.value < k < n :: !At(s, sep, k)
    ensures r.None? ==> forall k | 0 <= k < n :: !At(s, sep, k)
  {
    if n == 0 then None else if At(s, sep, n - 1) then Some(n - 1) else LastBefore(s, sep, n - 1)
  }

  // str.rpartition: the text before and after the last separator, or the whole text as the tail.
  function RPartition(s: string, sep: string): (r: (string, bool, string))
    requires sep != ""
    ensures r.1 ==> r.0 + sep + r.2 == s
    ensures !r.1 ==> r.0 == "" && r.2 == s
  {
    match LastBefore(s, sep, |s|)
    case None => ("", false, s)
    case Some(i) => (s[..i], true, s[i+|sep|..])
  }

  lemma RPartitionAt(s: string, sep: string, i: nat)
    requires sep != "" && At(s, sep, i) && forall k | i < k < |s| :: !At(s, sep, k)
    ensures RPartition(s, sep) == (s[..i], true, s[i+|sep|..])
  {
  }

  function Slashes(s: string): string {
    if s == "" then "" else [if s[0] == '\\' then '/' else s[0]] + Slashes(s[1..])
  }

  function NatText(n: nat): (s: string)
    ensures s != "" && forall i | 0 <= i < |s| :: '0' <= s[i] <= '9'
  {
    var d := ['0' + (n % 10) as char];
    if n < 10 then d else NatText(n / 10) + d
  }

  function IntText(n: int): (s: string)
    ensures forall i | 0 <= i < |s| :: s[i] != ':'
  {
    if n < 0 then "-" + NatText(-n) else NatText(n)
  }

  // str.isspace(), which is also \s and what str.strip() removes.
  predicate IsSpace(c: char) { Separator(c) || 9 <= c as int <= 13 || 28 <= c as int <= 32 }

  // The whitespace beyond ASCII.
  predicate Separator(c: char) {
    var n := c as int;
    n in {0x85, 0xA0, 0x1680, 0x2028, 0x2029, 0x202F, 0x205F, 0x3000} || 0x2000 <= n <= 0x200A
  }

  function TrimStart(t: string): string {
    if t != "" && IsSpace(t[0]) then TrimStart(t[1..]) else t
  }

  function TrimEnd(t: string): string {
    if t != "" && IsSpace(t[|t|-1]) then TrimEnd(t[..|t|-1]) else t
  }

  lemma {:induction false} StartIsTrimmed(t: string) returns (a: string)
    ensures t == a + TrimStart(t) && (forall i | 0 <= i < |a| :: IsSpace(a[i]))
    ensures TrimStart(t) != "" ==> !IsSpace(TrimStart(t)[0])
  {
    a := "";
    if t != "" && IsSpace(t[0]) {
      var b := StartIsTrimmed(t[1..]);
      a := [t[0]] + b;
    }
  }

  lemma {:induction false} EndIsTrimmed(t: string) returns (b: string)
    ensures t == TrimEnd(t) + b && (forall i | 0 <= i < |b| :: IsSpace(b[i]))
    ensures TrimEnd(t) != "" ==> !IsSpace(TrimEnd(t)[|TrimEnd(t)|-1])
  {
    b := "";
    if t != "" && IsSpace(t[|t|-1]) {
      var a := EndIsTrimmed(t[..|t|-1]);
      b := a + [t[|t|-1]];
    }
  }

  // ---- int(raw) ----

  // Blanks around an optional sign and decimal digits of any script, which may be grouped by single
  // underscores; not more than 4300 digits.  Unlike str.strip(), int() keeps characters 28 to 31.
  predicate Blank(c: char) { Separator(c) || 9 <= c as int <= 13 || c == ' ' }

  function TrimBlanks(s: string): string {
    if s != "" && Blank(s[0]) then TrimBlanks(s[1..])
    else if s != "" && Blank(s[|s|-1]) then TrimBlanks(s[..|s|-1])
    else s
  }

  // The zeros of Unicode 14, each followed by the digits one to nine of its script.
  const ZEROS := [0x30] + OTHER_ZEROS
  const OTHER_ZEROS := [
    0x660, 0x6F0, 0x7C0, 0x966, 0x9E6, 0xA66, 0xAE6, 0xB66, 0xBE6, 0xC66, 0xCE6, 0xD66, 0xDE6, 0xE50, 0xED0,
    0xF20, 0x1040, 0x1090, 0x17E0, 0x1810, 0x1946, 0x19D0, 0x1A80, 0x1A90, 0x1B50, 0x1BB0, 0x1C40, 0x1C50, 0xA620,
    0xA8D0, 0xA900, 0xA9D0, 0xA9F0, 0xAA50, 0xABF0, 0xFF10, 0x104A0, 0x10D30, 0x11066, 0x110F0, 0x11136, 0x111D0,
    0x112F0, 0x11450, 0x114D0, 0x11650, 0x116C0, 0x11730, 0x118E0, 0x11950, 0x11C50, 0x11D50, 0x11DA0, 0x16A60,
    0x16AC0, 0x16B50, 0x1D7CE, 0x1D7D8, 0x1D7E2, 0x1D7EC, 0x1D7F6, 0x1E140, 0x1E2F0, 0x1E950, 0x1FBF0]

  function DigitIn(zeros: seq<int>, n: int): (r: Option<nat>)
    ensures r.Some? ==> r.value <= 9
  {
    if zeros == [] then None
    else if zeros[0] <= n <= zeros[0] + 9 then Some(n - zeros[0])
    else DigitIn(zeros[1..], n)
  }

  function DigitsValue(s: string, acc: nat, zeros: seq<int>): Option<nat> {
    if s == "" then None
    else match DigitIn(zeros, s[0] as int)
      case None => None
      case Some(d) =>
        if |s| == 1 then Some(10 * acc + d)
        else if s[1] == '_' then DigitsValue(s[2..], 10 * acc + d, zeros)
        else DigitsValue(s[1..], 10 * acc + d, zeros)
  }

  const MAX_DIGITS := 4300

  function DigitCount(s: string): nat {
    if s == "" then 0 else (if s[0] == '_' then 0 else 1) + DigitCount(s[1..])
  }

  function Unsigned(digits: string, minus: bool, zeros: seq<int>): Option<int> {
    match DigitsValue(digits, 0, zeros)
    case None => None
    case Some(v) =>
      var n: int := v;
      if DigitCount(digits) > MAX_DIGITS then None else Some(if minus then -n else n)
  }

  function ParseInt(raw: string): Option<int> {
    var s := TrimBlanks(raw);
    if s != "" && s[0] in "+-" then Unsigned(s[1..], s[0] == '-', ZEROS) else Unsigned(s, false, ZEROS)
  }

  // ---- the order of strings, by code points ----

  predicate Less(a: string, b: string) {
    b != "" && (a == "" || a[0] < b[0] || (a[0] == b[0] && Less(a[1..], b[1..])))
  }

  lemma {:induction false} LessTotal(a: string, b: string)
    ensures a == b || Less(a, b) || Less(b, a)
  {
    if a != "" && b != "" && a[0] == b[0] {
      LessTotal(a[1..], b[1..]);
      if a[1..] == b[1..] { assert a == [a[0]] + a[1..] && b == [b[0]] + b[1..]; }
    }
  }

  lemma {:induction false} LessStrict(a: string, b: string)
    requires Less(a, b)
    ensures !Less(b, a) && a != b
  {
    if a != "" && a[0] == b[0] { LessStrict(a[1..], b[1..]); }
  }

  lemma {:induction false} LessTransitive(a: string, b: string, c: string)
    requires Less(a, b) && Less(b, c)
    ensures Less(a, c)
  {
    if a != "" && a[0] == b[0] == c[0] { LessTransitive(a[1..], b[1..], c[1..]); }
  }
}
