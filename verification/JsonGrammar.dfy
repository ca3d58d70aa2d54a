// Concrete syntax trees of JSON texts (RFC 8259, sections 2 to 7).  A tree keeps every choice a
// text makes: the whitespace between tokens, how each string character is written, and the
// digits of each number.  So quantifying over trees is quantifying over JSON texts.

module JsonGrammar {
  import opened Common

  // One character of a string literal: written plainly, or after a backslash.  The four hex
  // digits of a \u escape are the four plain units that follow Esc('u').
  datatype Unit = Plain(c: char) | Esc(c: char)

  datatype Value =
    | Literal(name: string)
    | Number(minus: bool, whole: string, frac: Option<string>, exp: Option<Exponent>)
    | Str(units: seq<Unit>)
    | Arr(gap: string, elems: Elems)
    | Obj(gap: string, members: Members)

  datatype Exponent = Exponent(mark: char, sign: string, digits: string)

  // `gap` is the whitespace of an empty container; otherwise each item carries its own.
  datatype Elems = NoElem | Elem(pre: string, v: Value, post: string, rest: Elems)
  datatype Members =
    | NoMember
    | Member(pre: string, key: seq<Unit>, mid: string, sep: string, v: Value, post: string, rest: Members)

  function UnitText(u: Unit): string {
    match u case Plain(c) => [c] case Esc(c) => ['\\', c]
  }

  function PrintUnits(us: seq<Unit>): string {
    if us == [] then "" else UnitText(us[0]) + PrintUnits(us[1..])
  }

  function PrintStr(us: seq<Unit>): string { "\"" + PrintUnits(us) + "\"" }

  function PrintNumber(v: Value): string
    requires v.Number?
  {
    (if v.minus then "-" else "") + v.whole
    + (match v.frac case None => "" case Some(ds) => "." + ds)
    + (match v.exp case None => "" case Some(e) => [e.mark] + e.sign + e.digits)
  }

  function Print(v: Value): string {
    match v
    case Literal(name) => name
    case Number(_, _, _, _) => PrintNumber(v)
    case Str(us) => PrintStr(us)
    case Arr(gap, es) => "[" + (if es.NoElem? then gap else PrintElems(es)) + "]"
    case Obj(gap, ms) => "{" + (if ms.NoMember? then gap else PrintMembers(ms)) + "}"
  }

  function PrintElems(es: Elems): string {
    match es
    case NoElem => ""
    case Elem(pre, v, post, rest) =>
      pre + (Print(v) + (post + (if rest.NoElem? then "" else "," + PrintElems(rest))))
  }

  function PrintMembers(ms: Members): string {
    match ms
    case NoMember => ""
    case Member(pre, key, mid, sep, v, post, rest) =>
      pre + (PrintStr(key) + (mid + (":" + (sep + (Print(v) + (post +
        (if rest.NoMember? then "" else "," + PrintMembers(rest))))))))
  }

  predicate IsDigit(c: char) { '0' <= c <= '9' }

  predicate IsHex(c: char) { IsDigit(c) || 'a' <= c <= 'f' || 'A' <= c <= 'F' }

  predicate Digits(s: string) { s != "" && forall i | 0 <= i < |s| :: IsDigit(s[i]) }

  predicate Gap(s: string) { forall i | 0 <= i < |s| :: s[i] in " \t\n\r" }

  // String contents.  `Quotable` is all a scanner needs; `RfcUnits` is the grammar of section 7.
  predicate Quotable(us: seq<Unit>) {
    forall i | 0 <= i < |us| :: us[i].Plain? ==> us[i].c != '"' && us[i].c != '\\'
  }

  predicate RfcUnits(us: seq<Unit>) {
    us == []
    || (match us[0]
     case Plain(c) => c != '"' && c != '\\' && c >= ' ' && RfcUnits(us[1..])
     case Esc('u') => HexAhead(us) && RfcUnits(us[1..])
     case Esc(c) => c in "\"\\/bfnrt" && RfcUnits(us[1..]))
  }

  predicate HexRun(us: seq<Unit>, n: nat) {
    n == 0 || (us != [] && us[0].Plain? && IsHex(us[0].c) && HexRun(us[1..], n - 1))
  }

  predicate HexAhead(us: seq<Unit>)
    requires us != []
  {
    HexRun(us[1..], 4)
  }

  predicate WfNumber(v: Value)
    requires v.Number?
  {
    && Digits(v.whole) && (v.whole[0] == '0' ==> |v.whole| == 1)
    && (v.frac.Some? ==> Digits(v.frac.value))
    && (v.exp.Some? ==> v.exp.value.mark in "eE" && v.exp.value.sign in {"", "+", "-"} && Digits(v.exp.value.digits))
  }

  // Well-formed trees.  With `strict` the printed text is exactly an RFC 8259 text; without it,
  // string literals may also hold unknown escapes and raw control characters.
  predicate Wf(v: Value, strict: bool) {
    match v
    case Literal(name) => name in {"true", "false", "null"}
    case Number(_, _, _, _) => WfNumber(v)
    case Str(us) => WfStr(us, strict)
    case Arr(gap, es) => Gap(gap) && WfElems(es, strict)
    case Obj(gap, ms) => Gap(gap) && WfMembers(ms, strict)
  }

  predicate WfStr(us: seq<Unit>, strict: bool) { if strict then RfcUnits(us) else Quotable(us) }

  predicate WfElems(es: Elems, strict: bool) {
    match es
    case NoElem => true
    case Elem(pre, v, post, rest) => Gap(pre) && Wf(v, strict) && Gap(post) && WfElems(rest, strict)
  }

  predicate WfMembers(ms: Members, strict: bool) {
    match ms
    case NoMember => true
    case Member(pre, key, mid, sep, v, post, rest) =>
      Gap(pre) && WfStr(key, strict) && Gap(mid) && Gap(sep) && Wf(v, strict) && Gap(post) && WfMembers(rest, strict)
  }

  lemma RfcUnitsAreQuotable(us: seq<Unit>)
    requires RfcUnits(us)
    ensures Quotable(us)
  {
    if us != [] {
      assert RfcUnits(us[1..]);
      RfcUnitsAreQuotable(us[1..]);
      assert us == [us[0]] + us[1..];
    }
  }

  // Every RFC text is also a text of the loose grammar.
  lemma {:induction false} StrictIsLoose(v: Value)
    requires Wf(v, true)
    ensures Wf(v, false)
  {
    match v
    case Literal(_) =>
    case Number(_, _, _, _) =>
    case Str(us) => RfcUnitsAreQuotable(us);
    case Arr(_, es) => StrictElemsAreLoose(es);
    case Obj(_, ms) => StrictMembersAreLoose(ms);
  }

  lemma {:induction false} StrictElemsAreLoose(es: Elems)
    requires WfElems(es, true)
    ensures WfElems(es, false)
  {
    match es
    case NoElem =>
    case Elem(_, v, _, rest) => StrictIsLoose(v); StrictElemsAreLoose(rest);
  }

  lemma {:induction false} StrictMembersAreLoose(ms: Members)
    requires WfMembers(ms, true)
    ensures WfMembers(ms, false)
  {
    match ms
    case NoMember =>
    case Member(_, key, _, _, v, _, rest) => RfcUnitsAreQuotable(key); StrictIsLoose(v); StrictMembersAreLoose(rest);
  }
}
