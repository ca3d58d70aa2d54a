// What the stored rows say of a graph, in terms of its entry points, sinks, spans and sites.

module RowMeaning {
  import opened Common
  import opened PyText
  import opened CallGraphRows

  // ---- names ----

  // A name is the file with forward slashes, "::" and the function.
  lemma {:induction false} SlashesAre(s: string)
    ensures |Slashes(s)| == |s|
    ensures forall i | 0 <= i < |s| :: Slashes(s)[i] == if s[i] == '\\' then '/' else s[i]
  {
    if s != "" { SlashesAre(s[1..]); }
  }

  lemma QnodeIs(file: string, fn: string)
    requires file != "" || fn != ""
    ensures var q := Qnode(file, fn);
      && |q| == |file| + 2 + |fn| && q[|file|..|file|+2] == "::" && q[|file|+2..] == fn
      && forall i | 0 <= i < |file| :: q[i] == if file[i] == '\\' then '/' else file[i]
  {
    SlashesAre(file);
  }

  // A row's file and function are the parts of its name at the last "::", or all of it is the function.
  lemma PartsOfName(g: Graph, q: string)
    ensures var row := RowOf(g, q);
      if exists i: nat :: At(q, "::", i) then
        q == row.file + "::" + row.function_ && forall i | |row.file| < i < |q| :: !At(q, "::", i)
      else row.file == "" && row.function_ == q
  {
    if i: nat :| At(q, "::", i) { assert LastBefore(q, "::", |q|).Some?; }
  }

  // ---- entry points ----

  predicate EntryAt(es: seq<EntryPoint>, q: string, i: nat) { i < |es| && Qnode(es[i].file, es[i].function_) == q }

  lemma {:induction false} EntryIsThere(es: seq<EntryPoint>, q: string)
    ensures q in EntryMeta(es) <==> q != "" && exists i :: EntryAt(es, q, i)
  {
    if es != [] {
      var init, n := es[..|es|-1], |es| - 1;
      EntryIsThere(init, q);
      assert EntryAt(es, q, n) <==> Qnode(es[n].file, es[n].function_) == q;
      assert forall i: nat | i < n :: EntryAt(es, q, i) == EntryAt(init, q, i);
      assert forall i: nat | EntryAt(es, q, i) && i != n :: EntryAt(init, q, i);
    }
  }

  lemma {:induction false} EntryIsLast(es: seq<EntryPoint>, q: string, i: nat)
    requires q != "" && EntryAt(es, q, i) && forall j: nat | i < j :: !EntryAt(es, q, j)
    ensures q in EntryMeta(es) && EntryMeta(es)[q] == (es[i].kind, es[i].unauth)
  {
    var init, n := es[..|es|-1], |es| - 1;
    if i < n {
      assert !EntryAt(es, q, n);
      assert forall j: nat | j < n :: EntryAt(init, q, j) == EntryAt(es, q, j);
      EntryIsLast(init, q, i);
    }
  }

  // A row is an entry point exactly when some entry point has its name ...
  lemma EntryPointsAre(g: Graph, q: string)
    ensures RowOf(g, q).isEntry <==> q != "" && exists i :: EntryAt(g.entries, q, i)
    ensures !RowOf(g, q).isEntry ==> RowOf(g, q).kind == "" && !RowOf(g, q).unauth
  {
    EntryIsThere(g.entries, q);
  }

  // ... and the last such one gives its kind and whether it is reachable without authentication.
  lemma LastEntryTells(g: Graph, q: string, i: nat)
    requires q != "" && EntryAt(g.entries, q, i) && forall j: nat | i < j :: !EntryAt(g.entries, q, j)
    ensures RowOf(g, q).kind == g.entries[i].kind && RowOf(g, q).unauth == g.entries[i].unauth
  {
    EntryIsLast(g.entries, q, i);
  }

  // ---- sinks ----

  predicate SinkAt(ss: seq<Sink>, q: string, i: nat) { i < |ss| && Qnode(ss[i].file, ss[i].function_) == q }

  // i is the first sink of that name, and n its line or a smaller non-zero one of a later sink.
  ghost predicate LeastLine(ss: seq<Sink>, q: string, i: nat, n: int) {
    && SinkAt(ss, q, i) && (forall j: nat | j < i :: !SinkAt(ss, q, j))
    && n <= ss[i].line && (forall j | i < j && SinkAt(ss, q, j) && ss[j].line != 0 :: n <= ss[j].line)
    && (n == ss[i].line || exists j :: i < j && SinkAt(ss, q, j) && ss[j].line != 0 && n == ss[j].line)
  }

  lemma {:induction false} SinkIsThere(ss: seq<Sink>, q: string)
    ensures q in SinkMeta(ss) <==> q != "" && exists k :: SinkAt(ss, q, k)
  {
    if ss != [] {
      var init, n := ss[..|ss|-1], |ss| - 1;
      SinkIsThere(init, q);
      assert SinkAt(ss, q, n) <==> Qnode(ss[n].file, ss[n].function_) == q;
      assert forall i: nat | i < n :: SinkAt(ss, q, i) == SinkAt(init, q, i);
      assert forall i: nat | SinkAt(ss, q, i) && i != n :: SinkAt(init, q, i);
    }
  }

  lemma {:induction false} SinkIsLeast(ss: seq<Sink>, q: string) returns (i: nat)
    requires q in SinkMeta(ss)
    ensures LeastLine(ss, q, i, SinkMeta(ss)[q])
  {
    var init, n := ss[..|ss|-1], |ss| - 1;
    SinkIsThere(init, q);
    SinkIsThere(ss, q);
    if q in SinkMeta(init) {
      i := SinkIsLeast(init, q);
      LaterSink(ss, q, i, SinkMeta(init)[q]);
    } else {
      i := n;
      assert forall j: nat | j < n :: SinkAt(ss, q, j) == SinkAt(init, q, j);
      assert forall j: nat | SinkAt(ss, q, j) :: j <= n;
    }
  }

  // One sink more.
  lemma LaterSink(ss: seq<Sink>, q: string, i: nat, m: int)
    requires ss != [] && LeastLine(ss[..|ss|-1], q, i, m)
    ensures var last := ss[|ss|-1];
      LeastLine(ss, q, i, if SinkAt(ss, q, |ss| - 1) && last.line != 0 && last.line < m then last.line else m)
  {
    var init, n := ss[..|ss|-1], |ss| - 1;
    assert forall j: nat | j < n :: SinkAt(ss, q, j) == SinkAt(init, q, j);
    assert forall j: nat | SinkAt(ss, q, j) && j != n :: SinkAt(init, q, j);
    if j :| i < j && SinkAt(init, q, j) && init[j].line != 0 && m == init[j].line { assert SinkAt(ss, q, j); }
  }

  // A row is a sink exactly when some sink has its name; its line is the least of the first such
  // sink's and the later ones' that are not zero.
  lemma SinksAre(g: Graph, q: string) returns (i: nat)
    ensures RowOf(g, q).isSink <==> q != "" && exists k :: SinkAt(g.sinks, q, k)
    ensures if RowOf(g, q).isSink then LeastLine(g.sinks, q, i, RowOf(g, q).sinkLine) else RowOf(g, q).sinkLine == 0
  {
    SinkIsThere(g.sinks, q);
    i := 0;
    if q in SinkMeta(g.sinks) { i := SinkIsLeast(g.sinks, q); }
  }

  // ---- lines ----

  predicate Digits(s: string) { forall i | 0 <= i < |s| :: '0' <= s[i] <= '9' }

  // The number decimal digits stand for, after a number read already.
  function ValueOf(s: string, acc: nat): nat
    requires Digits(s)
  {
    if s == "" then acc else ValueOf(s[1..], 10 * acc + (s[0] as int - 0x30))
  }

  lemma {:induction false} ValueSnoc(s: string, d: char, acc: nat)
    requires Digits(s) && '0' <= d <= '9'
    ensures ValueOf(s + [d], acc) == 10 * ValueOf(s, acc) + (d as int - 0x30)
  {
    if s == "" {
      assert s + [d] == [d] && [d][1..] == "";
    } else {
      assert (s + [d])[1..] == s[1..] + [d];
      ValueSnoc(s[1..], d, 10 * acc + (s[0] as int - 0x30));
    }
  }

  lemma {:induction false} TextHasValue(n: nat)
    ensures Digits(NatText(n)) && ValueOf(NatText(n), 0) == n
  {
    if n >= 10 {
      TextHasValue(n / 10);
      ValueSnoc(NatText(n / 10), '0' + (n % 10) as char, 0);
    }
  }

  lemma AsciiDigit(c: char, zeros: seq<int>)
    requires '0' <= c <= '9' && zeros != [] && zeros[0] == 0x30
    ensures DigitIn(zeros, c as int) == Some(c as int - 0x30)
  {
  }

  lemma {:induction false} DigitsAreRead(s: string, acc: nat, zeros: seq<int>)
    requires Digits(s) && s != "" && zeros != [] && zeros[0] == 0x30
    ensures DigitsValue(s, acc, zeros) == Some(ValueOf(s, acc)) && DigitCount(s) == |s|
  {
    AsciiDigit(s[0], zeros);
    if |s| > 1 { DigitsAreRead(s[1..], 10 * acc + (s[0] as int - 0x30), zeros); }
  }

  lemma Unblanked(s: string)
    requires s != "" && !Blank(s[0]) && !Blank(s[|s|-1])
    ensures TrimBlanks(s) == s
  {
  }

  lemma DigitsGiveNumber(digits: string, n: nat, minus: bool, zeros: seq<int>)
    requires Digits(digits) && 0 < |digits| <= MAX_DIGITS && ValueOf(digits, 0) == n
    requires zeros != [] && zeros[0] == 0x30
    ensures Unsigned(digits, minus, zeros) == Some(if minus then -(n as int) else n)
  {
    DigitsAreRead(digits, 0, zeros);
  }

  lemma SignIsRead(s: string, digits: string, minus: bool)
    requires Digits(digits) && digits != "" && s == (if minus then "-" + digits else digits)
    ensures ParseInt(s) == Unsigned(digits, minus, ZEROS)
  {
    assert s[|s|-1] == digits[|digits|-1];
    Unblanked(s);
    if minus { assert s[1..] == digits; }
  }

  lemma AsciiFirst()
    ensures ZEROS != [] && ZEROS[0] == 0x30
  {
  }

  // int() reads the decimal text of a number back, if it is not longer than int() allows.
  lemma TextIsRead(n: int)
    requires |NatText(if n < 0 then -n else n)| <= MAX_DIGITS
    ensures ParseInt(IntText(n)) == Some(n)
  {
    var m: nat := if n < 0 then -n else n;
    TextHasValue(m);
    AsciiFirst();
    DigitsGiveNumber(NatText(m), m, n < 0, ZEROS);
    SignIsRead(IntText(n), NatText(m), n < 0);
  }

  // A site of the file: the file before its last colon, or no colon and no file.
  predicate InFile(site: string, file: string) {
    || (|file| < |site| && site[..|file|] == file && site[|file|] == ':' && ':' !in site[|file|+1..])
    || (file == "" && ':' !in site)
  }

  lemma ColonAt(s: string, i: nat)
    ensures At(s, ":", i) <==> i < |s| && s[i] == ':'
  {
    if i < |s| { assert s[i..i+1] == [s[i]]; }
  }

  lemma InFileIff(site: string, file: string)
    ensures RPartition(site, ":").0 == file <==> InFile(site, file)
  {
    forall i: nat ensures At(site, ":", i) <==> i < |site| && site[i] == ':' { ColonAt(site, i); }
    match LastBefore(site, ":", |site|)
    case None =>
    case Some(i) =>
      assert site[i] == ':' && site[..i][..] == site[..i];
      assert forall k | i < k < |site| :: site[k] != ':';
      if InFile(site, file) { ColonIsLast(site, i, |file|); }
  }

  lemma ColonIsLast(site: string, i: nat, j: nat)
    requires i < |site| && site[i] == ':' && forall k | i < k < |site| :: site[k] != ':'
    ensures j < |site| && site[j] == ':' && ':' !in site[j+1..] ==> i == j
    ensures ':' in site
  {
    if j < i { assert site[j+1..][i-j-1] == ':'; }
  }

  // The first site of the file gives the line.
  lemma {:induction false} FirstSite(sites: seq<string>, file: string, k: nat, n: int)
    requires k < |sites| && sites[k] == file + (":" + IntText(n))
    requires |NatText(if n < 0 then -n else n)| <= MAX_DIGITS
    requires forall i | 0 <= i < k :: !InFile(sites[i], file)
    ensures SiteLine(sites, file) == Some(n)
  {
    InFileIff(sites[0], file);
    if k == 0 {
      SiteReads(file, n, sites[0]);
    } else {
      FirstSite(sites[1..], file, k - 1, n);
    }
  }

  lemma SiteReads(file: string, n: int, site: string)
    requires site == file + (":" + IntText(n)) && |NatText(if n < 0 then -n else n)| <= MAX_DIGITS
    ensures InFile(site, file) && LineFromSite(site) == n
  {
    assert site[|file|+1..] == IntText(n);
    ColonAt(site, |file|);
    forall k | |file| < k < |site| ensures !At(site, ":", k) {
      ColonAt(site, k);
      assert site[k] == IntText(n)[k-|file|-1];
    }
    RPartitionAt(site, ":", |file|);
    TextIsRead(n);
  }

  lemma {:induction false} NoSite(sites: seq<string>, file: string)
    requires forall i | 0 <= i < |sites| :: !InFile(sites[i], file)
    ensures SiteLine(sites, file) == None
  {
    if sites != [] {
      InFileIff(sites[0], file);
      NoSite(sites[1..], file);
    }
  }

  function SpanGiven(g: Graph, q: string): seq<int> { if q in g.spans then g.spans[q] else [] }

  function SitesGiven(g: Graph, fn: string): seq<string> { if fn != "" && fn in g.sites then g.sites[fn] else [] }

  function EndGiven(g: Graph, q: string): int { if |SpanGiven(g, q)| >= 2 then SpanGiven(g, q)[1] else 0 }

  predicate StartsSomewhere(g: Graph, q: string) { SpanGiven(g, q) != [] && SpanGiven(g, q)[0] != 0 }

  // A row's lines are its span's, if that starts anywhere, or if its function has no site in the file.
  lemma LinesAreTheSpan(g: Graph, q: string)
    requires StartsSomewhere(g, q)
      || forall i | 0 <= i < |SitesGiven(g, RowOf(g, q).function_)| ::
           !InFile(SitesGiven(g, RowOf(g, q).function_)[i], RowOf(g, q).file)
    ensures RowOf(g, q).start == (if SpanGiven(g, q) != [] then SpanGiven(g, q)[0] else 0)
    ensures RowOf(g, q).end == EndGiven(g, q)
  {
    if !StartsSomewhere(g, q) { NoSite(SitesGiven(g, RowOf(g, q).function_), RowOf(g, q).file); }
  }

  // Otherwise its start is the line of the first such site, and so is its end if the span has none.
  lemma LineIsTheSite(g: Graph, q: string, k: nat, n: int)
    requires !StartsSomewhere(g, q)
    requires var row := RowOf(g, q); var sites := SitesGiven(g, row.function_);
      && k < |sites| && sites[k] == row.file + (":" + IntText(n))
      && (forall i | 0 <= i < k :: !InFile(sites[i], row.file))
    requires |NatText(if n < 0 then -n else n)| <= MAX_DIGITS
    ensures RowOf(g, q).start == n
    ensures RowOf(g, q).end == if EndGiven(g, q) == 0 then n else EndGiven(g, q)
  {
    FirstSite(SitesGiven(g, RowOf(g, q).function_), RowOf(g, q).file, k, n);
  }

  // ---- which rows there are ----

  // Nothing is stored of a graph without any part; otherwise there is a row for every caller, every
  // callee of a named caller, and every name of an entry point, a sink or a span, and an edge for
  // every call between names.
  lemma RowsAre(g: Graph)
    ensures RowsOf(g) == None <==>
      g.calls == map[] && g.sites == map[] && g.spans == map[] && g.entries == [] && g.sinks == []
    ensures RowsOf(g).Some? ==> forall q :: q in RowsOf(g).value.nodes <==>
      || q in g.calls
      || (q != "" && ((exists c :: c in g.calls && c != "" && q in g.calls[c])
                      || (exists i :: EntryAt(g.entries, q, i)) || (exists k :: SinkAt(g.sinks, q, k)) || q in g.spans))
    ensures RowsOf(g).Some? ==> forall q | q in RowsOf(g).value.nodes :: RowsOf(g).value.nodes[q] == RowOf(g, q)
    ensures RowsOf(g).Some? ==> forall c, d :: (c, d) in RowsOf(g).value.edges <==>
      c in g.calls && d in g.calls[c] && c != "" && d != ""
  {
    if RowsOf(g).Some? {
      forall q ensures q in Qnodes(g) <==>
        || q in g.calls
        || (q != ""
            && ((exists c :: c in g.calls && c != "" && q in g.calls[c]) || q in g.spans
                || (exists i :: EntryAt(g.entries, q, i)) || (exists k :: SinkAt(g.sinks, q, k))))
      {
        EntryIsThere(g.entries, q);
        SinkIsThere(g.sinks, q);
        CalleeIsThere(g, q);
      }
    }
  }

  lemma CalleeIsThere(g: Graph, q: string)
    ensures (exists e :: e in Edges(g) && e.1 == q)
       <==> q != "" && exists c :: c in g.calls && c != "" && q in g.calls[c]
  {
    if c :| c in g.calls && c != "" && q in g.calls[c] && q != "" { assert (c, q) in Edges(g) && (c, q).1 == q; }
  }

  // ---- what is loaded ----

  // Strings are ordered by the first character in which they differ, a prefix coming first.
  lemma {:induction false} LessIs(a: string, b: string)
    ensures Less(a, b) <==> a != b && (a <= b || exists k ::
      0 <= k < |a| && k < |b| && a[..k] == b[..k] && a[k] < b[k])
  {
    if a != "" && b != "" {
      if a[0] == b[0] {
        var x, y := a[1..], b[1..];
        LessIs(x, y);
        assert a == [a[0]] + x && b == [b[0]] + y;
        if k :| 0 <= k < |x| && k < |y| && x[..k] == y[..k] && x[k] < y[k] {
          assert a[..k+1] == [a[0]] + x[..k] && b[..k+1] == [b[0]] + y[..k] && a[k+1] == x[k] && b[k+1] == y[k];
        }
        if k :| 0 <= k < |a| && k < |b| && a[..k] == b[..k] && a[k] < b[k] {
          assert k > 0 && x[..k-1] == a[..k][1..] && y[..k-1] == b[..k][1..] && x[k-1] == a[k] && y[k-1] == b[k];
        }
      } else {
        assert a[..0] == b[..0];
        forall k | 0 < k < |a| && k < |b| ensures a[..k] != b[..k] {
          assert a[..k][0] == a[0] && b[..k][0] == b[0];
        }
      }
    }
  }

  predicate Unauth(nodes: map<string, NodeRow>, e: (string, string)) {
    (e.0 in nodes && nodes[e.0].unauth) || (e.1 in nodes && nodes[e.1].unauth)
  }

  predicate AtEntry(nodes: map<string, NodeRow>, e: (string, string)) {
    (e.0 in nodes && nodes[e.0].isEntry) || (e.1 in nodes && nodes[e.1].isEntry)
  }

  predicate AtSink(nodes: map<string, NodeRow>, e: (string, string)) {
    (e.0 in nodes && nodes[e.0].isSink) || (e.1 in nodes && nodes[e.1].isSink)
  }

  // Alike in the first n of these three.
  predicate Alike(nodes: map<string, NodeRow>, a: (string, string), b: (string, string), n: nat) {
    && (n >= 1 ==> Unauth(nodes, a) == Unauth(nodes, b))
    && (n >= 2 ==> AtEntry(nodes, a) == AtEntry(nodes, b))
    && (n >= 3 ==> AtSink(nodes, a) == AtSink(nodes, b))
  }

  // An edge at a function reachable without authentication comes before one that is at none; then
  // those at entry points, then those at sinks; then the order is by names.
  lemma EdgesFirst(nodes: map<string, NodeRow>, a: (string, string), b: (string, string))
    ensures Unauth(nodes, a) && !Unauth(nodes, b) ==> Before(nodes, a, b)
    ensures Alike(nodes, a, b, 1) && AtEntry(nodes, a) && !AtEntry(nodes, b) ==> Before(nodes, a, b)
    ensures Alike(nodes, a, b, 2) && AtSink(nodes, a) && !AtSink(nodes, b) ==> Before(nodes, a, b)
    ensures Alike(nodes, a, b, 3) ==>
      (Before(nodes, a, b) <==> Less(a.0, b.0) || (a.0 == b.0 && Less(a.1, b.1)))
  {
    if a.0 == b.0 { LessIs(a.0, b.0); }
  }

  // A row with a file, a function and a start is a site of its function.
  lemma {:induction false} RowsGiveSites(nodes: map<string, NodeRow>, fetched: seq<string>, q: string)
    requires forall i | 0 <= i < |fetched| :: fetched[i] in nodes
    requires q in fetched && nodes[q].file != "" && nodes[q].function_ != "" && nodes[q].start != 0
    ensures var m := SitesOf(nodes, fetched);
      nodes[q].function_ in m && nodes[q].file + ":" + IntText(nodes[q].start) in m[nodes[q].function_]
  {
    var init, last := fetched[..|fetched|-1], fetched[|fetched|-1];
    if q != last {
      assert q in init;
      RowsGiveSites(nodes, init, q);
    }
  }

  predicate GivesSite(nodes: map<string, NodeRow>, q: string, fn: string, site: string) {
    && q in nodes && nodes[q].function_ == fn != "" && nodes[q].file != "" && nodes[q].start != 0
    && site == nodes[q].file + ":" + IntText(nodes[q].start)
  }

  // And every site is that of such a row, no site listed twice.
  lemma {:induction false} SitesAreRows(nodes: map<string, NodeRow>, fetched: seq<string>, fn: string)
    requires forall i | 0 <= i < |fetched| :: fetched[i] in nodes
    requires fn in SitesOf(nodes, fetched)
    ensures var sites := SitesOf(nodes, fetched)[fn];
      && (forall i, j | 0 <= i < j < |sites| :: sites[i] != sites[j])
      && (forall site | site in sites :: exists q :: q in fetched && GivesSite(nodes, q, fn, site))
  {
    var init, last := fetched[..|fetched|-1], fetched[|fetched|-1];
    assert forall q | q in init :: q in fetched;
    if fn in SitesOf(nodes, init) { SitesAreRows(nodes, init, fn); }
    var sites := SitesOf(nodes, fetched)[fn];
    forall site | site in sites ensures exists q :: q in fetched && GivesSite(nodes, q, fn, site) {
      if fn in SitesOf(nodes, init) && site in SitesOf(nodes, init)[fn] {
        var q :| q in init && GivesSite(nodes, q, fn, site);
        assert q in fetched;
      } else {
        assert last in fetched && GivesSite(nodes, last, fn, site);
      }
    }
  }

  // Every row has its lines as its span, unless it has none.
  lemma RowsGiveSpans(nodes: map<string, NodeRow>, q: string)
    ensures q in SpansOf(nodes) <==> q in nodes && !(nodes[q].start == 0 && nodes[q].end == 0)
    ensures q in SpansOf(nodes) ==> SpansOf(nodes)[q] == [nodes[q].start, nodes[q].end]
  {
  }
}
