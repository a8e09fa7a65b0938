/** GET /download-tx: the whole ledger as CSV, oldest row first, with each
    row's label looked up in the current cards. */
module Export {
  import opened Base
  import opened Text
  import opened Numbers
  import opened Db
  import opened Audit

  /** Byte-order mark that keeps spreadsheet tools reading the text as UTF-8. */
  const Bom := "\U{FEFF}"
  /** The column header: id, card token, label, delta, source, reason,
      booth, time. */
  const Header := "ID,카드토큰,라벨,변동량,출처,사유,부스,시간\n"

  /** One exported row, before rendering. */
  datatype Row = Row(id: nat, token: string, name: string, delta: int, source: Source,
                     reason: string, booth: string, at: string)

  /** The label the export shows for a token: the current card's, or "" when
      the card is gone. */
  function LabelOf(s: Store, token: string): (r: string)
    ensures token in s.cards ==> r == s.cards[token].name
    ensures token !in s.cards ==> r == ""
  {
    if token in s.cards then s.cards[token].name else ""
  }

  /** The rows of the export: one per ledger row, in ledger order, each
      joined with the label the card has now. */
  function Project(s: Store): (rows: seq<Row>)
    ensures |rows| == |s.txs|
    ensures forall i :: 0 <= i < |rows| ==>
      var x := s.txs[i];
      rows[i] == Row(x.id, x.token, LabelOf(s, x.token), x.delta, x.source, x.reason, x.booth, x.at)
    ensures Ordered(s) ==> forall i, j :: 0 <= i < j < |rows| ==> rows[i].id < rows[j].id
  {
    seq(|s.txs|, i requires 0 <= i < |s.txs| =>
      var x := s.txs[i];
      Row(x.id, x.token, LabelOf(s, x.token), x.delta, x.source, x.reason, x.booth, x.at))
  }

  /** Every `"` doubled (`replace(/"/g, '""')`). */
  function DoubleQuotes(s: string): string {
    if |s| == 0 then []
    else (if s[0] == '"' then ['"', '"'] else [s[0]]) + DoubleQuotes(s[1..])
  }

  /** A field in double quotes with every inner quote doubled, as section 2,
      rule 7 of RFC 4180 asks. */
  function Quote(s: string): string {
    ['"'] + DoubleQuotes(s) + ['"']
  }

  /** Reads the rest of a quoted field after its opening quote: a doubled
      quote stands for one quote, a single quote closes the field. Gives the
      content and the text after the closing quote; `None` when no quote
      closes it. */
  function ReadQuotedBody(t: string): Option<(string, string)>
    decreases |t|
  {
    if |t| == 0 then None
    else if t[0] == '"' then
      if |t| > 1 && t[1] == '"' then
        match ReadQuotedBody(t[2..])
        case Some(p) => Some((['"'] + p.0, p.1))
        case None => None
      else Some(([], t[1..]))
    else
      match ReadQuotedBody(t[1..])
      case Some(p) => Some(([t[0]] + p.0, p.1))
      case None => None
  }

  /** Reads one quoted field off the front of `t`. */
  function ReadQuoted(t: string): Option<(string, string)> {
    if |t| == 0 || t[0] != '"' then None else ReadQuotedBody(t[1..])
  }

  lemma {:induction false} ReadDoubled(s: string, rest: string)
    requires rest == [] || rest[0] != '"'
    ensures ReadQuotedBody(DoubleQuotes(s) + ['"'] + rest) == Some((s, rest))
    decreases |s|
  {
    var t := DoubleQuotes(s) + ['"'] + rest;
    if |s| == 0 {
      assert t == ['"'] + rest;
      assert t[1..] == rest;
    } else {
      ReadDoubled(s[1..], rest);
      var tail := DoubleQuotes(s[1..]) + ['"'] + rest;
      if s[0] == '"' {
        assert t == ['"', '"'] + tail;
        assert t[2..] == tail;
      } else {
        assert t == [s[0]] + tail;
        assert t[1..] == tail;
      }
      assert s == [s[0]] + s[1..];
    }
  }

  /** Unquoting a quoted field gives back the original text and leaves what
      followed it, for any text at all. */
  lemma {:induction false} QuoteRoundTrip(s: string, rest: string)
    requires rest == [] || rest[0] != '"'
    ensures ReadQuoted(Quote(s) + rest) == Some((s, rest))
  {
    var t := Quote(s) + rest;
    assert t[1..] == DoubleQuotes(s) + ['"'] + rest;
    ReadDoubled(s, rest);
  }

  /** The row as the server writes it: the fields joined by commas, only the
      reason and the booth quoted. */
  function RenderRow(r: Row): string {
    Show(r.id) + [','] + r.token + [','] + r.name + [','] + Show(r.delta) + [',']
      + SourceName(r.source) + [','] + Quote(r.reason) + [','] + Quote(r.booth) + [','] + r.at
  }

  /** The rendered rows, each ended by a line feed. */
  function Body(rows: seq<Row>): string {
    Terminated(RenderAll(rows), '\n')
  }

  /** The rendered text of every row, in order. */
  function RenderAll(rows: seq<Row>): seq<string> {
    seq(|rows|, i requires 0 <= i < |rows| => RenderRow(rows[i]))
  }

  /** The whole export file. */
  function Csv(s: Store): string {
    Bom + Header + Body(Project(s))
  }

  /** Reads an unquoted field: the text up to the next comma, and what comes
      after that comma. */
  function ReadPlain(t: string): Option<(string, string)>
    decreases |t|
  {
    if |t| == 0 then None
    else if t[0] == ',' then Some(([], t[1..]))
    else
      match ReadPlain(t[1..])
      case Some(p) => Some(([t[0]] + p.0, p.1))
      case None => None
  }

  /** Reads a comma, and gives what follows it. */
  function ReadComma(t: string): Option<string> {
    if |t| > 0 && t[0] == ',' then Some(t[1..]) else None
  }

  function ParseSource(f: string): Option<Source> {
    if f == SourceName(FromBooth) then Some(FromBooth)
    else if f == SourceName(FromAdmin) then Some(FromAdmin)
    else None
  }

  /** The five unquoted leading fields of a row, and the text after them. */
  datatype Head = Head(id: nat, token: string, name: string, delta: int, source: Source, rest: string)

  /** An unquoted field read as an integer with `parseInt`. */
  function ReadNumber(t: string): Option<(int, string)> {
    var f :- ReadPlain(t);
    var n :- ParseInt(f.0);
    Some((n, f.1))
  }

  function ReadHead(line: string): Option<Head> {
    var f1 :- ReadNumber(line);
    var f2 :- ReadPlain(f1.1);
    var f3 :- ReadPlain(f2.1);
    var f4 :- ReadNumber(f3.1);
    var f5 :- ReadPlain(f4.1);
    var source :- ParseSource(f5.0);
    if f1.0 < 0 then None else Some(Head(f1.0, f2.0, f3.0, f4.0, source, f5.1))
  }

  /** The quoted reason and booth, then the time running to the end. */
  function ReadTail(t: string): Option<(string, string, string)> {
    var f6 :- ReadQuoted(t);
    var t6 :- ReadComma(f6.1);
    var f7 :- ReadQuoted(t6);
    var at :- ReadComma(f7.1);
    Some((f6.0, f7.0, at))
  }

  /** Reads one rendered row back. */
  function ParseRow(line: string): Option<Row> {
    var h :- ReadHead(line);
    var t :- ReadTail(h.rest);
    Some(Row(h.id, h.token, h.name, h.delta, h.source, t.0, t.1, t.2))
  }

  lemma {:induction false} ReadPlainOf(f: string, rest: string)
    requires ',' !in f
    ensures ReadPlain(f + [','] + rest) == Some((f, rest))
    decreases |f|
  {
    var t := f + [','] + rest;
    if |f| == 0 {
      assert t == [','] + rest;
    } else {
      ReadPlainOf(f[1..], rest);
      assert t[1..] == f[1..] + [','] + rest;
      assert f == [f[0]] + f[1..];
    }
  }

  lemma {:induction false} TailRoundTrip(reason: string, booth: string, at: string)
    ensures ReadTail(Quote(reason) + [','] + Quote(booth) + [','] + at) == Some((reason, booth, at))
  {
    var s7 := Quote(booth) + [','] + at;
    QuoteRoundTrip(reason, [','] + s7);
    assert Quote(reason) + ([','] + s7) == Quote(reason) + [','] + Quote(booth) + [','] + at;
    QuoteRoundTrip(booth, [','] + at);
    assert Quote(booth) + ([','] + at) == s7;
  }

  lemma {:induction false} NumberRoundTrip(n: int, rest: string)
    ensures ReadNumber(Show(n) + [','] + rest) == Some((n, rest))
  {
    ShowAvoids(n, ',');
    ReadPlainOf(Show(n), rest);
    ParseShow(n, []);
    assert Show(n) + [] == Show(n);
  }

  lemma SourceRoundTrip(src: Source, rest: string)
    ensures ReadPlain(SourceName(src) + [','] + rest) == Some((SourceName(src), rest))
  {
    assert ',' !in SourceName(src);
    ReadPlainOf(SourceName(src), rest);
  }

  lemma HeadOf(line: string, id: nat, token: string, name: string, delta: int,
                                  source: Source, s2: string, s3: string, s4: string, s5: string, rest: string)
    requires ReadNumber(line) == Some((id as int, s2))
    requires ReadPlain(s2) == Some((token, s3))
    requires ReadPlain(s3) == Some((name, s4))
    requires ReadNumber(s4) == Some((delta, s5))
    requires ReadPlain(s5) == Some((SourceName(source), rest))
    ensures ReadHead(line) == Some(Head(id, token, name, delta, source, rest))
  {
  }

  lemma {:induction false} HeadRoundTrip(r: Row, s2: string, s3: string, s4: string, s5: string, rest: string)
    requires ',' !in r.token && ',' !in r.name
    requires s5 == SourceName(r.source) + [','] + rest
    requires s4 == Show(r.delta) + [','] + s5
    requires s3 == r.name + [','] + s4
    requires s2 == r.token + [','] + s3
    ensures ReadHead(Show(r.id) + [','] + s2) == Some(Head(r.id, r.token, r.name, r.delta, r.source, rest))
  {
    NumberRoundTrip(r.id, s2);
    ReadPlainOf(r.token, s3);
    ReadPlainOf(r.name, s4);
    NumberRoundTrip(r.delta, s5);
    SourceRoundTrip(r.source, rest);
    HeadOf(Show(r.id) + [','] + s2, r.id, r.token, r.name, r.delta, r.source, s2, s3, s4, s5, rest);
  }

  /** A rendered row reads back as the row it came from, whatever its reason
      and booth hold, provided the two unquoted text fields (token and
      label) hold no comma. */
  lemma {:induction false} RowRoundTrip(r: Row)
    requires ',' !in r.token && ',' !in r.name
    ensures ParseRow(RenderRow(r)) == Some(r)
  {
    var rest := Quote(r.reason) + [','] + Quote(r.booth) + [','] + r.at;
    var s5 := SourceName(r.source) + [','] + rest;
    var s4 := Show(r.delta) + [','] + s5;
    var s3 := r.name + [','] + s4;
    var s2 := r.token + [','] + s3;
    RenderParts(r, s2, s3, s4, s5, rest);
    HeadRoundTrip(r, s2, s3, s4, s5, rest);
    TailRoundTrip(r.reason, r.booth, r.at);
    RowOf(RenderRow(r), Head(r.id, r.token, r.name, r.delta, r.source, rest), r);
  }

  /** The rendered row is its id, a comma and the remaining fields. */
  lemma RenderParts(r: Row, s2: string, s3: string, s4: string, s5: string, rest: string)
    requires rest == Quote(r.reason) + [','] + Quote(r.booth) + [','] + r.at
    requires s5 == SourceName(r.source) + [','] + rest
    requires s4 == Show(r.delta) + [','] + s5
    requires s3 == r.name + [','] + s4
    requires s2 == r.token + [','] + s3
    ensures RenderRow(r) == Show(r.id) + [','] + s2
  {
    Regroup(Show(r.id), r.token, r.name, Show(r.delta), SourceName(r.source), Quote(r.reason), Quote(r.booth), r.at);
  }

  lemma Regroup(a: string, b: string, c: string, d: string, e: string, f: string, g: string, h: string)
    ensures a + [','] + b + [','] + c + [','] + d + [','] + e + [','] + f + [','] + g + [','] + h
         == a + [','] + (b + [','] + (c + [','] + (d + [','] + (e + [','] + (f + [','] + g + [','] + h)))))
  {
  }

  /** A row whose head and tail both read back reads back whole. */
  lemma RowOf(line: string, h: Head, r: Row)
    requires ReadHead(line) == Some(h)
    requires ReadTail(h.rest) == Some((r.reason, r.booth, r.at))
    requires h == Head(r.id, r.token, r.name, r.delta, r.source, h.rest)
    ensures ParseRow(line) == Some(r)
  {
  }

  // ---------------------------------------------------------------------
  // The file as lines

  /** Doubling quotes adds no character but `"`. */
  lemma {:induction false} DoubleQuotesWithin(s: string, c: char)
    requires c != '"' && c !in s
    ensures c !in DoubleQuotes(s)
    decreases |s|
  {
    if |s| > 0 {
      DoubleQuotesWithin(s[1..], c);
      assert s[0] != c;
    }
  }

  /** No text field of the row holds a line feed (the numbers and the source
      never do). */
  predicate OneLine(r: Row) {
    '\n' !in r.token && '\n' !in r.name && '\n' !in r.reason && '\n' !in r.booth && '\n' !in r.at
  }

  /** A row without line feeds in its text fields renders on one line. */
  lemma RenderOneLine(r: Row)
    requires OneLine(r)
    ensures '\n' !in RenderRow(r)
  {
    ShowAvoids(r.id, '\n');
    ShowAvoids(r.delta, '\n');
    DoubleQuotesWithin(r.reason, '\n');
    DoubleQuotesWithin(r.booth, '\n');
    assert '\n' !in SourceName(r.source);
  }

  /** Rows whose text fields hold no line feed come out one per line, in
      order, with nothing after the final line feed. */
  lemma {:induction false} BodyLines(rows: seq<Row>)
    requires |rows| > 0
    requires forall i :: 0 <= i < |rows| ==> OneLine(rows[i])
    ensures Split(Body(rows), '\n') == RenderAll(rows) + [""]
  {
    var lines := RenderAll(rows);
    forall i | 0 <= i < |lines| ensures '\n' !in lines[i] {
      RenderOneLine(rows[i]);
    }
    SplitTerminated(lines, '\n');
  }

  /** The export row of a ledger row whose text fields hold no line feed
      and whose token and label hold no comma. */
  predicate Exportable(s: Store, x: Tx) {
    && ',' !in x.token && ',' !in LabelOf(s, x.token)
    && OneLine(Row(x.id, x.token, LabelOf(s, x.token), x.delta, x.source, x.reason, x.booth, x.at))
  }

  /** After the byte-order mark and the header, the file has one line per
      ledger row, in ledger order, and each line reads back as that row
      with the label the card has now. */
  lemma {:induction false} CsvReadsBack(s: Store)
    requires |s.txs| > 0
    requires forall i :: 0 <= i < |s.txs| ==> Exportable(s, s.txs[i])
    ensures Csv(s) == Bom + Header + Body(Project(s))
    ensures |Split(Body(Project(s)), '\n')| == |s.txs| + 1
    ensures forall i :: 0 <= i < |s.txs| ==>
      var x := s.txs[i];
      ParseRow(Split(Body(Project(s)), '\n')[i])
        == Some(Row(x.id, x.token, LabelOf(s, x.token), x.delta, x.source, x.reason, x.booth, x.at))
  {
    var rows := Project(s);
    BodyLines(rows);
    forall i | 0 <= i < |rows| ensures ParseRow(RenderAll(rows)[i]) == Some(rows[i]) {
      RowRoundTrip(rows[i]);
    }
  }
}
