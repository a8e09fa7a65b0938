/** Bulk roster import: a text of `token,balance[,label]` lines becomes a
    series of card overwrites that bypass the ledger. */
module Bulk {
  import opened Base
  import opened Text
  import opened Numbers
  import opened Db

  /** Drops one carriage return at the end of `s`. */
  function DropCr(s: string): (r: string)
    ensures |s| > 0 && s[|s| - 1] == '\r' ==> r == s[..|s| - 1]
    ensures (|s| == 0 || s[|s| - 1] != '\r') ==> r == s
  {
    if |s| > 0 && s[|s| - 1] == '\r' then s[..|s| - 1] else s
  }

  /** `text.split(/\r?\n/)`: cut at each line feed, and a carriage return
      right before a line feed goes with it. */
  function SplitLines(text: string): seq<string> {
    var ps := Split(text, '\n');
    seq(|ps|, i requires 0 <= i < |ps| => if i < |ps| - 1 then DropCr(ps[i]) else ps[i])
  }

  /** `.filter(Boolean)` on strings: the non-empty ones, in order. */
  function NonEmpty(xs: seq<string>): seq<string> {
    if |xs| == 0 then []
    else (if xs[0] == "" then [] else [xs[0]]) + NonEmpty(xs[1..])
  }

  /** The blank filter keeps exactly the non-empty strings, and never
      lengthens the list. */
  lemma {:induction false} NonEmptyMembers(xs: seq<string>)
    ensures |NonEmpty(xs)| <= |xs|
    ensures forall x :: x in NonEmpty(xs) <==> x in xs && x != ""
    decreases |xs|
  {
    if |xs| > 0 {
      NonEmptyMembers(xs[1..]);
      assert xs == [xs[0]] + xs[1..];
    }
  }

  /** The lines the import looks at: each trimmed, blank ones dropped. */
  function Lines(text: string): seq<string> {
    NonEmpty(TrimAll(SplitLines(text)))
  }

  /** One accepted roster line. */
  datatype Entry = Entry(token: string, name: string, balance: int)

  /** The comma-separated fields of a line, each trimmed. */
  function Fields(line: string): (r: seq<string>)
    ensures |r| >= 1
  {
    TrimAll(Split(line, ','))
  }

  /** No field holds a comma or starts or ends with a space. */
  lemma FieldsClean(line: string)
    ensures forall i :: 0 <= i < |Fields(line)| ==> ',' !in Fields(line)[i] && Tight(Fields(line)[i])
  {
    var ps := Split(line, ',');
    SplitPieces(line, ',');
    forall i | 0 <= i < |ps| ensures ',' !in Trim(ps[i]) && Tight(Trim(ps[i])) {
      TrimWithin(ps[i]);
      TrimShape(ps[i]);
    }
  }

  /** The balance text of a line: the second field, or "0" when it is
      missing or empty (`parts[1] || "0"`). */
  function BalanceText(fields: seq<string>): string {
    if |fields| > 1 && fields[1] != "" then fields[1] else "0"
  }

  /** One line: the first field is the token, the second the balance, the
      third the label; fields after the third are ignored. A line with an
      empty token or a balance that is not a number is skipped (`None`). */
  function ParseLine(line: string): (r: Option<Entry>)
    ensures r.None? <==> Fields(line)[0] == "" || ParseInt(BalanceText(Fields(line))).None?
    ensures r.Some? ==>
      && r.value.token == Fields(line)[0]
      && Some(r.value.balance) == ParseInt(BalanceText(Fields(line)))
      && r.value.name == (if |Fields(line)| > 2 then Fields(line)[2] else "")
  {
    var parts := Fields(line);
    var token := parts[0];
    var bal := ParseInt(BalanceText(parts));
    var name := if |parts| > 2 then parts[2] else "";
    if token == "" || bal.None? then None else Some(Entry(token, name, bal.value))
  }

  /** The parse of every line. */
  function ParseAll(lines: seq<string>): seq<Option<Entry>> {
    seq(|lines|, i requires 0 <= i < |lines| => ParseLine(lines[i]))
  }

  /** The entries of the lines that parsed, in order; the others are
      skipped. */
  function Accepted(parsed: seq<Option<Entry>>): seq<Entry> {
    if |parsed| == 0 then []
    else
      var init := Accepted(parsed[..|parsed| - 1]);
      match parsed[|parsed| - 1]
      case Some(e) => init + [e]
      case None => init
  }

  /** An entry is accepted exactly when some line parsed to it, and
      skipping never lengthens the list. */
  lemma {:induction false} AcceptedMembers(parsed: seq<Option<Entry>>)
    ensures |Accepted(parsed)| <= |parsed|
    ensures forall e :: e in Accepted(parsed) <==> Some(e) in parsed
    decreases |parsed|
  {
    if |parsed| > 0 {
      var init := parsed[..|parsed| - 1];
      AcceptedMembers(init);
      assert parsed == init + [parsed[|parsed| - 1]];
    }
  }

  /** The accepted entries of the lines. */
  function Entries(lines: seq<string>): seq<Entry> {
    Accepted(ParseAll(lines))
  }

  /** Writes each entry as a card overwrite, first to last. */
  function ApplyAll(s: Store, es: seq<Entry>): (r: Store)
    ensures r.txs == s.txs && r.nextId == s.nextId && r.booths == s.booths
  {
    if |es| == 0 then s
    else
      var e := es[|es| - 1];
      UpsertCard(ApplyAll(s, es[..|es| - 1]), e.token, e.name, e.balance)
  }

  /** POST /card/bulk, in one database transaction: every accepted line
      overwrites its card; nothing is written to the ledger. */
  function Import(s: Store, text: string): (r: Store)
    ensures r.txs == s.txs && r.nextId == s.nextId && r.booths == s.booths
  {
    ApplyAll(s, Entries(Lines(text)))
  }

  /** The last entry for `token`: the one whose values stick. */
  function LastFor(es: seq<Entry>, token: string): (r: Option<Entry>)
    ensures r.Some? ==> r.value in es && r.value.token == token
    ensures r.Some? ==> exists i :: 0 <= i < |es| && es[i] == r.value &&
                          forall j :: i < j < |es| ==> es[j].token != token
    ensures r.None? ==> forall i :: 0 <= i < |es| ==> es[i].token != token
  {
    if |es| == 0 then None
    else if es[|es| - 1].token == token then Some(es[|es| - 1])
    else LastFor(es[..|es| - 1], token)
  }

  /** The line parsed to an entry for `token`. */
  predicate Names(p: Option<Entry>, token: string) {
    p.Some? && p.value.token == token
  }

  /** Skipping keeps the lines in order: the last accepted entry for `token`
      came from a line that no later accepted line for `token` follows, and
      when there is none, no line for `token` was accepted at all. */
  lemma LastAcceptedLine(parsed: seq<Option<Entry>>, token: string)
    ensures LastFor(Accepted(parsed), token).Some? ==>
      exists i :: 0 <= i < |parsed| && parsed[i] == LastFor(Accepted(parsed), token) &&
        forall j :: i < j < |parsed| ==> !Names(parsed[j], token)
    ensures LastFor(Accepted(parsed), token).None? ==>
      forall j :: 0 <= j < |parsed| ==> !Names(parsed[j], token)
  {
    if LastFor(Accepted(parsed), token).Some? {
      var i := LastAcceptedIndex(parsed, token);
    } else {
      NoAcceptedLine(parsed, token);
    }
  }

  /** Where the last accepted entry for `token` came from. */
  lemma {:induction false} LastAcceptedIndex(parsed: seq<Option<Entry>>, token: string) returns (i: int)
    requires LastFor(Accepted(parsed), token).Some?
    ensures 0 <= i < |parsed| && parsed[i] == LastFor(Accepted(parsed), token)
    ensures forall j :: i < j < |parsed| ==> !Names(parsed[j], token)
    decreases |parsed|
  {
    var n := |parsed| - 1;
    if Names(parsed[n], token) {
      AcceptedLast(parsed, token);
      i := n;
    } else {
      var init := parsed[..n];
      AcceptedOther(parsed, token);
      i := LastAcceptedIndex(init, token);
      assert parsed[i] == init[i];
      forall j | i < j < |parsed| ensures !Names(parsed[j], token) {
        if j < n {
          assert parsed[j] == init[j];
        }
      }
    }
  }

  /** No accepted entry for `token` means no line for it was accepted. */
  lemma {:induction false} NoAcceptedLine(parsed: seq<Option<Entry>>, token: string)
    requires LastFor(Accepted(parsed), token).None?
    ensures forall j :: 0 <= j < |parsed| ==> !Names(parsed[j], token)
    decreases |parsed|
  {
    if |parsed| > 0 {
      var n := |parsed| - 1;
      var init := parsed[..n];
      if Names(parsed[n], token) {
        AcceptedLast(parsed, token);
      } else {
        AcceptedOther(parsed, token);
        NoAcceptedLine(init, token);
        forall j | 0 <= j < n ensures !Names(parsed[j], token) {
          assert parsed[j] == init[j];
        }
      }
    }
  }

  /** A last line for `token` gives the last accepted entry for it. */
  lemma AcceptedLast(parsed: seq<Option<Entry>>, token: string)
    requires |parsed| > 0 && Names(parsed[|parsed| - 1], token)
    ensures LastFor(Accepted(parsed), token) == parsed[|parsed| - 1]
  {
    assert Accepted(parsed) == Accepted(parsed[..|parsed| - 1]) + [parsed[|parsed| - 1].value];
  }

  /** A last line that is skipped or names another token leaves the last
      accepted entry for `token` as it was. */
  lemma AcceptedOther(parsed: seq<Option<Entry>>, token: string)
    requires |parsed| > 0
    requires !Names(parsed[|parsed| - 1], token)
    ensures LastFor(Accepted(parsed), token) == LastFor(Accepted(parsed[..|parsed| - 1]), token)
  {
    var a := Accepted(parsed[..|parsed| - 1]);
    if parsed[|parsed| - 1].Some? {
      var e := parsed[|parsed| - 1].value;
      assert Accepted(parsed) == a + [e];
      assert (a + [e])[..|a|] == a;
    }
  }

  /** The last accepted entry for `token`, read against the lines: it is the
      parse of a line after which no line parses to an entry for `token`. */
  lemma {:induction false} LastLineWins(lines: seq<string>, token: string)
    ensures LastFor(Entries(lines), token).Some? ==>
      exists i :: 0 <= i < |lines| && ParseLine(lines[i]) == LastFor(Entries(lines), token) &&
        forall j :: i < j < |lines| ==> !Names(ParseLine(lines[j]), token)
    ensures LastFor(Entries(lines), token).None? ==>
      forall j :: 0 <= j < |lines| ==> !Names(ParseLine(lines[j]), token)
  {
    var parsed := ParseAll(lines);
    LastAcceptedLine(parsed, token);
    assert forall j :: 0 <= j < |lines| ==> parsed[j] == ParseLine(lines[j]);
  }

  /** After the overwrites, a token named by some entry holds the values of
      its last entry; any other token keeps whatever it had, card or none. */
  lemma {:induction false} LastEntryWins(s: Store, es: seq<Entry>, token: string)
    ensures LastFor(es, token).Some? ==>
      var e := LastFor(es, token).value;
      token in ApplyAll(s, es).cards && ApplyAll(s, es).cards[token] == Card(e.name, e.balance)
    ensures LastFor(es, token).None? ==>
      && (token in ApplyAll(s, es).cards <==> token in s.cards)
      && (token in s.cards ==> ApplyAll(s, es).cards[token] == s.cards[token])
    decreases |es|
  {
    if |es| > 0 {
      LastEntryWins(s, es[..|es| - 1], token);
    }
  }

  /** A roster line the parser reads back unchanged: a non-empty token and a
      label, neither holding a comma or a line break nor padded by spaces. */
  predicate Portable(e: Entry) {
    && e.token != "" && Tight(e.token) && Tight(e.name)
    && ',' !in e.token && ',' !in e.name
    && '\n' !in e.token && '\n' !in e.name
  }

  /** The `token,balance,label` line for an entry. */
  function FormatLine(e: Entry): string {
    e.token + [','] + Show(e.balance) + [','] + e.name
  }

  /** The formatted line of every entry, in order. */
  function FormatAll(es: seq<Entry>): seq<string> {
    seq(|es|, i requires 0 <= i < |es| => FormatLine(es[i]))
  }

  /** The roster text for a list of entries, one line each. */
  function Render(es: seq<Entry>): string {
    if |es| == 0 then "" else Join(FormatAll(es), '\n')
  }

  /** A rendered integer is tight, non-empty, and holds no comma or line
      feed. */
  lemma ShowIsField(n: int)
    ensures Tight(Show(n)) && ',' !in Show(n) && '\n' !in Show(n)
    ensures Show(n) != ""
  {
    ShowShape(n);
    ShowAvoids(n, ',');
    ShowAvoids(n, '\n');
    ShowAvoids(n, ' ');
  }

  /** Trimming leaves tight texts alone. */
  lemma TrimAllTight(xs: seq<string>)
    requires forall i :: 0 <= i < |xs| ==> Tight(xs[i])
    ensures TrimAll(xs) == xs
  {
    forall i | 0 <= i < |xs| ensures Trim(xs[i]) == xs[i] {
      TightIsTrimmed(xs[i]);
    }
  }

  lemma TightIsTrimmed(s: string)
    requires Tight(s)
    ensures Trim(s) == s
  {
  }

  /** Three comma-free, tight fields joined by commas come back as those
      three fields. */
  lemma {:induction false} FieldsOfThree(a: string, b: string, c: string)
    requires ',' !in a && ',' !in b && ',' !in c
    requires Tight(a) && Tight(b) && Tight(c)
    ensures Fields(a + [','] + b + [','] + c) == [a, b, c]
  {
    SplitThree(a, b, c, ',');
    TrimAllTight([a, b, c]);
  }

  /** The parser reads a formatted line back as the entry it came from. */
  lemma {:induction false} ParseFormat(e: Entry)
    requires Portable(e)
    ensures ParseLine(FormatLine(e)) == Some(e)
  {
    var b := Show(e.balance);
    ShowIsField(e.balance);
    FieldsOfThree(e.token, b, e.name);
    ParseShow(e.balance, []);
    assert b + [] == b;
    ParseLineOf(FormatLine(e), e.token, b, e.name, e.balance);
  }

  /** A line of three fields, the first non-empty and the second a number,
      is accepted with those values. */
  lemma ParseLineOf(line: string, token: string, bal: string, name: string, n: int)
    requires Fields(line) == [token, bal, name]
    requires token != "" && bal != "" && ParseInt(bal) == Some(n)
    ensures ParseLine(line) == Some(Entry(token, name, n))
  {
  }

  /** A formatted line is tight and free of line feeds. */
  lemma {:induction false} FormatShape(e: Entry)
    requires Portable(e)
    ensures Tight(FormatLine(e)) && '\n' !in FormatLine(e) && FormatLine(e) != ""
  {
    var l := FormatLine(e);
    ShowIsField(e.balance);
    assert l[0] == e.token[0];
    assert l[|l| - 1] == if e.name == [] then ',' else e.name[|e.name| - 1];
    assert forall c :: c in l ==> c in e.token || c in Show(e.balance) || c in e.name || c == ',';
  }

  /** When every line parsed, nothing is skipped. */
  lemma {:induction false} AcceptedAll(es: seq<Entry>)
    ensures Accepted(seq(|es|, i requires 0 <= i < |es| => Some(es[i]))) == es
    decreases |es|
  {
    if |es| > 0 {
      var n := |es| - 1;
      var parsed := seq(|es|, i requires 0 <= i < |es| => Some(es[i]));
      assert parsed[..n] == seq(n, i requires 0 <= i < n => Some(es[..n][i]));
      AcceptedAll(es[..n]);
      assert es == es[..n] + [es[n]];
    }
  }

  /** A tight line without a carriage return survives the line split and
      the trim. */
  lemma LfOnly(line: string, last: bool)
    requires Tight(line)
    ensures Trim(if last then line else DropCr(line)) == line
  {
  }

  /** The lines of a rendered roster are the formatted lines. */
  lemma {:induction false} LinesOfRendered(es: seq<Entry>)
    requires |es| > 0
    requires forall i :: 0 <= i < |es| ==> Portable(es[i])
    ensures Lines(Render(es)) == FormatAll(es)
  {
    var lines := FormatAll(es);
    forall i | 0 <= i < |lines| ensures Tight(lines[i]) && '\n' !in lines[i] && lines[i] != "" {
      FormatShape(es[i]);
    }
    SplitJoin(lines, '\n');
    var n := |lines|;
    assert TrimAll(SplitLines(Render(es))) == lines by {
      forall i | 0 <= i < n ensures TrimAll(SplitLines(Render(es)))[i] == lines[i] {
        LfOnly(lines[i], i == n - 1);
      }
    }
    NonEmptyKeeps(lines);
  }

  /** Every formatted line parses back to its entry. */
  lemma {:induction false} ParseAllFormatted(es: seq<Entry>)
    requires forall i :: 0 <= i < |es| ==> Portable(es[i])
    ensures ParseAll(FormatAll(es)) == seq(|es|, i requires 0 <= i < |es| => Some(es[i]))
  {
    forall i | 0 <= i < |es| ensures ParseLine(FormatAll(es)[i]) == Some(es[i]) {
      ParseFormat(es[i]);
    }
  }

  lemma {:induction false} NonEmptyKeeps(xs: seq<string>)
    requires forall i :: 0 <= i < |xs| ==> xs[i] != ""
    ensures NonEmpty(xs) == xs
    decreases |xs|
  {
    if |xs| > 0 {
      NonEmptyKeeps(xs[1..]);
      assert xs == [xs[0]] + xs[1..];
    }
  }

  /** The same roster with Windows line ends: every line followed by a
      carriage return before its line feed. */
  function RenderCrLf(es: seq<Entry>): string {
    if |es| == 0 then "" else Join(WithCr(FormatAll(es)), '\n')
  }

  function WithCr(lines: seq<string>): seq<string> {
    seq(|lines|, i requires 0 <= i < |lines| => lines[i] + ['\r'])
  }

  /** A line with a carriage return, after the line split and the trim, is
      the line again, the last one included. */
  lemma CrDropped(line: string, last: bool)
    requires Tight(line)
    ensures Trim(if last then line + ['\r'] else DropCr(line + ['\r'])) == line
  {
    if last {
      TrimPadded("", line, ['\r']);
      assert "" + line + ['\r'] == line + ['\r'];
    } else {
      assert (line + ['\r'])[..|line|] == line;
      TightIsTrimmed(line);
    }
  }

  /** The lines of a CRLF roster are the formatted lines: `\r?\n` and the
      trim together drop every carriage return. */
  lemma {:induction false} LinesOfCrLf(es: seq<Entry>)
    requires |es| > 0
    requires forall i :: 0 <= i < |es| ==> Portable(es[i])
    ensures Lines(RenderCrLf(es)) == FormatAll(es)
  {
    var lines := FormatAll(es);
    var crs := WithCr(lines);
    forall i | 0 <= i < |lines| ensures Tight(lines[i]) && '\n' !in crs[i] && lines[i] != "" {
      FormatShape(es[i]);
    }
    SplitJoin(crs, '\n');
    var n := |crs|;
    assert TrimAll(SplitLines(RenderCrLf(es))) == lines by {
      forall i | 0 <= i < n ensures TrimAll(SplitLines(RenderCrLf(es)))[i] == lines[i] {
        CrDropped(lines[i], i == n - 1);
      }
    }
    NonEmptyKeeps(lines);
  }

  /** Windows line ends import the same as Unix ones. */
  lemma {:induction false} ImportCrLf(s: Store, es: seq<Entry>)
    requires forall i :: 0 <= i < |es| ==> Portable(es[i])
    ensures Import(s, RenderCrLf(es)) == Import(s, Render(es))
  {
    ImportRendered(s, es);
    if |es| > 0 {
      LinesOfCrLf(es);
      LinesOfRendered(es);
    }
  }

  /** A line with only a token, or with an empty balance field, sets the
      balance to 0 and the label to "". */
  lemma DefaultBalance(line: string, token: string)
    requires token != ""
    requires Fields(line) == [token] || Fields(line) == [token, ""]
    ensures ParseLine(line) == Some(Entry(token, "", 0))
  {
    ZeroParses();
    ParseLineOf1(line, Fields(line), token);
  }

  /** `parseInt("0")`. */
  lemma ZeroParses()
    ensures ParseInt("0") == Some(0)
  {
  }

  lemma ParseLineOf1(line: string, fields: seq<string>, token: string)
    requires fields == Fields(line) && (fields == [token] || fields == [token, ""])
    requires token != "" && ParseInt("0") == Some(0)
    ensures ParseLine(line) == Some(Entry(token, "", 0))
  {
  }

  /** Importing the rendered roster writes exactly those entries, in order:
      the line parser inverts the line renderer. */
  lemma {:induction false} ImportRendered(s: Store, es: seq<Entry>)
    requires forall i :: 0 <= i < |es| ==> Portable(es[i])
    ensures Import(s, Render(es)) == ApplyAll(s, es)
  {
    if |es| == 0 {
      assert Split("", '\n') == [""];
      assert SplitLines("") == [""];
      assert TrimAll([""]) == [""];
      assert Lines("") == [];
      assert Entries([]) == [];
    } else {
      LinesOfRendered(es);
      ParseAllFormatted(es);
      AcceptedAll(es);
    }
  }
}
