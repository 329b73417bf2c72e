/**
 The text of `export_csv` (api/index.py): `clean_csv_field`, the comma-joined
 row of each record and the newline-joined document under a fixed header.
 Beside the writer stands a reader for exactly this format, and the lemmas
 show that reading the export gives back every field of every row (with a
 newline inside a field read back as the space it was turned into).
 */
module Csv {
  import opened Text
  import opened Records

  const Header := "\"timestamp\",\"name\",\"total\",\"category\",\"note\""

  const Quote := '"'

  // ---------------------------------------------------------------------------
  // Writing
  // ---------------------------------------------------------------------------

  /** Python's `s.replace(c, rep)` for a one-character pattern. */
  function Replace(s: string, c: char, rep: string): (r: string)
    ensures c !in rep ==> c !in r
    ensures |rep| == 1 ==> |r| == |s|
  {
    if s == [] then []
    else (if s[0] == c then rep else [s[0]]) + Replace(s[1..], c, rep)
  }

  /** Each quote doubled. */
  function Escape(s: string): string {
    Replace(s, Quote, "\"\"")
  }

  /** Each newline turned into a space. */
  function Flatten(s: string): string {
    Replace(s, '\n', " ")
  }

  function FlattenOpt(s: Option<string>): Option<string> {
    match s
    case None => None
    case Some(x) => Some(Flatten(x))
  }

  /** `clean_csv_field`: nothing for a missing value; otherwise the text with
      quotes doubled, then newlines turned into spaces, between quotes. */
  function CleanField(s: Option<string>): (r: string)
    ensures s.None? <==> r == ""
    ensures s.Some? ==> |r| >= 2 && r[0] == Quote && r[|r| - 1] == Quote
    ensures '\n' !in r
  {
    match s
    case None => ""
    case Some(x) => "\"" + Flatten(Escape(x)) + "\""
  }

  /** `sep.join(parts)`. */
  function Join(sep: string, parts: seq<string>): string {
    if |parts| == 0 then ""
    else if |parts| == 1 then parts[0]
    else parts[0] + sep + Join(sep, parts[1..])
  }

  /** One record as a line: timestamp, name, total, category, note; the total
      is the one field written as bare digits. */
  function RowLine(fmt: Timestamp -> string, r: Record): string {
    Join(",", [CleanField(Some(fmt(r.timestamp))), CleanField(r.name), Show(r.totalScore),
               CleanField(Some(r.category)), CleanField(r.note)])
  }

  /** One line per record, in order; no line contains a newline, so each
      stays a single line of the document. */
  function RowLines(fmt: Timestamp -> string, rs: seq<Record>): (lines: seq<string>)
    ensures |lines| == |rs|
    ensures forall i | 0 <= i < |lines| :: '\n' !in lines[i]
  {
    if rs == [] then []
    else
      RowLineSingleLine(fmt, rs[0]);
      [RowLine(fmt, rs[0])] + RowLines(fmt, rs[1..])
  }

  /** The export document for records in the order given. */
  function CsvText(fmt: Timestamp -> string, rs: seq<Record>): string {
    Join("\n", [Header] + RowLines(fmt, rs))
  }

  // ---------------------------------------------------------------------------
  // Reading
  // ---------------------------------------------------------------------------

  /** The five fields of an exported row, as a reader recovers them. */
  datatype Fields = Fields(
    timestamp: string, name: Option<string>, total: int, category: string, note: Option<string>)

  /** Undoes the doubling of quotes. */
  function Undouble(s: string): string {
    if |s| >= 2 && s[0] == Quote && s[1] == Quote then "\"" + Undouble(s[2..])
    else if s == [] then []
    else [s[0]] + Undouble(s[1..])
  }

  /** Reads the inside of a quoted field, up to its closing quote, undoing
      doubled quotes; gives the text and what follows the closing quote. */
  function ScanQuoted(s: string): Option<(string, string)> {
    if s == [] then None
    else if s[0] == Quote then
      if |s| >= 2 && s[1] == Quote then
        var (body, rest) :- ScanQuoted(s[2..]);
        Some(("\"" + body, rest))
      else Some(([], s[1..]))
    else
      var (body, rest) :- ScanQuoted(s[1..]);
      Some(([s[0]] + body, rest))
  }

  /** A quoted field, or an empty unquoted one (a missing value). */
  function ParseField(s: string): Option<(Option<string>, string)> {
    if s != [] && s[0] == Quote then
      var (body, rest) :- ScanQuoted(s[1..]);
      Some((Some(body), rest))
    else if s == [] || s[0] == ',' then Some((None, s))
    else None
  }

  /** What follows a field separator. */
  function Comma(s: string): Option<string> {
    if s != [] && s[0] == ',' then Some(s[1..]) else None
  }

  /** The text up to the next comma, and the rest from that comma on. */
  function UntilComma(s: string): (r: (string, string))
    ensures r.0 + r.1 == s
    ensures ',' !in r.0
    ensures r.1 == [] || r.1[0] == ','
  {
    if s == [] || s[0] == ',' then ([], s)
    else
      var (a, b) := UntilComma(s[1..]);
      ([s[0]] + a, b)
  }

  function ParseRow(line: string): Option<Fields> {
    var f1 :- ParseField(line);
    var timestamp :- f1.0;
    var s1 :- Comma(f1.1);
    var f2 :- ParseField(s1);
    var s2 :- Comma(f2.1);
    var (digits, s3) := UntilComma(s2);
    var total :- ParseDecimal(digits);
    var s4 :- Comma(s3);
    var f4 :- ParseField(s4);
    var category :- f4.0;
    var s5 :- Comma(f4.1);
    var f5 :- ParseField(s5);
    if f5.1 != [] then None else Some(Fields(timestamp, f2.0, total, category, f5.0))
  }

  /** Python's `s.split(c)`. */
  function Split(s: string, c: char): (r: seq<string>)
    ensures |r| >= 1
  {
    if s == [] then [[]]
    else
      var rest := Split(s[1..], c);
      if s[0] == c then [[]] + rest else [[s[0]] + rest[0]] + rest[1..]
  }

  function ParseRows(lines: seq<string>): Option<seq<Fields>> {
    if lines == [] then Some([])
    else
      var first :- ParseRow(lines[0]);
      var rest :- ParseRows(lines[1..]);
      Some([first] + rest)
  }

  /** Reads an export: the header line, then one row per line. */
  function ParseCsv(text: string): Option<seq<Fields>> {
    var lines := Split(text, '\n');
    if lines[0] != Header then None else ParseRows(lines[1..])
  }

  /** What a reader should find for a record. */
  function Expected(fmt: Timestamp -> string, r: Record): Fields {
    Fields(Flatten(fmt(r.timestamp)), FlattenOpt(r.name), r.totalScore,
           Flatten(r.category), FlattenOpt(r.note))
  }

  function ExpectedRows(fmt: Timestamp -> string, rs: seq<Record>): seq<Fields> {
    if rs == [] then [] else [Expected(fmt, rs[0])] + ExpectedRows(fmt, rs[1..])
  }

  // ---------------------------------------------------------------------------
  // Lemmas: escaping
  // ---------------------------------------------------------------------------

  lemma {:induction false} ReplaceAppend(a: string, b: string, c: char, rep: string)
    ensures Replace(a + b, c, rep) == Replace(a, c, rep) + Replace(b, c, rep)
  {
    if a != [] {
      assert (a + b)[1..] == a[1..] + b;
      ReplaceAppend(a[1..], b, c, rep);
    } else {
      assert a + b == b;
    }
  }

  lemma {:induction false} ReplaceAbsent(s: string, c: char, rep: string)
    requires c !in s
    ensures Replace(s, c, rep) == s
  {
    if s != [] {
      ReplaceAbsent(s[1..], c, rep);
    }
  }

  /** Doubling quotes and flattening newlines commute, so the field body is
      also the flattened text with its quotes doubled. */
  lemma {:induction false} FlattenEscape(s: string)
    ensures Flatten(Escape(s)) == Escape(Flatten(s))
  {
    if s != [] {
      var head := if s[0] == Quote then "\"\"" else [s[0]];
      assert Escape(s) == head + Escape(s[1..]);
      ReplaceAppend(head, Escape(s[1..]), '\n', " ");
      var fhead := if s[0] == '\n' then " " else [s[0]];
      assert Flatten(s) == fhead + Flatten(s[1..]);
      ReplaceAppend(fhead, Flatten(s[1..]), Quote, "\"\"");
      FlattenEscape(s[1..]);
    }
  }

  /** Undoing the doubling gives back the original text. */
  lemma {:induction false} UndoubleEscape(s: string)
    ensures Undouble(Escape(s)) == s
  {
    if s != [] {
      var e := Escape(s);
      if s[0] == Quote {
        assert e == "\"\"" + Escape(s[1..]);
        assert e[2..] == Escape(s[1..]);
      } else {
        assert e == [s[0]] + Escape(s[1..]);
        assert e[1..] == Escape(s[1..]);
      }
      UndoubleEscape(s[1..]);
    }
  }

  /** A cleaned field never spans lines, and for text without newlines the
      inside of the quotes, un-doubled, is the original text. */
  lemma CleanFieldInverse(s: string)
    requires '\n' !in s
    ensures var r := CleanField(Some(s)); '\n' !in r && Undouble(r[1..|r| - 1]) == s
  {
    var r := CleanField(Some(s));
    assert r[1..|r| - 1] == Flatten(Escape(s));
    FlattenEscape(s);
    ReplaceAbsent(s, '\n', " ");
    UndoubleEscape(s);
  }

  // ---------------------------------------------------------------------------
  // Lemmas: reading back a row
  // ---------------------------------------------------------------------------

  lemma {:induction false} ScanEscaped(s: string, rest: string)
    requires rest == [] || rest[0] != Quote
    ensures ScanQuoted(Escape(s) + "\"" + rest) == Some((s, rest))
  {
    var t := Escape(s) + "\"" + rest;
    if s == [] {
      assert t == "\"" + rest;
    } else if s[0] == Quote {
      assert t == "\"\"" + (Escape(s[1..]) + "\"" + rest);
      assert t[2..] == Escape(s[1..]) + "\"" + rest;
      ScanEscaped(s[1..], rest);
      assert "\"" + s[1..] == s;
    } else {
      assert t == [s[0]] + (Escape(s[1..]) + "\"" + rest);
      assert t[1..] == Escape(s[1..]) + "\"" + rest;
      ScanEscaped(s[1..], rest);
      assert [s[0]] + s[1..] == s;
    }
  }

  /** A cleaned field followed by a separator or the end of the line reads
      back as its flattened value, telling a missing value from an empty one. */
  lemma FieldRoundTrip(f: Option<string>, rest: string)
    requires rest == [] || rest[0] == ','
    ensures ParseField(CleanField(f) + rest) == Some((FlattenOpt(f), rest))
  {
    match f
    case None =>
      assert CleanField(f) + rest == rest;
    case Some(x) =>
      var s := CleanField(f) + rest;
      FlattenEscape(x);
      assert s[1..] == Escape(Flatten(x)) + "\"" + rest;
      ScanEscaped(Flatten(x), rest);
  }

  lemma NumberRoundTrip(n: int, rest: string)
    requires rest == [] || rest[0] == ','
    ensures UntilComma(Show(n) + rest) == (Show(n), rest)
  {
    UntilCommaPrefix(Show(n), rest);
  }

  lemma {:induction false} UntilCommaPrefix(a: string, rest: string)
    requires ',' !in a
    requires rest == [] || rest[0] == ','
    ensures UntilComma(a + rest) == (a, rest)
  {
    if a == [] {
      assert a + rest == rest;
    } else {
      assert (a + rest)[0] == a[0] && a[0] != ',';
      assert (a + rest)[1..] == a[1..] + rest;
      UntilCommaPrefix(a[1..], rest);
      assert [a[0]] + a[1..] == a;
    }
  }

  lemma JoinFive(a: string, b: string, c: string, d: string, e: string)
    ensures Join(",", [a, b, c, d, e]) == a + ("," + (b + ("," + (c + ("," + (d + ("," + e)))))))
  {
    assert [d, e][1..] == [e];
    assert Join(",", [d, e]) == d + ("," + e);
    assert [c, d, e][1..] == [d, e];
    assert Join(",", [c, d, e]) == c + ("," + Join(",", [d, e]));
    assert [b, c, d, e][1..] == [c, d, e];
    assert Join(",", [b, c, d, e]) == b + ("," + Join(",", [c, d, e]));
    assert [a, b, c, d, e][1..] == [b, c, d, e];
    assert Join(",", [a, b, c, d, e]) == a + ("," + Join(",", [b, c, d, e]));
  }

  lemma CommaSkip(s: string)
    ensures Comma("," + s) == Some(s)
  {
    assert ("," + s)[1..] == s;
  }

  /** Reading a written row gives back all five fields of the record. */
  lemma RowRoundTrip(fmt: Timestamp -> string, r: Record)
    ensures ParseRow(RowLine(fmt, r)) == Some(Expected(fmt, r))
  {
    var a, b, c := CleanField(Some(fmt(r.timestamp))), CleanField(r.name), Show(r.totalScore);
    var d, e := CleanField(Some(r.category)), CleanField(r.note);
    JoinFive(a, b, c, d, e);
    var s4 := d + ("," + e);
    var s2 := c + ("," + s4);
    var s1 := b + ("," + s2);
    FieldRoundTrip(Some(fmt(r.timestamp)), "," + s1);
    CommaSkip(s1);
    FieldRoundTrip(r.name, "," + s2);
    CommaSkip(s2);
    NumberRoundTrip(r.totalScore, "," + s4);
    ParseShow(r.totalScore);
    CommaSkip(s4);
    FieldRoundTrip(Some(r.category), "," + e);
    CommaSkip(e);
    FieldRoundTrip(r.note, "");
    assert e + "" == e;
  }

  // ---------------------------------------------------------------------------
  // Lemmas: lines of the document
  // ---------------------------------------------------------------------------

  lemma {:induction false} SplitWithout(a: string, c: char)
    requires c !in a
    ensures Split(a, c) == [a]
  {
    if a != [] {
      SplitWithout(a[1..], c);
      assert [a[0]] + a[1..] == a;
    }
  }

  lemma {:induction false} SplitAt(a: string, c: char, b: string)
    requires c !in a
    ensures Split(a + [c] + b, c) == [a] + Split(b, c)
  {
    var s := a + [c] + b;
    if a == [] {
      assert s == [c] + b && s[1..] == b;
    } else {
      assert s[1..] == a[1..] + [c] + b;
      SplitAt(a[1..], c, b);
      assert [a[0]] + a[1..] == a;
    }
  }

  /** Splitting lines joined by a separator that none of them contains gives
      the lines back. */
  lemma {:induction false} SplitJoin(parts: seq<string>, c: char)
    requires |parts| >= 1
    requires forall i | 0 <= i < |parts| :: c !in parts[i]
    ensures Split(Join([c], parts), c) == parts
  {
    if |parts| == 1 {
      SplitWithout(parts[0], c);
    } else {
      SplitJoin(parts[1..], c);
      SplitAt(parts[0], c, Join([c], parts[1..]));
      assert [parts[0]] + parts[1..] == parts;
    }
  }

  lemma RowLineSingleLine(fmt: Timestamp -> string, r: Record)
    ensures '\n' !in RowLine(fmt, r)
  {
    var a, b, c := CleanField(Some(fmt(r.timestamp))), CleanField(r.name), Show(r.totalScore);
    var d, e := CleanField(Some(r.category)), CleanField(r.note);
    JoinFive(a, b, c, d, e);
  }

  lemma HeaderSingleLine()
    ensures '\n' !in Header
  {
  }

  /** The export is the header line followed by exactly one line per record,
      in the order given, joined by newlines with nothing after the last. */
  lemma ExportLines(fmt: Timestamp -> string, rs: seq<Record>)
    ensures Split(CsvText(fmt, rs), '\n') == [Header] + RowLines(fmt, rs)
  {
    var rows := RowLines(fmt, rs);
    var lines := [Header] + rows;
    forall i | 0 <= i < |lines| ensures '\n' !in lines[i] {
      if i == 0 {
        HeaderSingleLine();
      } else {
        assert lines[i] == rows[i - 1];
      }
    }
    assert CsvText(fmt, rs) == Join(['\n'], lines);
    SplitJoin(lines, '\n');
  }

  lemma {:induction false} RowLinesSnoc(fmt: Timestamp -> string, rs: seq<Record>, r: Record)
    ensures RowLines(fmt, rs + [r]) == RowLines(fmt, rs) + [RowLine(fmt, r)]
  {
    if rs == [] {
      assert RowLines(fmt, [r]) == [RowLine(fmt, r)] + RowLines(fmt, []);
    } else {
      assert (rs + [r])[1..] == rs[1..] + [r];
      RowLinesSnoc(fmt, rs[1..], r);
    }
  }

  lemma RowLinesPrefix(fmt: Timestamp -> string, rs: seq<Record>, i: nat)
    requires i < |rs|
    ensures RowLines(fmt, rs[..i + 1]) == RowLines(fmt, rs[..i]) + [RowLine(fmt, rs[i])]
  {
    assert rs[..i + 1] == rs[..i] + [rs[i]];
    RowLinesSnoc(fmt, rs[..i], rs[i]);
  }

  lemma {:induction false} RowsRoundTrip(fmt: Timestamp -> string, rs: seq<Record>)
    ensures ParseRows(RowLines(fmt, rs)) == Some(ExpectedRows(fmt, rs))
  {
    if rs != [] {
      var lines := RowLines(fmt, rs);
      assert lines[0] == RowLine(fmt, rs[0]) && lines[1..] == RowLines(fmt, rs[1..]);
      RowRoundTrip(fmt, rs[0]);
      RowsRoundTrip(fmt, rs[1..]);
    }
  }

  /** Reading the export back reconstructs every record's fields, in order. */
  lemma ExportRoundTrip(fmt: Timestamp -> string, rs: seq<Record>)
    ensures ParseCsv(CsvText(fmt, rs)) == Some(ExpectedRows(fmt, rs))
  {
    ExportLines(fmt, rs);
    RowsRoundTrip(fmt, rs);
    assert ([Header] + RowLines(fmt, rs))[1..] == RowLines(fmt, rs);
  }
}
