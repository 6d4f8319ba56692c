/**
 * The prompt builder (services/geminiService.ts): the text summary of the
 * uploaded rows that is sent to the language model ahead of the user's
 * question. Sample rows are written CSV-style, every field quoted and every
 * embedded quote doubled, as section 2 (rule 7) of RFC 4180 describes.
 */
module GeminiService {
  import opened Types
  import opened Seqs

  // ---------------------------------------------------------------------
  // Decimal numerals
  // ---------------------------------------------------------------------

  /** The numeral of one decimal digit. */
  function Digit(d: nat): (c: char)
    requires d < 10
    ensures '0' <= c <= '9'
  {
    ('0' as int + d) as char
  }

  predicate IsNumeral(s: string)
  {
    |s| > 0 && forall k :: 0 <= k < |s| ==> '0' <= s[k] <= '9'
  }

  /** `${n}` for a row or column count: its decimal numeral, without leading zeros. */
  function NatToString(n: nat): (s: string)
    ensures IsNumeral(s)
    ensures s[0] == '0' ==> n == 0
  {
    if n < 10 then [Digit(n)] else NatToString(n / 10) + [Digit(n % 10)]
  }

  /** The number a decimal numeral denotes. */
  function DigitsValue(s: string): nat
    requires forall k :: 0 <= k < |s| ==> '0' <= s[k] <= '9'
  {
    if |s| == 0 then 0
    else DigitsValue(s[..|s| - 1]) * 10 + (s[|s| - 1] as int - '0' as int)
  }

  /** Reading the numeral back gives the number: the count in the summary is exact. */
  lemma {:induction false} NatToStringValue(n: nat)
    ensures DigitsValue(NatToString(n)) == n
  {
    if n >= 10 {
      NatToStringValue(n / 10);
      var s := NatToString(n);
      assert s[..|s| - 1] == NatToString(n / 10);
    }
  }

  // ---------------------------------------------------------------------
  // Quoted fields
  // ---------------------------------------------------------------------

  /** `String(val)` for a cell; a finite number is written by `showNumber`. */
  function JsString(v: DataValue, showNumber: real -> string): (r: string)
    ensures v.Str? ==> r == v.text
    ensures v.Num? && v.number.Finite? ==> r == showNumber(v.number.value)
    ensures v == Num(NaN) ==> r == "NaN"
    ensures v == Num(PositiveInfinity) ==> r == "Infinity"
    ensures v == Num(NegativeInfinity) ==> r == "-Infinity"
    ensures v == Null ==> r == "null"
    ensures v == Undefined ==> r == "undefined"
  {
    match v
    case Null => "null"
    case Undefined => "undefined"
    case Str(s) => s
    case Num(Finite(x)) => showNumber(x)
    case Num(NaN) => "NaN"
    case Num(PositiveInfinity) => "Infinity"
    case Num(NegativeInfinity) => "-Infinity"
  }

  /** `s.replace(/"/g, '""')`: every double quote doubled. */
  function Escape(s: string): (r: string)
    ensures |r| >= |s|
  {
    if |s| == 0 then ""
    else (if s[0] == '"' then "\"\"" else [s[0]]) + Escape(s[1..])
  }

  /** Undoes `Escape`: each `""` becomes `"`; a lone quote is malformed. */
  function Unescape(t: string): Option<string>
  {
    if |t| == 0 then Some("")
    else if t[0] == '"' then
      if |t| >= 2 && t[1] == '"' then
        match Unescape(t[2..])
        case Some(rest) => Some("\"" + rest)
        case None => None
      else None
    else
      match Unescape(t[1..])
      case Some(rest) => Some([t[0]] + rest)
      case None => None
  }

  lemma {:induction false} UnescapeEscape(s: string)
    ensures Unescape(Escape(s)) == Some(s)
  {
    if |s| > 0 {
      var t := Escape(s);
      UnescapeEscape(s[1..]);
      if s[0] == '"' {
        assert t[2..] == Escape(s[1..]);
      } else {
        assert t[1..] == Escape(s[1..]);
      }
      assert [s[0]] + s[1..] == s;
    }
  }

  /** `"` + escaped text + `"`. */
  function Quote(s: string): string
  {
    "\"" + Escape(s) + "\""
  }

  /** Drops the outer quotes and halves the inner ones. */
  function Unquote(q: string): Option<string>
  {
    if |q| >= 2 && q[0] == '"' && q[|q| - 1] == '"' then Unescape(q[1..|q| - 1]) else None
  }

  lemma UnquoteQuote(s: string)
    ensures Unquote(Quote(s)) == Some(s)
  {
    var q := Quote(s);
    assert q[1..|q| - 1] == Escape(s);
    UnescapeEscape(s);
  }

  /**
   * One sample field: empty for `null` and `undefined`, otherwise the quoted
   * `String(val)`, from which unquoting gives the text back.
   */
  function CsvField(v: DataValue, showNumber: real -> string): (r: string)
    ensures r == "" <==> (v == Null || v == Undefined)
    ensures r != "" ==> Unquote(r) == Some(JsString(v, showNumber))
  {
    if v == Null || v == Undefined then ""
    else
      UnquoteQuote(JsString(v, showNumber));
      Quote(JsString(v, showNumber))
  }

  /** The fields of one row, in property order. */
  function Fields(row: Record, showNumber: real -> string): (r: seq<string>)
  {
    seq(|row|, k requires 0 <= k < |row| => CsvField(Values(row)[k], showNumber))
  }

  /** `Object.values(row).map(...).join(',')`. */
  function RowLine(row: Record, showNumber: real -> string): string
  {
    Join(Fields(row, showNumber), ",")
  }

  // ---------------------------------------------------------------------
  // The summary
  // ---------------------------------------------------------------------

  function MinNat(a: nat, b: nat): nat
  {
    if a <= b then a else b
  }

  /** `data.slice(0, 5).map(...)`: one line per row among the first five. */
  function SampleLines(data: seq<Record>, showNumber: real -> string): (lines: seq<string>)
    ensures |lines| == MinNat(5, |data|)
    ensures forall k :: 0 <= k < |lines| ==> lines[k] == RowLine(data[k], showNumber)
  {
    seq(MinNat(5, |data|), k requires 0 <= k < MinNat(5, |data|) => RowLine(data[k], showNumber))
  }

  const EmptySummary: string := "The CSV file is empty."
  const SampleIntro: string := "Here are the first 5 rows of the data:"
  const QuestionMarker: string := "User's Question: \""
  const SizeIntro: string := "The user has uploaded a CSV file with "
  const RowsWord: string := " rows and "
  const ColumnsWord: string := " columns."
  const HeadersIntro: string := "The column headers are: "

  /** The first line of the summary: the numbers of rows and of columns. */
  function SizeLine(rows: nat, columns: nat): string
  {
    SizeIntro + NatToString(rows) + RowsWord + NatToString(columns) + ColumnsWord
  }

  /** The second line: the headers of the first row, joined by `", "`. */
  function HeadersLine(row: Record): string
  {
    HeadersIntro + Join(Keys(row), ", ")
  }

  /** `prepareDataForPrompt`. */
  function PrepareDataForPrompt(data: seq<Record>, showNumber: real -> string): (r: string)
    ensures r == EmptySummary <==> |data| == 0
    ensures |data| > 0 ==> |r| >= 2 && r[|r| - 2..] == "\n\n"
  {
    if |data| == 0 then EmptySummary
    else
      var summary := SizeLine(|data|, |Keys(data[0])|) + "\n";
      var summary := summary + HeadersLine(data[0]) + "\n\n";
      var summary := summary + SampleIntro + "\n" + Join(SampleLines(data, showNumber), "\n") + "\n\n";
      assert summary[|summary| - 2..] == "\n\n";
      assert |summary| > |EmptySummary|;
      summary
  }

  /**
   * `fullPrompt`: the summary, then the marker `User's Question: "`, the
   * question and a closing quote.
   */
  function FullPrompt(question: string, data: seq<Record>, showNumber: real -> string): (r: string)
    ensures var summary := PrepareDataForPrompt(data, showNumber);
            && |r| == |summary| + |QuestionMarker| + |question| + 1
            && r[..|summary|] == summary
            && r[|summary|..|summary| + |QuestionMarker|] == QuestionMarker
            && r[|summary| + |QuestionMarker|..|r| - 1] == question
            && r[|r| - 1] == '"'
  {
    var summary := PrepareDataForPrompt(data, showNumber);
    ConcatParts(summary, QuestionMarker, question, "\"");
    summary + QuestionMarker + question + "\""
  }

  /** The pieces of a four-part concatenation, read back by position. */
  lemma ConcatParts(a: string, b: string, c: string, d: string)
    ensures var r := a + b + c + d;
            && |r| == |a| + |b| + |c| + |d|
            && r[..|a|] == a
            && r[|a|..|a| + |b|] == b
            && r[|a| + |b|..|a| + |b| + |c|] == c
            && r[|a| + |b| + |c|..] == d
  {
  }

  // ---------------------------------------------------------------------
  // The lines of the summary
  // ---------------------------------------------------------------------

  /** Joining two non-empty lists is joining each, with one separator between. */
  lemma {:induction false} JoinAppend(a: seq<string>, b: seq<string>, sep: string)
    requires |a| > 0 && |b| > 0
    ensures Join(a + b, sep) == Join(a, sep) + sep + Join(b, sep)
  {
    if |b| == 1 {
      assert (a + b)[..|a + b| - 1] == a;
    } else {
      var b' := b[..|b| - 1];
      JoinAppend(a, b', sep);
      assert (a + b)[..|a + b| - 1] == a + b';
    }
  }

  /** The string holds no line break. */
  predicate OneLine(s: string)
  {
    '\n' !in s
  }

  /** No string of the list holds a line break. */
  predicate AllOneLine(xs: seq<string>)
  {
    forall k :: 0 <= k < |xs| ==> OneLine(xs[k])
  }

  lemma AllOneLineAppend(a: seq<string>, b: seq<string>)
    requires AllOneLine(a) && AllOneLine(b)
    ensures AllOneLine(a + b)
  {
    forall k | 0 <= k < |a + b| ensures OneLine((a + b)[k]) {
      if k >= |a| { assert (a + b)[k] == b[k - |a|]; }
    }
  }

  /** Joining lines with a separator that holds no line break gives one line. */
  lemma {:induction false} JoinOneLine(xs: seq<string>, sep: string)
    requires OneLine(sep) && AllOneLine(xs)
    ensures OneLine(Join(xs, sep))
  {
    if |xs| > 1 {
      JoinOneLine(xs[..|xs| - 1], sep);
    }
  }

  lemma SizeLineOneLine(rows: nat, columns: nat)
    ensures OneLine(SizeLine(rows, columns))
  {
    assert OneLine(SizeIntro) && OneLine(RowsWord) && OneLine(ColumnsWord);
  }

  lemma HeadersLineOneLine(row: Record)
    requires AllOneLine(Keys(row))
    ensures OneLine(HeadersLine(row))
  {
    assert OneLine(HeadersIntro) && OneLine(", ");
    JoinOneLine(Keys(row), ", ");
  }

  /**
   * Without line breaks inside the headers and the sample rows, the summary
   * has exactly these lines: the size line, the headers line, a blank line,
   * the sample heading, one line for each of the first min(5, n) rows in
   * order, and two empty lines from the closing blank line.
   */
  lemma SummaryLines(data: seq<Record>, showNumber: real -> string)
    requires |data| > 0
    requires AllOneLine(Keys(data[0]))
    requires forall k :: 0 <= k < MinNat(5, |data|) ==> OneLine(RowLine(data[k], showNumber))
    ensures Split(PrepareDataForPrompt(data, showNumber), '\n') == SummaryLineList(data, showNumber)
  {
    var lines := SummaryLineList(data, showNumber);
    SummaryIsJoin(data, showNumber);
    LinesOneLine(data, showNumber);
    SplitJoin(lines, '\n');
  }

  /** No line of the summary holds a line break of its own. */
  lemma LinesOneLine(data: seq<Record>, showNumber: real -> string)
    requires |data| > 0
    requires AllOneLine(Keys(data[0]))
    requires forall k :: 0 <= k < MinNat(5, |data|) ==> OneLine(RowLine(data[k], showNumber))
    ensures AllOneLine(SummaryLineList(data, showNumber))
  {
    var size := SizeLine(|data|, |Keys(data[0])|);
    var headers := HeadersLine(data[0]);
    SizeLineOneLine(|data|, |Keys(data[0])|);
    HeadersLineOneLine(data[0]);
    assert OneLine(SampleIntro) && OneLine("");
    var front := [size, headers, "", SampleIntro];
    assert AllOneLine(front);
    var sample := SampleLines(data, showNumber);
    assert AllOneLine(sample);
    assert AllOneLine(["", ""]);
    AllOneLineAppend(front, sample);
    AllOneLineAppend(front + sample, ["", ""]);
  }

  /** The lines of the summary of non-empty rows, as `SummaryLines` reads them. */
  function SummaryLineList(data: seq<Record>, showNumber: real -> string): seq<string>
    requires |data| > 0
  {
    [SizeLine(|data|, |Keys(data[0])|), HeadersLine(data[0]), "", SampleIntro]
      + SampleLines(data, showNumber) + ["", ""]
  }

  /** The summary of non-empty rows is its lines joined by line breaks. */
  lemma SummaryIsJoin(data: seq<Record>, showNumber: real -> string)
    requires |data| > 0
    ensures Join(SummaryLineList(data, showNumber), "\n") == PrepareDataForPrompt(data, showNumber)
  {
    var size := SizeLine(|data|, |Keys(data[0])|);
    var headers := HeadersLine(data[0]);
    var sample := SampleLines(data, showNumber);
    var body := Join(sample, "\n");
    JoinClosing([size, headers, "", SampleIntro], sample);
    FrontJoin(size, headers, SampleIntro);
    assert PrepareDataForPrompt(data, showNumber)
        == size + "\n" + headers + "\n\n" + SampleIntro + "\n" + body + "\n\n";
    Regroup(size, headers, SampleIntro, body);
  }

  /** Joining the opening lines, the sample lines and two blank lines. */
  lemma JoinClosing(front: seq<string>, sample: seq<string>)
    requires |front| > 0 && |sample| > 0
    ensures Join(front + sample + ["", ""], "\n")
         == Join(front, "\n") + "\n" + Join(sample, "\n") + "\n" + "" + "\n" + ""
  {
    var l0 := front + sample;
    var l1 := l0 + [""];
    assert front + sample + ["", ""] == l1 + [""];
    JoinSnoc(l1, "", "\n");
    JoinSnoc(l0, "", "\n");
    JoinAppend(front, sample, "\n");
  }

  /** Joining one more piece adds the separator and the piece. */
  lemma JoinSnoc(xs: seq<string>, x: string, sep: string)
    requires |xs| > 0
    ensures Join(xs + [x], sep) == Join(xs, sep) + sep + x
  {
    assert (xs + [x])[..|xs|] == xs;
  }

  /** The four opening lines joined by line breaks. */
  lemma FrontJoin(size: string, headers: string, intro: string)
    ensures Join([size, headers, "", intro], "\n") == size + "\n" + headers + "\n" + "" + "\n" + intro
  {
    var front := [size, headers, "", intro];
    var f3 := front[..3];
    var f2 := f3[..2];
    assert f3 == [size, headers, ""] && f2 == [size, headers] && f2[..1] == [size];
    assert Join(f2, "\n") == size + "\n" + headers;
    assert Join(f3, "\n") == size + "\n" + headers + "\n" + "";
  }

  lemma Regroup(size: string, headers: string, intro: string, body: string)
    ensures (size + "\n" + headers + "\n" + "" + "\n" + intro) + "\n" + body + "\n" + "" + "\n" + ""
         == size + "\n" + headers + "\n\n" + intro + "\n" + body + "\n\n"
  {
  }
}
