/** `toTable()` and `toString()`: the text views of a rule. The table has
    one column per request field between "Condition" and "Response" and one
    row per condition; every cell is padded to its column's widest entry. */
module RuleTable {
  import opened Wrappers
  import opened Types
  import opened Assoc
  import opened Js
  import C = Condition
  import opened R = Rule

  const UndefinedJoin := "Cannot read properties of undefined (reading 'join')"
  const NullJoin := "Cannot read properties of null (reading 'join')"
  const NotJoinable := "cond.args.join is not a function"

  /** `cond.args.join(', ')`: only an array has `join`. */
  function JoinArgs(args: Value): (res: Result<string, Error>)
    ensures res.Success? <==> args.Arr?
    ensures args.Arr? ==> res.value == JoinItems(args.items, ", ", args)
    ensures args.Undefined? ==> res == Failure(Error(RuntimeTypeError, UndefinedJoin))
    ensures args.Null? ==> res == Failure(Error(RuntimeTypeError, NullJoin))
    ensures !args.Arr? && !args.Undefined? && !args.Null? ==> res == Failure(Error(RuntimeTypeError, NotJoinable))
  {
    match args
    case Undefined => Failure(Error(RuntimeTypeError, UndefinedJoin))
    case Null => Failure(Error(RuntimeTypeError, NullJoin))
    case Arr(items) => Success(JoinItems(items, ", ", args))
    case _ => Failure(Error(RuntimeTypeError, NotJoinable))
  }

  /** A request entry the table cannot print: its `args` is not an array. */
  predicate Unprintable(c: C.RuleCondition, fieldName: string) {
    var e := Get(c.request, fieldName);
    e.Some? && !e.value.args.Arr?
  }

  /** The cell of one request field: "-" when the condition says nothing
      about the field, otherwise the operator and its joined arguments. */
  function Cell(c: C.RuleCondition, fieldName: string): (res: Result<string, Error>)
    ensures res.Failure? <==> Unprintable(c, fieldName)
    ensures res.Failure? ==> res.error.kind == RuntimeTypeError
    ensures Get(c.request, fieldName).None? ==> res == Success("-")
  {
    match Get(c.request, fieldName)
    case None => Success("-")
    case Some(e) =>
      var args :- JoinArgs(e.args);
      Success(ToJsString(e.op) + " " + args)
  }

  /** The request cells of one condition, in field order; the first field
      that cannot be printed stops the row. */
  function Cells(c: C.RuleCondition, names: seq<string>): (res: Result<seq<string>, Error>)
    ensures res.Failure? <==> exists j | 0 <= j < |names| :: Unprintable(c, names[j])
    ensures res.Failure? ==> res.error.kind == RuntimeTypeError
    ensures res.Success? ==> |res.value| == |names|
    ensures res.Success? ==> forall j | 0 <= j < |names| :: Cell(c, names[j]) == Success(res.value[j])
  {
    if |names| == 0 then Success([])
    else
      var head :- Cell(c, names[0]);
      var tail :- Cells(c, names[1..]);
      assert forall j | 1 <= j < |names| :: names[j] == names[1..][j - 1];
      Success([head] + tail)
  }

  /** `Object.entries(response).map(([k, v]) => `${k}: ${v.value}`).join('\n') || '-'`. */
  function ResponseCell(c: C.RuleCondition): string {
    var s := Join(seq(|c.response|, i requires 0 <= i < |c.response| => c.response[i].0 + ": " + ToJsString(c.response[i].1.value)), "\n");
    if s == "" then "-" else s
  }

  /** The response cell is "-" exactly when the condition has no response. */
  lemma ResponseCellDash(c: C.RuleCondition)
    ensures ResponseCell(c) == "-" <==> c.response == []
  {
    var parts := seq(|c.response|, i requires 0 <= i < |c.response| => c.response[i].0 + ": " + ToJsString(c.response[i].1.value));
    if |parts| > 0 {
      JoinStartsWith(parts, "\n");
      assert |parts[0]| >= 2;
    }
  }

  /** The first cell of the row of the condition at `index`: `#${index + 1}`. */
  function Tag(index: nat): string {
    "#" + NatToString(index + 1)
  }

  /** One table row: its tag, the request cells, the response cell. */
  function Row(c: C.RuleCondition, index: nat, names: seq<string>): (res: Result<seq<string>, Error>)
    ensures res.Failure? <==> exists j | 0 <= j < |names| :: Unprintable(c, names[j])
    ensures res.Failure? ==> res.error.kind == RuntimeTypeError
    ensures res.Success? ==> |res.value| == |names| + 2
    ensures res.Success? ==> res.value[0] == Tag(index) && res.value[|names| + 1] == ResponseCell(c)
  {
    var cells :- Cells(c, names);
    Success([Tag(index)] + cells + [ResponseCell(c)])
  }

  /** The rows of `conditions`, numbered from `start + 1`. */
  function Rows(conditions: seq<C.RuleCondition>, start: nat, names: seq<string>): (res: Result<seq<seq<string>>, Error>)
    ensures res.Failure? <==> exists i, j | 0 <= i < |conditions| && 0 <= j < |names| :: Unprintable(conditions[i], names[j])
    ensures res.Failure? ==> res.error.kind == RuntimeTypeError
    ensures res.Success? ==> |res.value| == |conditions|
    ensures res.Success? ==> forall i | 0 <= i < |conditions| :: Row(conditions[i], start + i, names) == Success(res.value[i])
  {
    if |conditions| == 0 then Success([])
    else
      var head :- Row(conditions[0], start, names);
      var tail :- Rows(conditions[1..], start + 1, names);
      assert forall i | 1 <= i < |conditions| :: conditions[i] == conditions[1..][i - 1];
      Success([head] + tail)
  }

  /** The largest length among `cells`. */
  function MaxLength(cells: seq<string>): (m: nat)
    ensures forall i | 0 <= i < |cells| :: |cells[i]| <= m
    ensures |cells| > 0 ==> exists i | 0 <= i < |cells| :: |cells[i]| == m
  {
    if |cells| == 0 then 0
    else
      var rest := MaxLength(cells[1..]);
      assert forall i | 1 <= i < |cells| :: cells[i] == cells[1..][i - 1];
      if |cells[0]| >= rest then |cells[0]| else rest
  }

  /** Every row has one cell per header column. */
  predicate Rectangular(header: seq<string>, rows: seq<seq<string>>) {
    forall r | 0 <= r < |rows| :: |rows[r]| == |header|
  }

  /** The width of column `j`: `Math.max(header[j].length, ...rows.map(row => row[j].length))`. */
  function Width(header: seq<string>, rows: seq<seq<string>>, j: nat): (w: nat)
    requires Rectangular(header, rows) && j < |header|
    ensures |header[j]| <= w && forall r | 0 <= r < |rows| :: |rows[r][j]| <= w
    ensures w == |header[j]| || exists r | 0 <= r < |rows| :: |rows[r][j]| == w
  {
    var column := [header[j]] + seq(|rows|, r requires 0 <= r < |rows| => rows[r][j]);
    assert forall r | 0 <= r < |rows| :: column[r + 1] == rows[r][j];
    MaxLength(column)
  }

  function Widths(header: seq<string>, rows: seq<seq<string>>): (ws: seq<nat>)
    requires Rectangular(header, rows)
    ensures |ws| == |header|
    ensures forall j | 0 <= j < |header| :: ws[j] == Width(header, rows, j)
  {
    seq(|header|, j requires 0 <= j < |header| => Width(header, rows, j))
  }

  function Repeat(ch: char, n: nat): (s: string)
    ensures |s| == n && forall i | 0 <= i < n :: s[i] == ch
  {
    seq(n, _ => ch)
  }

  /** `s.padEnd(n)`: `s` followed by spaces up to length `n`. */
  function PadEnd(s: string, n: nat): (p: string)
    ensures |p| == if |s| >= n then |s| else n
    ensures p[..|s|] == s && forall i | |s| <= i < |p| :: p[i] == ' '
  {
    if |s| >= n then s else s + Repeat(' ', n - |s|)
  }

  /** `row.map((cell, i) => cell.padEnd(widths[i])).join(' | ')`. */
  function FormatRow(row: seq<string>, widths: seq<nat>): string
    requires |row| == |widths|
  {
    Join(seq(|row|, i requires 0 <= i < |row| && |row| == |widths| => PadEnd(row[i], widths[i])), " | ")
  }

  /** `widths.map(len => '-'.repeat(len)).join('-+-')`. */
  function Separator(widths: seq<nat>): string {
    Join(seq(|widths|, i requires 0 <= i < |widths| => Repeat('-', widths[i])), "-+-")
  }

  /** The header: "Condition", the request field names, "Response". */
  function Header(r: Rule): (h: seq<string>)
    ensures |h| == |r.fields| + 2 && h[0] == "Condition" && h[|h| - 1] == "Response"
    ensures forall j | 0 <= j < |r.fields| :: h[j + 1] == r.fields[j].0
  {
    ["Condition"] + Keys(r.fields) + ["Response"]
  }

  /** The lines of a table with this header and these rows: the
      formatted header, the separator, and the formatted rows. */
  function Layout(header: seq<string>, rows: seq<seq<string>>): (lines: seq<string>)
    requires Rectangular(header, rows)
    ensures |lines| == |rows| + 2
  {
    var widths := Widths(header, rows);
    [FormatRow(header, widths), Separator(widths)]
      + seq(|rows|, i requires 0 <= i < |rows| && Rectangular(header, rows) => FormatRow(rows[i], Widths(header, rows)))
  }

  /** The lines of the table, before they are joined: header, separator,
      and one line per condition. */
  function ToTableLines(r: Rule): (res: Result<seq<string>, Error>)
    ensures res.Failure? <==> exists i, j | 0 <= i < |r.conditions| && 0 <= j < |r.fields| :: Unprintable(r.conditions[i], r.fields[j].0)
    ensures res.Failure? ==> res.error.kind == RuntimeTypeError
  {
    var rows :- Rows(r.conditions, 0, Keys(r.fields));
    Success(Layout(Header(r), rows))
  }

  /** `toTable()`: the lines joined by newlines. The text opens with the
      header, and its length is the line width times the number of lines
      plus the newlines between them. */
  function ToTable(r: Rule): (res: Result<string, Error>)
    ensures res.Success? <==> ToTableLines(r).Success?
    ensures res.Success? ==> res.value == Join(ToTableLines(r).value, "\n")
    ensures res.Success? ==> StartsWith(res.value, "Condition")
    ensures res.Success? ==> |res.value| == (|r.conditions| + 2) * |ToTableLines(r).value[0]| + |r.conditions| + 1
    ensures res.Failure? ==> res.error.kind == RuntimeTypeError
  {
    match ToTableLines(r)
    case Failure(e) => Failure(e)
    case Success(lines) =>
      TableShape(r);
      JoinedTable(lines, |lines[0]|);
      Success(Join(lines, "\n"))
  }

  /** Equally long lines joined by newlines: their total plus one newline
      between each two, and the text begins with the first line. */
  lemma JoinedTable(lines: seq<string>, w: nat)
    requires |lines| > 0 && forall i | 0 <= i < |lines| :: |lines[i]| == w
    ensures |Join(lines, "\n")| == |lines| * w + |lines| - 1
    ensures StartsWith(Join(lines, "\n"), lines[0])
    ensures forall p | StartsWith(lines[0], p) :: StartsWith(Join(lines, "\n"), p)
  {
    JoinLength(lines, seq(|lines|, _ => w), "\n");
    SumConstant(|lines|, w);
    JoinStartsWith(lines, "\n");
    var text := Join(lines, "\n");
    forall p | StartsWith(lines[0], p) ensures StartsWith(text, p) {
      assert text[..|p|] == text[..|lines[0]|][..|p|];
    }
  }

  lemma {:induction false} SumConstant(n: nat, w: nat)
    ensures Sum(seq(n, _ => w)) == n * w
  {
    if n > 0 {
      assert seq(n, _ => w)[..n - 1] == seq(n - 1, _ => w);
      SumConstant(n - 1, w);
    }
  }

  function Sum(ws: seq<nat>): nat {
    if |ws| == 0 then 0 else Sum(ws[..|ws| - 1]) + ws[|ws| - 1]
  }

  /** A join of pieces of known lengths is as long as the pieces plus the separators. */
  lemma {:induction false} JoinLength(parts: seq<string>, ws: seq<nat>, sep: string)
    requires |parts| == |ws| > 0 && forall i | 0 <= i < |parts| :: |parts[i]| == ws[i]
    ensures |Join(parts, sep)| == Sum(ws) + |sep| * (|parts| - 1)
    decreases |parts|
  {
    if |parts| > 1 {
      JoinLength(parts[..|parts| - 1], ws[..|ws| - 1], sep);
    } else {
      assert ws[..0] == [];
    }
  }

  /** A join begins with its first piece. */
  lemma {:induction false} JoinStartsWith(parts: seq<string>, sep: string)
    requires |parts| > 0
    ensures |parts[0]| <= |Join(parts, sep)| && Join(parts, sep)[..|parts[0]|] == parts[0]
    decreases |parts|
  {
    if |parts| > 1 {
      JoinStartsWith(parts[..|parts| - 1], sep);
      var prefix := Join(parts[..|parts| - 1], sep);
      assert Join(parts, sep)[..|parts[0]|] == prefix[..|parts[0]|];
    }
  }

  /** Every formatted row of a rectangular table is equally long: the
      widths, plus three characters for each column boundary. */
  lemma FormatRowLength(row: seq<string>, widths: seq<nat>)
    requires |row| == |widths| > 0
    requires forall i | 0 <= i < |row| :: |row[i]| <= widths[i]
    ensures |FormatRow(row, widths)| == Sum(widths) + 3 * (|widths| - 1)
    ensures |row[0]| <= |FormatRow(row, widths)| && FormatRow(row, widths)[..|row[0]|] == row[0]
  {
    var padded := seq(|row|, i requires 0 <= i < |row| && |row| == |widths| => PadEnd(row[i], widths[i]));
    JoinLength(padded, widths, " | ");
    JoinStartsWith(padded, " | ");
    assert padded[0][..|row[0]|] == row[0];
  }

  lemma SeparatorLength(widths: seq<nat>)
    requires |widths| > 0
    ensures |Separator(widths)| == Sum(widths) + 3 * (|widths| - 1)
  {
    JoinLength(seq(|widths|, i requires 0 <= i < |widths| => Repeat('-', widths[i])), widths, "-+-");
  }

  predicate StartsWith(s: string, prefix: string) {
    |prefix| <= |s| && s[..|prefix|] == prefix
  }

  /** Every line of a layout is equally long, and each begins with the
      first cell of its row. */
  lemma LayoutShape(header: seq<string>, rows: seq<seq<string>>)
    requires Rectangular(header, rows) && |header| > 0
    ensures var lines := Layout(header, rows);
      && (forall i | 0 <= i < |lines| :: |lines[i]| == |lines[0]|)
      && StartsWith(lines[0], header[0])
      && forall i | 2 <= i < |lines| :: StartsWith(lines[i], rows[i - 2][0])
  {
    var widths := Widths(header, rows);
    var lines := Layout(header, rows);
    var n := Sum(widths) + 3 * (|widths| - 1);
    FormatRowLength(header, widths);
    SeparatorLength(widths);
    forall i | 2 <= i < |lines|
      ensures |lines[i]| == n && StartsWith(lines[i], rows[i - 2][0])
    {
      assert lines[i] == FormatRow(rows[i - 2], widths);
      FormatRowLength(rows[i - 2], widths);
    }
  }

  /** A rule prints exactly when its rows do, and then its lines are the
      layout of its header and rows. */
  lemma TableLinesAreLayout(r: Rule)
    ensures ToTableLines(r).Success? <==> Rows(r.conditions, 0, Keys(r.fields)).Success?
    ensures Rows(r.conditions, 0, Keys(r.fields)).Success? ==>
      ToTableLines(r) == Success(Layout(Header(r), Rows(r.conditions, 0, Keys(r.fields)).value))
  {
  }

  /** Printable rows are as wide as the header and open with their tags. */
  lemma RowsShape(r: Rule, rows: seq<seq<string>>)
    requires Rows(r.conditions, 0, Keys(r.fields)) == Success(rows)
    ensures Rectangular(Header(r), rows)
    ensures forall i | 0 <= i < |rows| :: rows[i][0] == Tag(i)
  {
    forall i | 0 <= i < |rows|
      ensures |rows[i]| == |Header(r)| && rows[i][0] == Tag(i)
    {
      assert Row(r.conditions[i], i, Keys(r.fields)) == Success(rows[i]);
    }
  }

  /** The shape of a printed table: two lines more than there are
      conditions, all of the same length, the header line opening with
      "Condition" and the line of each condition opening with its tag. */
  lemma TableShape(r: Rule)
    ensures ToTableLines(r).Success? ==>
      var lines := ToTableLines(r).value;
      && |lines| == |r.conditions| + 2
      && (forall i | 0 <= i < |lines| :: |lines[i]| == |lines[0]|)
      && StartsWith(lines[0], "Condition")
      && forall i | 2 <= i < |lines| :: StartsWith(lines[i], Tag(i - 2))
  {
    TableLinesAreLayout(r);
    if ToTableLines(r).Success? {
      var rows := Rows(r.conditions, 0, Keys(r.fields)).value;
      RowsShape(r, rows);
      LayoutShape(Header(r), rows);
    }
  }

  /** A condition added with `when` that names one of the rule's request
      fields stores `args: undefined` for it, so the table cannot be printed. */
  lemma WhenBreaksTable(r: Rule, conditions: Assoc<OperatorResult>, k: string)
    requires k in Keys(conditions) && k in Keys(r.fields)
    ensures ToTable(When(r, conditions).0).Failure?
  {
    var (r', h) := When(r, conditions);
    var c := r'.conditions[h];
    assert k in Keys(c.request);
    var i := IndexOf(c.request, k);
    assert Get(c.request, k) == Some(c.request[i].1);
    assert Unprintable(c, k);
    var j :| 0 <= j < |r.fields| && r.fields[j].0 == k;
    assert r'.fields == r.fields;
    assert Unprintable(r'.conditions[h], r'.fields[j].0);
  }

  /** A rule without conditions prints as its header and separator. */
  lemma EmptyTable(r: Rule)
    requires r.conditions == []
    ensures ToTableLines(r).Success? && |ToTableLines(r).value| == 2
    ensures ToTable(r).Success? && ToTable(r).value == ToTableLines(r).value[0] + "\n" + ToTableLines(r).value[1]
  {
    assert Rows(r.conditions, 0, Keys(r.fields)) == Success([]);
    var lines := ToTableLines(r).value;
    assert |lines| == 2;
    assert Join(lines, "\n") == Join(lines[..1], "\n") + "\n" + lines[1];
    assert Join(lines[..1], "\n") == lines[0];
  }

  /** `toString()`. */
  function ToString(r: Rule): (s: string)
    ensures |s| == 33 + |r.name| + |r.id| + |NatToString(|r.conditions|)|
    ensures s[..11] == "Rule(name=\"" && s[11..11 + |r.name|] == r.name && s[|s| - 1] == ')'
  {
    "Rule(name=\"" + r.name + "\", id=\"" + r.id + "\", conditions=" + NatToString(|r.conditions|) + ")"
  }

  /** Two rules with the same name and id print alike exactly when they
      have the same number of conditions. */
  lemma ToStringCountsConditions(r1: Rule, r2: Rule)
    requires r1.name == r2.name && r1.id == r2.id
    ensures ToString(r1) == ToString(r2) <==> |r1.conditions| == |r2.conditions|
  {
    var p := "Rule(name=\"" + r1.name + "\", id=\"" + r1.id + "\", conditions=";
    var a, b := NatToString(|r1.conditions|), NatToString(|r2.conditions|);
    assert ToString(r1) == p + a + ")" && ToString(r2) == p + b + ")";
    if ToString(r1) == ToString(r2) {
      assert |a| == |b|;
      assert a == (p + a + ")")[|p|..|p| + |a|];
      assert b == (p + b + ")")[|p|..|p| + |b|];
      NatToStringInjective(|r1.conditions|, |r2.conditions|);
    }
  }
}
