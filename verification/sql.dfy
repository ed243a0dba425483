/** The PostgreSQL DDL that RedcapForm.ToSQL writes (redcap/form.go), as
    functions of the form's name, its unique key, whether the project is
    longitudinal, and the form's fields in insertion order. */
module Sql {
  import opened Outcomes
  import opened GoStrings
  import opened Fields

  const POSTGRES := "postgres"
  const EVENT_COLUMN := "redcap_event_name"
  const STATUS_COLUMN := "form_status"
  const FOOTER := "\n);"

  // ---------------------------------------------------------------------------
  // Columns

  /** A checkbox with at least one choice becomes one column per choice. */
  predicate FansOut(f: RedcapField) {
    |f.choices| > 0 && f.fieldType == "checkbox"
  }

  /** The column of one checkbox choice: `<name>___<id>`. */
  function CheckboxColumn(name: string, choice: RedcapFieldChoice): string {
    name + "___" + FormatInt(choice.id)
  }

  /** The columns of a checkbox, one per choice, in choice order. */
  function CheckboxColumns(name: string, choices: seq<RedcapFieldChoice>): seq<string> {
    seq(|choices|, i requires 0 <= i < |choices| => CheckboxColumn(name, choices[i]))
  }

  /** The columns one field contributes: its checkbox columns, nothing for the
      unique key (already the first column), or else its own name. */
  function FieldColumns(f: RedcapField, uniqueKey: string): seq<string> {
    if FansOut(f) then CheckboxColumns(f.fieldName, f.choices)
    else if f.fieldName == uniqueKey then []
    else [f.fieldName]
  }

  /** The columns of the fields, field after field. */
  function BodyColumns(fields: seq<RedcapField>, uniqueKey: string): seq<string>
    decreases |fields|
  {
    if fields == [] then []
    else BodyColumns(fields[..|fields| - 1], uniqueKey) + FieldColumns(fields[|fields| - 1], uniqueKey)
  }

  /** Every column of the table: the unique key, the event column of a
      longitudinal project, the fields' columns and the completion status. */
  function Columns(uniqueKey: string, longitudinal: bool, fields: seq<RedcapField>): seq<string> {
    [uniqueKey] + (if longitudinal then [EVENT_COLUMN] else []) + BodyColumns(fields, uniqueKey) + [STATUS_COLUMN]
  }

  // ---------------------------------------------------------------------------
  // Text

  /** One column definition; every column is typed `text`. */
  function ColumnLine(column: string): string {
    "\t" + column + " text"
  }

  function ColumnLines(columns: seq<string>): seq<string> {
    seq(|columns|, i requires 0 <= i < |columns| => ColumnLine(columns[i]))
  }

  function Header(name: string): string {
    "\nCREATE TABLE " + name + "\n(\n"
  }

  /** A CREATE TABLE statement: the column definitions separated by ",\n". */
  function CreateTable(name: string, columns: seq<string>): string {
    Header(name) + Join(ColumnLines(columns), ",\n") + FOOTER
  }

  /** RedcapForm.ToSQL's meaning: the table of the form for "postgres", and
      the empty text for every other dialect. */
  function Statement(db: string, name: string, uniqueKey: string, longitudinal: bool,
                     fields: seq<RedcapField>): string
  {
    if db == POSTGRES then CreateTable(name, Columns(uniqueKey, longitudinal, fields)) else ""
  }

  /** What the generating loop has written after `columns`: each column
      definition followed by ",\n". */
  function Terminated(columns: seq<string>): string
    decreases |columns|
  {
    if columns == [] then ""
    else Terminated(columns[..|columns| - 1]) + ColumnLine(columns[|columns| - 1]) + ",\n"
  }

  // ---------------------------------------------------------------------------
  // From the loop's text to the statement

  /** The loop's text is the joined column definitions plus one trailing ",\n". */
  lemma {:induction false} TerminatedJoin(columns: seq<string>)
    requires |columns| >= 1
    ensures Terminated(columns) == Join(ColumnLines(columns), ",\n") + ",\n"
    decreases |columns|
  {
    var n := |columns| - 1;
    if n == 0 {
      assert Terminated(columns[..0]) == "";
    } else {
      TerminatedJoin(columns[..n]);
      assert ColumnLines(columns) == ColumnLines(columns[..n]) + [ColumnLine(columns[n])];
      JoinSnoc(ColumnLines(columns[..n]), ColumnLine(columns[n]), ",\n");
    }
  }

  /** TrimRight(_, ",\n") takes off exactly the final ",\n" after a column
      definition, which ends in the letter of "text". */
  lemma TrimFinalSeparator(text: string)
    requires text != [] && text[|text| - 1] != ',' && text[|text| - 1] != '\n'
    ensures TrimRight(text + ",\n", ",\n") == text
  {
    var s := text + ",\n";
    assert s[..|s| - 1] == text + ",";
    assert (text + ",")[..|text|] == text;
    assert TrimRight(s, ",\n") == TrimRight(text + ",", ",\n") == TrimRight(text, ",\n");
  }

  /** Trimming the loop's text and closing it gives the statement. */
  lemma FinishTable(name: string, columns: seq<string>)
    requires |columns| >= 1
    ensures TrimRight(Header(name) + Terminated(columns), ",\n") + FOOTER == CreateTable(name, columns)
  {
    var lines := ColumnLines(columns);
    var joined := Join(lines, ",\n");
    var body := Header(name) + joined;
    TerminatedJoin(columns);
    assert Header(name) + Terminated(columns) == body + ",\n";
    JoinEnds(lines, ",\n");
    var last := lines[|lines| - 1];
    SuffixOfLonger(joined, last, Header(name));
    assert last[|last| - 1] == 't';
    assert body[|body| - 1] == last[|last| - 1];
    TrimFinalSeparator(body);
  }

  /** Adding one more column to the loop's text. */
  lemma TerminatedSnoc(columns: seq<string>, column: string)
    ensures Terminated(columns + [column]) == Terminated(columns) + ColumnLine(column) + ",\n"
  {
    assert (columns + [column])[..|columns|] == columns;
  }

  /** The loop's step: writing one more column definition and its separator. */
  lemma AppendColumn(header: string, columns: seq<string>, column: string)
    ensures header + Terminated(columns) + "\t" + column + " text,\n" == header + Terminated(columns + [column])
  {
    TerminatedSnoc(columns, column);
    assert "\t" + column + " text" + ",\n" == "\t" + column + " text,\n";
  }

  /** Writing the definitions of several more columns at once. */
  lemma AppendDefinitions(header: string, columns: seq<string>, more: seq<string>, text: string)
    requires text == Terminated(more)
    ensures header + Terminated(columns) + text == header + Terminated(columns + more)
  {
    TerminatedAppend(columns, more);
  }

  /** The columns written before the fields' own: the unique key, and the
      event column of a longitudinal project. */
  function LeadColumns(uniqueKey: string, longitudinal: bool): seq<string> {
    [uniqueKey] + (if longitudinal then [EVENT_COLUMN] else [])
  }

  /** The text RedcapForm.ToSQL writes before the fields: the header, the
      unique key's definition and, for a longitudinal project, the event
      column's. */
  lemma FormOpening(name: string, uniqueKey: string)
    ensures var s := "\nCREATE TABLE " + name + "\n(\n" + "\t" + uniqueKey + " text,\n";
      && s == Header(name) + Terminated(LeadColumns(uniqueKey, false))
      && s + "\tredcap_event_name text,\n" == Header(name) + Terminated(LeadColumns(uniqueKey, true))
  {
    var s := "\nCREATE TABLE " + name + "\n(\n" + "\t" + uniqueKey + " text,\n";
    AppendColumn(Header(name), [], uniqueKey);
    assert s == Header(name) + Terminated([uniqueKey]);
    AppendColumn(Header(name), [uniqueKey], EVENT_COLUMN);
    assert s + "\tredcap_event_name text,\n" == s + "\t" + EVENT_COLUMN + " text,\n";
  }

  /** The text RedcapForm.ToSQL writes after the fields, and the trimming
      and closing that turn the whole into the statement. */
  lemma FormClosing(name: string, uniqueKey: string, longitudinal: bool, fields: seq<RedcapField>,
                    opening: string, body: string)
    requires opening == Header(name) + Terminated(LeadColumns(uniqueKey, longitudinal))
    requires body == Terminated(BodyColumns(fields, uniqueKey))
    ensures TrimRight(opening + body + "\tform_status text,\n", ",\n") + "\n);"
         == Statement(POSTGRES, name, uniqueKey, longitudinal, fields)
  {
    var lead := LeadColumns(uniqueKey, longitudinal);
    var columns := lead + BodyColumns(fields, uniqueKey);
    AppendDefinitions(Header(name), lead, BodyColumns(fields, uniqueKey), body);
    var text := opening + body;
    AppendColumn(Header(name), columns, STATUS_COLUMN);
    StatusDefinition(text);
    var all := Columns(uniqueKey, longitudinal, fields);
    assert columns + [STATUS_COLUMN] == all;
    FinishTable(name, all);
  }

  lemma StatusDefinition(text: string)
    ensures text + "\tform_status text,\n" == text + "\t" + STATUS_COLUMN + " text,\n"
  {
  }

  /** One more choice adds its checkbox column at the end. */
  lemma CheckboxColumnsStep(name: string, choices: seq<RedcapFieldChoice>, j: nat)
    requires j < |choices|
    ensures CheckboxColumns(name, choices[..j + 1]) == CheckboxColumns(name, choices[..j]) + [CheckboxColumn(name, choices[j])]
  {
  }

  /** One more field adds its columns at the end. */
  lemma BodyColumnsStep(fields: seq<RedcapField>, i: nat, uniqueKey: string)
    requires i < |fields|
    ensures BodyColumns(fields[..i + 1], uniqueKey) == BodyColumns(fields[..i], uniqueKey) + FieldColumns(fields[i], uniqueKey)
  {
    assert fields[..i + 1][..i] == fields[..i];
  }

  /** Terminated of a concatenation. */
  lemma {:induction false} TerminatedAppend(a: seq<string>, b: seq<string>)
    ensures Terminated(a + b) == Terminated(a) + Terminated(b)
    decreases |b|
  {
    if b == [] {
      assert a + b == a;
    } else {
      var n := |b| - 1;
      TerminatedAppend(a, b[..n]);
      assert (a + b)[..|a + b| - 1] == a + b[..n] && (a + b)[|a + b| - 1] == b[n];
      ConcatAssoc(Terminated(a), Terminated(b[..n]), ColumnLine(b[n]), ",\n");
    }
  }

  lemma ConcatAssoc(w: string, x: string, y: string, z: string)
    ensures w + x + y + z == w + (x + y + z)
  {
  }

  // ---------------------------------------------------------------------------
  // Layout of the statement

  /** The statement opens with the table name and the unique-key column,
      followed by the event column when the project is longitudinal; it
      closes with the status column and ");", with no comma before it. */
  lemma StatementLayout(name: string, uniqueKey: string, longitudinal: bool, fields: seq<RedcapField>)
    ensures var s := Statement(POSTGRES, name, uniqueKey, longitudinal, fields);
      var key := ColumnLine(uniqueKey);
      && HasPrefix(s, Header(name) + (if longitudinal then key + ",\n" + ColumnLine(EVENT_COLUMN) else key))
      && HasSuffix(s, ColumnLine(STATUS_COLUMN) + FOOTER)
  {
    var lines := ColumnLines(Columns(uniqueKey, longitudinal, fields));
    assert lines[0] == ColumnLine(uniqueKey);
    assert longitudinal ==> lines[1] == ColumnLine(EVENT_COLUMN);
    assert lines[|lines| - 1] == ColumnLine(STATUS_COLUMN);
    TableEnds(name, lines, longitudinal);
  }

  /** The first one or two definitions open a table, the last one closes it. */
  lemma TableEnds(name: string, lines: seq<string>, two: bool)
    requires |lines| >= 2
    ensures var s := Header(name) + Join(lines, ",\n") + FOOTER;
      && HasPrefix(s, Header(name) + (if two then lines[0] + ",\n" + lines[1] else lines[0]))
      && HasSuffix(s, lines[|lines| - 1] + FOOTER)
  {
    var first := if two then lines[0] + ",\n" + lines[1] else lines[0];
    JoinOpening(lines, two);
    JoinEnds(lines, ",\n");
    Enclosed(Header(name), Join(lines, ",\n"), FOOTER, first, lines[|lines| - 1]);
  }

  lemma JoinOpening(lines: seq<string>, two: bool)
    requires |lines| >= 2
    ensures HasPrefix(Join(lines, ",\n"), if two then lines[0] + ",\n" + lines[1] else lines[0])
  {
    JoinEnds(lines, ",\n");
    if two {
      JoinEnds(lines[1..], ",\n");
      PrefixBehind(Join(lines[1..], ",\n"), lines[1], lines[0] + ",\n");
    }
  }

  /** Text between a header and a footer keeps its own prefix and suffix. */
  lemma Enclosed(header: string, text: string, footer: string, first: string, last: string)
    requires HasPrefix(text, first) && HasSuffix(text, last)
    ensures HasPrefix(header + text + footer, header + first)
    ensures HasSuffix(header + text + footer, last + footer)
  {
    PrefixBehind(text, first, header);
    PrefixOfLonger(header + text, header + first, footer);
    SuffixOfLonger(text, last, header);
    SuffixBefore(header + text, last, footer);
  }

  /** The longitudinal statement is the other one with the event column and
      its separator inserted right after the unique-key column, and nothing
      else changed. */
  lemma EventColumnInserted(name: string, uniqueKey: string, fields: seq<RedcapField>)
    ensures var key := ColumnLine(uniqueKey);
      var rest := Join(ColumnLines(BodyColumns(fields, uniqueKey) + [STATUS_COLUMN]), ",\n");
      && Statement(POSTGRES, name, uniqueKey, false, fields)
         == Header(name) + (key + ",\n" + rest) + FOOTER
      && Statement(POSTGRES, name, uniqueKey, true, fields)
         == Header(name) + (key + ",\n" + (ColumnLine(EVENT_COLUMN) + ",\n" + rest)) + FOOTER
  {
    var tail := BodyColumns(fields, uniqueKey) + [STATUS_COLUMN];
    var after := ColumnLines(tail);
    ColumnsShape(uniqueKey, fields);
    ColumnLinesCons(uniqueKey, tail);
    ColumnLinesCons(EVENT_COLUMN, tail);
    ColumnLinesCons(uniqueKey, [EVENT_COLUMN] + tail);
    JoinCons(ColumnLine(uniqueKey), after, ",\n");
    JoinCons(ColumnLine(EVENT_COLUMN), after, ",\n");
    JoinCons(ColumnLine(uniqueKey), [ColumnLine(EVENT_COLUMN)] + after, ",\n");
  }

  /** The columns are the unique key, then (for a longitudinal project) the
      event column, then the rest. */
  lemma ColumnsShape(uniqueKey: string, fields: seq<RedcapField>)
    ensures var tail := BodyColumns(fields, uniqueKey) + [STATUS_COLUMN];
      && Columns(uniqueKey, false, fields) == [uniqueKey] + tail
      && Columns(uniqueKey, true, fields) == [uniqueKey] + ([EVENT_COLUMN] + tail)
  {
  }

  lemma ColumnLinesCons(column: string, columns: seq<string>)
    ensures ColumnLines([column] + columns) == [ColumnLine(column)] + ColumnLines(columns)
  {
  }

  // ---------------------------------------------------------------------------
  // The columns the fields contribute

  /** Every body column comes from some field. */
  lemma {:induction false} BodyColumnOrigin(fields: seq<RedcapField>, uniqueKey: string, column: string)
    returns (i: nat)
    requires column in BodyColumns(fields, uniqueKey)
    ensures i < |fields| && column in FieldColumns(fields[i], uniqueKey)
    decreases |fields|
  {
    var n := |fields| - 1;
    if column in FieldColumns(fields[n], uniqueKey) {
      i := n;
    } else {
      i := BodyColumnOrigin(fields[..n], uniqueKey, column);
    }
  }

  /** Every column of every field is a body column. */
  lemma {:induction false} FieldColumnInBody(fields: seq<RedcapField>, uniqueKey: string, i: nat, column: string)
    requires i < |fields| && column in FieldColumns(fields[i], uniqueKey)
    ensures column in BodyColumns(fields, uniqueKey)
    decreases |fields|
  {
    var n := |fields| - 1;
    if i < n {
      assert fields[..n][i] == fields[i];
      FieldColumnInBody(fields[..n], uniqueKey, i, column);
    }
  }

  /** A column comes from the fields exactly when some field contributes it. */
  lemma BodyColumnsFromFields(fields: seq<RedcapField>, uniqueKey: string, column: string)
    ensures column in BodyColumns(fields, uniqueKey)
            <==> exists i :: 0 <= i < |fields| && column in FieldColumns(fields[i], uniqueKey)
  {
    if column in BodyColumns(fields, uniqueKey) {
      var i := BodyColumnOrigin(fields, uniqueKey, column);
    }
    if exists i :: 0 <= i < |fields| && column in FieldColumns(fields[i], uniqueKey) {
      var i :| 0 <= i < |fields| && column in FieldColumns(fields[i], uniqueKey);
      FieldColumnInBody(fields, uniqueKey, i, column);
    }
  }

  /** Apart from checkbox columns, the unique key never reappears among the
      fields' columns. */
  lemma {:induction false} UniqueKeySuppressed(fields: seq<RedcapField>, uniqueKey: string)
    requires forall i :: 0 <= i < |fields| && FansOut(fields[i]) ==>
      uniqueKey !in CheckboxColumns(fields[i].fieldName, fields[i].choices)
    ensures uniqueKey !in BodyColumns(fields, uniqueKey)
    decreases |fields|
  {
    if fields != [] {
      var n := |fields| - 1;
      assert forall i :: 0 <= i < n ==> fields[..n][i] == fields[i];
      UniqueKeySuppressed(fields[..n], uniqueKey);
    }
  }

  /** So the unique key is a column exactly once, whether or not the form
      holds the unique-key field itself. */
  lemma UniqueKeyOnce(uniqueKey: string, longitudinal: bool, fields: seq<RedcapField>)
    requires uniqueKey != EVENT_COLUMN && uniqueKey != STATUS_COLUMN
    requires forall i :: 0 <= i < |fields| && FansOut(fields[i]) ==>
      uniqueKey !in CheckboxColumns(fields[i].fieldName, fields[i].choices)
    ensures multiset(Columns(uniqueKey, longitudinal, fields))[uniqueKey] == 1
  {
    UniqueKeySuppressed(fields, uniqueKey);
    var body := BodyColumns(fields, uniqueKey);
    assert multiset(body)[uniqueKey] == 0;
  }

  /** A checkbox's columns name the field and read back, after the "___",
      as the ids of its choices, in choice order. */
  lemma CheckboxColumnIds(name: string, choices: seq<RedcapFieldChoice>)
    requires forall i :: 0 <= i < |choices| ==> MIN_INT64 <= choices[i].id <= MAX_INT64
    ensures var columns := CheckboxColumns(name, choices);
      && |columns| == |choices|
      && forall i :: 0 <= i < |columns| ==>
           && |name| + 3 <= |columns[i]|
           && columns[i][..|name| + 3] == name + "___"
           && Atoi(columns[i][|name| + 3..]) == Some(choices[i].id)
  {
    var columns := CheckboxColumns(name, choices);
    forall i | 0 <= i < |columns|
      ensures |name| + 3 <= |columns[i]|
      ensures columns[i][..|name| + 3] == name + "___"
      ensures Atoi(columns[i][|name| + 3..]) == Some(choices[i].id)
    {
      assert columns[i] == (name + "___") + FormatInt(choices[i].id);
      assert columns[i][|name| + 3..] == FormatInt(choices[i].id);
      AtoiFormatInt(choices[i].id);
    }
  }

  // ---------------------------------------------------------------------------
  // The statement line by line

  /** Every column definition but the last, followed by its comma. */
  function CommaLines(lines: seq<string>): seq<string> {
    seq(|lines|, i requires 0 <= i < |lines| => if i < |lines| - 1 then lines[i] + "," else lines[i])
  }

  /** The lines of a CREATE TABLE statement, as a reader sees them. */
  function TableLines(name: string, columns: seq<string>): seq<string> {
    ["", "CREATE TABLE " + name, "("] + CommaLines(ColumnLines(columns)) + [");"]
  }

  /** Joining with ",\n" is joining with a newline after putting the commas on
      the lines. */
  lemma {:induction false} CommaJoin(lines: seq<string>)
    requires |lines| >= 1
    ensures Join(lines, ",\n") == Join(CommaLines(lines), "\n")
    decreases |lines|
  {
    if |lines| > 1 {
      CommaJoin(lines[1..]);
      assert CommaLines(lines) == [lines[0] + ","] + CommaLines(lines[1..]);
      JoinCons(lines[0] + ",", CommaLines(lines[1..]), "\n");
      assert lines[0] + ",\n" + Join(lines[1..], ",\n") == lines[0] + "," + "\n" + Join(lines[1..], ",\n");
    }
  }

  /** The lines around the column lines, joined by newlines, are the header
      and the footer around the column lines' join. */
  lemma JoinTableLines(name: string, commas: seq<string>)
    requires |commas| >= 1
    ensures Join(["", "CREATE TABLE " + name, "("] + commas + [");"], "\n")
            == Header(name) + Join(commas, "\n") + FOOTER
  {
    var body := Join(commas, "\n");
    JoinSnoc(commas, ");", "\n");
    JoinCons("(", commas + [");"], "\n");
    JoinCons("CREATE TABLE " + name, ["("] + (commas + [");"]), "\n");
    JoinCons("", ["CREATE TABLE " + name] + (["("] + (commas + [");"])), "\n");
    LinesNested("", "CREATE TABLE " + name, "(", commas, ");");
    HeaderFooterText(name, body);
  }

  lemma LinesNested(a: string, b: string, c: string, middle: seq<string>, d: string)
    ensures [a, b, c] + middle + [d] == [a] + ([b] + ([c] + (middle + [d])))
  {
  }

  lemma HeaderFooterText(name: string, body: string)
    ensures Header(name) + body + FOOTER
         == "" + "\n" + ("CREATE TABLE " + name + "\n" + ("(" + "\n" + (body + "\n" + ");")))
  {
  }

  /** A statement is its lines joined by newlines. */
  lemma StatementJoin(name: string, columns: seq<string>)
    requires |columns| >= 1
    ensures CreateTable(name, columns) == Join(TableLines(name, columns), "\n")
  {
    CommaJoin(ColumnLines(columns));
    JoinTableLines(name, CommaLines(ColumnLines(columns)));
  }

  /** No line of a statement holds a newline when neither the name nor a
      column does. */
  lemma TableLinesSingle(name: string, columns: seq<string>)
    requires '\n' !in name && forall i :: 0 <= i < |columns| ==> '\n' !in columns[i]
    ensures forall i :: 0 <= i < |TableLines(name, columns)| ==> '\n' !in TableLines(name, columns)[i]
  {
    var commas := CommaLines(ColumnLines(columns));
    forall i | 0 <= i < |TableLines(name, columns)|
      ensures '\n' !in TableLines(name, columns)[i]
    {
      if 3 <= i < 3 + |commas| {
        assert TableLines(name, columns)[i] == commas[i - 3];
      }
    }
  }

  /** Splitting a statement at its newlines gives its lines back: the blank
      first line, the CREATE TABLE line, "(", one line per column (each but
      the last ending in a comma) and ");". */
  lemma StatementLines(name: string, columns: seq<string>)
    requires |columns| >= 1
    requires '\n' !in name && forall i :: 0 <= i < |columns| ==> '\n' !in columns[i]
    ensures CreateTable(name, columns) == Join(TableLines(name, columns), "\n")
    ensures Split(CreateTable(name, columns), '\n') == TableLines(name, columns)
  {
    StatementJoin(name, columns);
    TableLinesSingle(name, columns);
    SplitJoin(TableLines(name, columns), '\n');
  }

  // ---------------------------------------------------------------------------
  // Expected statements

  /** The "testing" form of a longitudinal project keyed by study_id, holding
      two plain fields, written line by line. */
  lemma TestingFormStatement(foo: RedcapField, bar: RedcapField)
    requires foo.fieldName == "foo_score" && !FansOut(foo)
    requires bar.fieldName == "bar_score" && !FansOut(bar)
    ensures Statement(POSTGRES, "testing", "study_id", true, [foo, bar])
            == Join(["",
                     "CREATE TABLE testing",
                     "(",
                     "\tstudy_id text,",
                     "\tredcap_event_name text,",
                     "\tfoo_score text,",
                     "\tbar_score text,",
                     "\tform_status text",
                     ");"], "\n")
  {
    var columns := ["study_id", EVENT_COLUMN, "foo_score", "bar_score", STATUS_COLUMN];
    TestingFormColumns(foo, bar);
    StatementLines("testing", columns);
    TestingFormLines();
  }

  lemma TestingFormLines()
    ensures TableLines("testing", ["study_id", EVENT_COLUMN, "foo_score", "bar_score", STATUS_COLUMN])
            == ["", "CREATE TABLE testing", "(", "\tstudy_id text,", "\tredcap_event_name text,",
                "\tfoo_score text,", "\tbar_score text,", "\tform_status text", ");"]
  {
    var commas := ["\tstudy_id text,", "\tredcap_event_name text,", "\tfoo_score text,", "\tbar_score text,", "\tform_status text"];
    TestingFormCommas();
    assert "CREATE TABLE " + "testing" == "CREATE TABLE testing";
    assert ["", "CREATE TABLE testing", "("] + commas + [");"]
        == ["", "CREATE TABLE testing", "(", "\tstudy_id text,", "\tredcap_event_name text,",
            "\tfoo_score text,", "\tbar_score text,", "\tform_status text", ");"];
  }

  lemma TestingFormCommas()
    ensures CommaLines(ColumnLines(["study_id", EVENT_COLUMN, "foo_score", "bar_score", STATUS_COLUMN]))
            == ["\tstudy_id text,", "\tredcap_event_name text,", "\tfoo_score text,", "\tbar_score text,", "\tform_status text"]
  {
    FiveColumnLines("study_id", EVENT_COLUMN, "foo_score", "bar_score", STATUS_COLUMN);
    TestingKeyLines();
    TestingFieldLines();
  }

  lemma TestingKeyLines()
    ensures ColumnLine("study_id") + "," == "\tstudy_id text,"
    ensures ColumnLine(EVENT_COLUMN) + "," == "\tredcap_event_name text,"
    ensures ColumnLine(STATUS_COLUMN) == "\tform_status text"
  {
  }

  lemma TestingFieldLines()
    ensures ColumnLine("foo_score") + "," == "\tfoo_score text,"
    ensures ColumnLine("bar_score") + "," == "\tbar_score text,"
  {
  }

  lemma FiveColumnLines(a: string, b: string, c: string, d: string, e: string)
    ensures CommaLines(ColumnLines([a, b, c, d, e]))
            == [ColumnLine(a) + ",", ColumnLine(b) + ",", ColumnLine(c) + ",", ColumnLine(d) + ",", ColumnLine(e)]
  {
  }

  lemma TestingFormColumns(foo: RedcapField, bar: RedcapField)
    requires foo.fieldName == "foo_score" && !FansOut(foo)
    requires bar.fieldName == "bar_score" && !FansOut(bar)
    ensures Columns("study_id", true, [foo, bar])
            == ["study_id", EVENT_COLUMN, "foo_score", "bar_score", STATUS_COLUMN]
  {
    var fields := [foo, bar];
    assert fields[..1] == [foo] && [foo][..0] == [];
    assert FieldColumns(foo, "study_id") == ["foo_score"];
    assert FieldColumns(bar, "study_id") == ["bar_score"];
    assert BodyColumns([foo], "study_id") == BodyColumns([], "study_id") + ["foo_score"] == ["foo_score"];
    assert BodyColumns(fields, "study_id") == ["foo_score", "bar_score"];
  }

  /** A checkbox with choices 1, 2 and 3 becomes three numbered columns. */
  lemma CheckboxStatementColumns(matcheck: RedcapField)
    requires matcheck.fieldName == "matcheck1" && matcheck.fieldType == "checkbox"
    requires matcheck.choices == [RedcapFieldChoice(1, "a"), RedcapFieldChoice(2, "b"), RedcapFieldChoice(3, "c")]
    ensures FieldColumns(matcheck, "study_id") == ["matcheck1___1", "matcheck1___2", "matcheck1___3"]
  {
    assert DigitChar(1) == '1' && DigitChar(2) == '2' && DigitChar(3) == '3';
    assert FormatInt(1) == "1" && FormatInt(2) == "2" && FormatInt(3) == "3";
    var columns := CheckboxColumns("matcheck1", matcheck.choices);
    assert columns[0] == "matcheck1___1" && columns[1] == "matcheck1___2" && columns[2] == "matcheck1___3";
  }
}
