/** Graphviz HTML-like label markup: inline tag wrappers, table cells and
    tables. Nothing is escaped: text and attribute values are written as
    they are given. */
module HtmlLike {
  import opened Collections
  import opened Strings

  /** The content between `<tag>` and `</tag>`, if `r` has that shape. */
  function Unwrap(tag: string, r: string): Option<string>
  {
    var open := "<" + tag + ">";
    var close := "</" + tag + ">";
    if |open| + |close| <= |r| && r[..|open|] == open && r[|r| - |close|..] == close
    then Some(r[|open|..|r| - |close|])
    else None
  }

  /** Marks a string as HTML-like markup for the renderer. */
  function Html(s: string): string
  {
    "<" + s + ">"
  }

  /** Underline. */
  function U(s: string): string
  {
    "<U>" + s + "</U>"
  }

  /** `o` writes the same markup as `u`. */
  function O(s: string): string
  {
    "<U>" + s + "</U>"
  }

  /** Bold. */
  function B(s: string): string
  {
    "<B>" + s + "</B>"
  }

  /** Italic. */
  function I(s: string): string
  {
    "<I>" + s + "</I>"
  }

  /** Strike-through. */
  function S(s: string): string
  {
    "<S>" + s + "</S>"
  }

  /** Sub-script. */
  function Sub(s: string): string
  {
    "<SUB>" + s + "</SUB>"
  }

  /** Super-script. */
  function Sup(s: string): string
  {
    "<SUP>" + s + "</SUP>"
  }

  /** The markup `html` produces is the text inside one pair of angle brackets. */
  lemma HtmlUnwrap(s: string)
    ensures var r := Html(s); |r| == |s| + 2 && r[0] == '<' && r[|r| - 1] == '>' && r[1..|r| - 1] == s
  {
  }

  /** Each inline wrapper puts its argument, unchanged, between its own
      opening and closing tags; `o` writes exactly what `u` writes. */
  lemma WrappersUnwrap(s: string)
    ensures Unwrap("U", U(s)) == Some(s)
    ensures O(s) == U(s)
    ensures Unwrap("B", B(s)) == Some(s)
    ensures Unwrap("I", I(s)) == Some(s)
    ensures Unwrap("S", S(s)) == Some(s)
    ensures Unwrap("SUB", Sub(s)) == Some(s)
    ensures Unwrap("SUP", Sup(s)) == Some(s)
  {
    TagUnwrap("U", s);
    TagUnwrap("B", s);
    TagUnwrap("I", s);
    TagUnwrap("S", s);
    TagUnwrap("SUB", s);
    TagUnwrap("SUP", s);
  }

  /** `<tag>` + `s` + `</tag>` unwraps to `s`. */
  lemma TagUnwrap(tag: string, s: string)
    ensures Unwrap(tag, "<" + tag + ">" + s + "</" + tag + ">") == Some(s)
  {
    var open := "<" + tag + ">";
    var close := "</" + tag + ">";
    var r := open + s + close;
    assert r == "<" + tag + ">" + s + "</" + tag + ">";
    assert r[..|open|] == open;
    assert r[|r| - |close|..] == close;
    assert r[|open|..|r| - |close|] == s;
  }

  datatype Align = Center | Left | Right

  function AlignName(a: Align): string
  {
    match a
    case Center => "CENTER"
    case Left => "LEFT"
    case Right => "RIGHT"
  }

  /** Line break, optionally aligned. */
  function Br(align: Option<Align>): string
  {
    if align.Some? then "<BR ALIGN=\"" + AlignName(align.value) + "\" />" else "<BR/>"
  }

  /** Without an alignment the break is the bare tag; with one it carries
      the alignment's name. */
  lemma BrText(align: Option<Align>)
    ensures align.None? <==> Br(align) == "<BR/>"
    ensures align.Some? ==> Br(align) == "<BR ALIGN=\"" + AlignName(align.value) + "\" />"
  {
  }

  /** An attribute value as Python holds it in the keyword arguments. */
  datatype AttrValue = Str(s: string) | Int(n: int) | Bool(b: bool)

  /** A keyword argument `name=value`; a cell's or table's attributes are
      kept in insertion order. */
  type Attr = (string, AttrValue)

  /** Python truthiness of a value. */
  predicate Truthy(v: AttrValue)
  {
    match v
    case Str(s) => s != ""
    case Int(n) => n != 0
    case Bool(b) => b
  }

  /** `str(value)`. */
  function PyStr(v: AttrValue): string
  {
    match v
    case Str(s) => s
    case Int(n) => IntToString(n)
    case Bool(b) => if b then "True" else "False"
  }

  /** How the value of attribute `key` is written: `fixedsize` as
      `TRUE`/`FALSE` by truthiness, everything else as `str(value)`. */
  function AttrValueText(key: string, v: AttrValue): string
  {
    if key == "fixedsize" then (if Truthy(v) then "TRUE" else "FALSE") else PyStr(v)
  }

  /** `fixedsize` is written `TRUE` exactly when its value is truthy and
      `FALSE` otherwise; every other attribute as `str(value)`. */
  lemma AttrValueTextSpec(key: string, v: AttrValue)
    ensures key == "fixedsize" ==> (AttrValueText(key, v) == "TRUE" || AttrValueText(key, v) == "FALSE")
    ensures key == "fixedsize" ==> (AttrValueText(key, v) == "TRUE" <==> Truthy(v))
    ensures key != "fixedsize" ==> AttrValueText(key, v) == PyStr(v)
  {
  }

  /** ` KEY="value"`. */
  function AttrText(a: Attr): string
  {
    " " + Upper(a.0) + "=\"" + AttrValueText(a.0, a.1) + "\""
  }

  function AttrsText(attrs: seq<Attr>): string
  {
    FlatMap(AttrText, attrs)
  }

  /** Attributes are written in insertion order: attribute `j` comes after
      all earlier ones and before all later ones. */
  lemma AttrsTextAt(attrs: seq<Attr>, j: nat)
    requires j < |attrs|
    ensures AttrsText(attrs) == AttrsText(attrs[..j]) + AttrText(attrs[j]) + AttrsText(attrs[j + 1..])
  {
    FlatMapAt(AttrText, attrs, j);
  }

  /** The `fixedsize` attribute is written with an upper-cased name and a
      `TRUE`/`FALSE` value. */
  lemma FixedSizeText(v: AttrValue)
    ensures AttrText(("fixedsize", v)) == " " + "FIXEDSIZE" + "=\"" + (if Truthy(v) then "TRUE" else "FALSE") + "\""
  {
    assert Upper("fixedsize") == "FIXEDSIZE";
  }

  /** The attribute loop both `__repr__` methods run: appends
      ` KEY="value"` for each attribute, in insertion order, to `head`. */
  method WriteAttrs(head: string, attrs: seq<Attr>) returns (text: string)
    ensures text == head + AttrsText(attrs)
  {
    text := head;
    var k := 0;
    while k < |attrs|
      invariant 0 <= k <= |attrs|
      invariant text == head + AttrsText(attrs[..k])
    {
      var (key, value) := attrs[k];
      var strValue: string;
      if key == "fixedsize" {
        strValue := if Truthy(value) then "TRUE" else "FALSE";
      } else {
        strValue := PyStr(value);
      }
      var piece := " " + Upper(key) + "=\"" + strValue + "\"";
      assert piece == AttrText(attrs[k]);
      FlatMapSnoc(AttrText, attrs, k);
      ConcatAssoc(head, AttrsText(attrs[..k]), piece);
      text := text + piece;
      k := k + 1;
    }
    assert attrs[..k] == attrs;
  }

  /** A table cell: its content and its attributes. */
  datatype Cell = Cell(content: string, attrs: seq<Attr>)
  {
    /** `TableCell.__repr__`. */
    method ToString() returns (text: string)
      ensures text == CellText(this)
    {
      text := WriteAttrs("<TD", attrs);
      text := text + ">\n" + content + "\n</TD>";
    }
  }

  function CellText(c: Cell): string
  {
    "<TD" + AttrsText(c.attrs) + ">\n" + c.content + "\n</TD>"
  }

  function CellsText(cells: seq<Cell>): string
  {
    FlatMap(CellText, cells)
  }

  function RowText(cells: seq<Cell>): string
  {
    "<TR>\n" + CellsText(cells) + "</TR>\n"
  }

  function RowsText(rows: seq<seq<Cell>>): string
  {
    FlatMap(RowText, rows)
  }

  function TableText(attrs: seq<Attr>, rows: seq<seq<Cell>>): string
  {
    "<TABLE" + AttrsText(attrs) + ">\n" + RowsText(rows) + "</TABLE>\n"
  }

  /** A node label made from a table: `html.html(str(table))` is its text,
      `LabelText`. */
  datatype Label = TableLabel(attrs: seq<Attr>, rows: seq<seq<Cell>>)

  function LabelText(l: Label): string
  {
    Html(TableText(l.attrs, l.rows))
  }

  /** Rows are written in order, one `<TR>` block each: row `j` comes after
      all earlier rows and before all later ones. */
  lemma TableTextRowAt(attrs: seq<Attr>, rows: seq<seq<Cell>>, j: nat)
    requires j < |rows|
    ensures TableText(attrs, rows)
         == "<TABLE" + AttrsText(attrs) + ">\n" + RowsText(rows[..j])
          + RowText(rows[j]) + RowsText(rows[j + 1..]) + "</TABLE>\n"
  {
    FlatMapAt(RowText, rows, j);
    var head, before, row, after, close := "<TABLE" + AttrsText(attrs) + ">\n", RowsText(rows[..j]), RowText(rows[j]), RowsText(rows[j + 1..]), "</TABLE>\n";
    assert RowsText(rows) == before + row + after;
    assert TableText(attrs, rows) == head + (before + row + after) + close;
    SeqAssoc5(head, before, row, after, close);
  }

  /** Solver hint: regroups a five-part concatenation. */
  lemma SeqAssoc5(a: string, b: string, c: string, d: string, e: string)
    ensures a + (b + c + d) + e == a + b + c + d + e
  {
  }

  /** A table without rows is its opening and closing tags only. */
  lemma EmptyTableText(attrs: seq<Attr>)
    ensures TableText(attrs, []) == "<TABLE" + AttrsText(attrs) + ">\n</TABLE>\n"
  {
  }

  /** One pass of the row loop of `Table.__repr__`: `<TR>`, each cell
      in order, `</TR>`. */
  method WriteRow(row: seq<Cell>) returns (text: string)
    ensures text == RowText(row)
  {
    var cells := "";
    var c := 0;
    while c < |row|
      invariant 0 <= c <= |row|
      invariant cells == CellsText(row[..c])
    {
      var cellText := row[c].ToString();
      FlatMapSnoc(CellText, row, c);
      cells := cells + cellText;
      c := c + 1;
    }
    assert row[..c] == row;
    text := "<TR>\n" + cells + "</TR>\n";
  }

  /** The row loop of `Table.__repr__`: appends each row, in order, to `head`. */
  method WriteRows(head: string, rows: seq<seq<Cell>>) returns (text: string)
    ensures text == head + RowsText(rows)
  {
    text := head;
    var r := 0;
    while r < |rows|
      invariant 0 <= r <= |rows|
      invariant text == head + RowsText(rows[..r])
    {
      var rowText := WriteRow(rows[r]);
      FlatMapSnoc(RowText, rows, r);
      ConcatAssoc(head, RowsText(rows[..r]), rowText);
      text := text + rowText;
      r := r + 1;
    }
    assert rows[..r] == rows;
  }

  /** A table: its attributes, fixed at construction, and its rows, which
      `AddRow` extends. */
  class Table {
    const attrs: seq<Attr>
    var rows: seq<seq<Cell>>

    /** `Table(rows, **attrs)`; passing no rows gives an empty row list. */
    constructor (rows: seq<seq<Cell>>, attrs: seq<Attr>)
      ensures this.rows == rows && this.attrs == attrs
    {
      this.attrs := attrs;
      this.rows := rows;
    }

    /** Appends one row at the end; earlier rows are unchanged. */
    method AddRow(cells: seq<Cell>)
      modifies this
      ensures rows == old(rows) + [cells]
    {
      rows := rows + [cells];
    }

    /** `Table.__repr__`. */
    method ToString() returns (text: string)
      ensures text == TableText(attrs, rows)
    {
      text := WriteAttrs("<TABLE", attrs);
      text := WriteRows(text + ">\n", rows);
      text := text + "</TABLE>\n";
    }
  }
}
