/** CSV: what the serialiser prints, a reader for RFC 4180, and the round trip between them. */
module Csv {
  import opened Bytes
  import opened CanonicalRecord
  import Json

  // ---- printing ----

  function DoubleQuotes(s: seq<byte>): seq<byte> {
    if s == [] then [] else (if s[0] == 34 then [34, 34] else [s[0]]) + DoubleQuotes(s[1..])
  }

  function Quoted(s: seq<byte>): seq<byte> { [34] + DoubleQuotes(s) + [34] }

  /** An absent field prints as nothing, a present string always in quotes. */
  function CellText(v: Scalar): seq<byte> {
    match v
    case Null => []
    case Bool(b) => if b then Json.TrueText() else Json.FalseText()
    case Number(t) => t
    case Text(t) => Quoted(t)
  }

  /** The cells from the i-th on, comma separated. */
  function Cells(fields: seq<Scalar>, i: nat): seq<byte>
    requires |fields| == FIELD_COUNT && i < FIELD_COUNT
    decreases FIELD_COUNT - i
  {
    CellText(fields[i]) +
    if i + 1 == FIELD_COUNT then [] else [44] + Cells(fields, i + 1)
  }

  function Row(fields: seq<Scalar>): seq<byte>
    requires |fields| == FIELD_COUNT
  {
    Cells(fields, 0) + [10]
  }

  function RecordRow(c: Canonical): seq<byte> { Row(Fields(c)) }

  /** The header line: the 28 field names, bare. */
  function HeaderCells(i: nat): seq<byte>
    requires i < FIELD_COUNT
    decreases FIELD_COUNT - i
  {
    Json.FieldKey(i) + if i + 1 == FIELD_COUNT then [] else [44] + HeaderCells(i + 1)
  }

  function Header(): seq<byte> { HeaderCells(0) + [10] }

  // ---- reading (RFC 4180, with a line feed alone as the line break) ----

  datatype Cell = Bare(text: seq<byte>) | InQuotes(text: seq<byte>)

  /** The rest of a quoted cell after its opening quote. */
  function ParseQuoted(s: seq<byte>): (r: Parsed<seq<byte>>)
    ensures r.Parsed? ==> |r.rest| < |s|
    decreases |s|
  {
    if s == [] then Failed
    else if s[0] != 34 then
      match ParseQuoted(s[1..])
      case Failed => Failed
      case Parsed(t, rest) => Parsed([s[0]] + t, rest)
    else if |s| > 1 && s[1] == 34 then
      match ParseQuoted(s[2..])
      case Failed => Failed
      case Parsed(t, rest) => Parsed([34] + t, rest)
    else Parsed([], s[1..])
  }

  /** Bytes that may stand in a bare cell. */
  predicate BareByte(b: byte) { b != 44 && b != 10 && b != 13 && b != 34 }

  function BareRun(s: seq<byte>): (n: nat)
    ensures n <= |s|
  {
    if s == [] || !BareByte(s[0]) then 0 else 1 + BareRun(s[1..])
  }

  function ParseCell(s: seq<byte>): (r: Parsed<Cell>)
    ensures r.Parsed? ==> |r.rest| <= |s|
  {
    if s != [] && s[0] == 34 then
      match ParseQuoted(s[1..])
      case Failed => Failed
      case Parsed(t, rest) => Parsed(InQuotes(t), rest)
    else
      Parsed(Bare(s[..BareRun(s)]), s[BareRun(s)..])
  }

  /** Cells up to and including the line feed. */
  function ParseRow(s: seq<byte>): (r: Parsed<seq<Cell>>)
    ensures r.Parsed? ==> |r.rest| < |s|
    decreases |s|
  {
    match ParseCell(s)
    case Failed => Failed
    case Parsed(cell, after) =>
      if after == [] then Failed
      else if after[0] == 10 then Parsed([cell], after[1..])
      else if after[0] == 44 then
        match ParseRow(after[1..])
        case Failed => Failed
        case Parsed(more, rest) => Parsed([cell] + more, rest)
      else Failed
  }

  // ---- round trip ----

  /** The cell a scalar prints as. */
  function CellOf(v: Scalar): Cell {
    match v
    case Null => Bare([])
    case Bool(b) => Bare(if b then Json.TrueText() else Json.FalseText())
    case Number(t) => Bare(t)
    case Text(t) => InQuotes(t)
  }

  function CellsOf(fields: seq<Scalar>, i: nat): (r: seq<Cell>)
    requires |fields| == FIELD_COUNT && i < FIELD_COUNT
    ensures |r| == FIELD_COUNT - i
    decreases FIELD_COUNT - i
  {
    if i + 1 == FIELD_COUNT then [CellOf(fields[i])] else [CellOf(fields[i])] + CellsOf(fields, i + 1)
  }

  lemma {:induction false} CellsOfAt(fields: seq<Scalar>, i: nat, k: nat)
    requires |fields| == FIELD_COUNT && i <= k < FIELD_COUNT
    ensures CellsOf(fields, i)[k - i] == CellOf(fields[k])
    decreases k - i
  {
    hide CellOf;
    if i < k { CellsOfAt(fields, i + 1, k); }
  }

  lemma {:induction false} QuotedRoundTrip(s: seq<byte>, rest: seq<byte>)
    requires rest != [] ==> rest[0] != 34
    ensures ParseQuoted(DoubleQuotes(s) + [34] + rest) == Parsed(s, rest)
  {
    var t := DoubleQuotes(s) + [34] + rest;
    if s == [] {
      assert t == [34] + rest;
      assert t[1..] == rest;
    } else {
      var tail := DoubleQuotes(s[1..]) + [34] + rest;
      QuotedRoundTrip(s[1..], rest);
      assert s == [s[0]] + s[1..];
      if s[0] == 34 {
        assert t == [34, 34] + tail;
        assert t[2..] == tail;
      } else {
        assert t == [s[0]] + tail;
        assert t[1..] == tail;
      }
    }
  }

  lemma {:induction false} BareRunStops(t: seq<byte>, rest: seq<byte>)
    requires forall i :: 0 <= i < |t| ==> BareByte(t[i])
    requires rest != [] ==> !BareByte(rest[0])
    ensures BareRun(t + rest) == |t|
  {
    if t == [] {
      assert t + rest == rest;
    } else {
      assert (t + rest)[1..] == t[1..] + rest;
      BareRunStops(t[1..], rest);
    }
  }

  lemma BareRoundTrip(t: seq<byte>, rest: seq<byte>)
    requires forall i :: 0 <= i < |t| ==> BareByte(t[i])
    requires rest != [] && (rest[0] == 44 || rest[0] == 10)
    ensures ParseCell(t + rest) == Parsed(Bare(t), rest)
  {
    var s := t + rest;
    BareRunStops(t, rest);
    assert s[..|t|] == t && s[|t|..] == rest;
    assert t != [] ==> s[0] == t[0];
    assert t == [] ==> s == rest;
  }

  lemma CellRoundTrip(v: Scalar, rest: seq<byte>)
    requires Json.Printed(v) && rest != [] && (rest[0] == 44 || rest[0] == 10)
    ensures ParseCell(CellText(v) + rest) == Parsed(CellOf(v), rest)
  {
    hide IsJsonNumber;
    hide BareRun;
    match v {
      case Text(t) =>
        var s := Quoted(t) + rest;
        assert s[1..] == DoubleQuotes(t) + [34] + rest;
        QuotedRoundTrip(t, rest);
      case Number(t) =>
        Json.JsonNumberBytes(t);
        BareRoundTrip(t, rest);
      case _ =>
        BareRoundTrip(CellText(v), rest);
    }
  }

  lemma {:induction false} CellsRoundTrip(fields: seq<Scalar>, i: nat, rest: seq<byte>)
    requires |fields| == FIELD_COUNT && i < FIELD_COUNT && Json.AllPrinted(fields)
    ensures ParseRow(Cells(fields, i) + [10] + rest) == Parsed(CellsOf(fields, i), rest)
    decreases FIELD_COUNT - i
  {
    hide CellText;
    hide CellOf;
    hide ParseCell;
    hide Json.Printed;
    var s := Cells(fields, i) + [10] + rest;
    if i + 1 == FIELD_COUNT {
      var after := [10] + rest;
      CellRoundTrip(fields[i], after);
      assert s == CellText(fields[i]) + after;
      assert after[1..] == rest;
    } else {
      var more := Cells(fields, i + 1) + [10] + rest;
      var after := [44] + more;
      CellRoundTrip(fields[i], after);
      assert s == CellText(fields[i]) + after;
      assert after[1..] == more;
      CellsRoundTrip(fields, i + 1, rest);
    }
  }

  /** Every row decodes to exactly 28 cells, whatever commas, quotes or line feeds its strings
      hold, and the reader stops after the row's own line feed. */
  lemma RowRoundTrip(c: Canonical, rest: seq<byte>)
    ensures ParseRow(RecordRow(c) + rest) == Parsed(CellsOf(Fields(c), 0), rest)
  {
    hide Fields;
    hide Cells;
    hide CellsOf;
    hide ParseRow;
    hide Json.Printed;
    Json.FieldsArePrinted(c);
    CellsRoundTrip(Fields(c), 0, rest);
    assert RecordRow(c) + rest == Cells(Fields(c), 0) + [10] + rest;
  }

  // ---- records ----

  /** The scalar a cell stands for: an empty bare cell is an absent field. */
  function ScalarOf(cell: Cell): Scalar {
    match cell
    case InQuotes(t) => Text(t)
    case Bare(t) =>
      if t == [] then Null
      else if t == Json.TrueText() then Bool(true)
      else if t == Json.FalseText() then Bool(false)
      else Number(t)
  }

  /** A present empty string and an absent field read back as different things. */
  lemma ScalarReadsBack(v: Scalar)
    requires Json.Printed(v)
    ensures ScalarOf(CellOf(v)) == v
  {
    hide IsJsonNumber;
    if v.Number? { Json.JsonNumberBytes(v.text); }
  }

  function ReadCells(cells: seq<Cell>): Option<Canonical> {
    if |cells| == FIELD_COUNT then
      Some(Interpret(seq(FIELD_COUNT, i requires 0 <= i < FIELD_COUNT && |cells| == FIELD_COUNT => ScalarOf(cells[i]))))
    else None
  }

  function ReadRecord(s: seq<byte>): (r: Parsed<Canonical>)
    ensures r.Parsed? ==> |r.rest| < |s|
  {
    match ParseRow(s)
    case Failed => Failed
    case Parsed(cells, rest) =>
      match ReadCells(cells)
      case Some(c) => Parsed(c, rest)
      case None => Failed
  }

  lemma CellsReadBack(c: Canonical)
    requires Printable(c)
    ensures ReadCells(CellsOf(Fields(c), 0)) == Some(c)
  {
    hide Fields;
    hide Interpret;
    hide CellOf;
    hide ScalarOf;
    hide Json.Printed;
    var f := Fields(c);
    var cells := CellsOf(f, 0);
    Json.FieldsArePrinted(c);
    forall k | 0 <= k < FIELD_COUNT ensures ScalarOf(cells[k]) == f[k] {
      CellsOfAt(f, 0, k);
      ScalarReadsBack(f[k]);
    }
    assert seq(FIELD_COUNT, i requires 0 <= i < FIELD_COUNT && |cells| == FIELD_COUNT => ScalarOf(cells[i])) == f;
    InterpretFields(c);
  }

  /** The row of a record gives back its canonical view. */
  lemma RecordRoundTrip(c: Canonical, rest: seq<byte>)
    requires Printable(c)
    ensures ReadRecord(RecordRow(c) + rest) == Parsed(c, rest)
  {
    hide RecordRow;
    hide ParseRow;
    hide ReadCells;
    RowRoundTrip(c, rest);
    CellsReadBack(c);
  }

  // ---- whole files ----

  function RowsText(cs: seq<Canonical>): seq<byte> {
    if cs == [] then [] else RecordRow(cs[0]) + RowsText(cs[1..])
  }

  function ReadRows(s: seq<byte>): Option<seq<Canonical>>
    decreases |s|
  {
    if s == [] then Some([])
    else
      match ReadRecord(s)
      case Failed => None
      case Parsed(c, rest) =>
        match ReadRows(rest)
        case None => None
        case Some(cs) => Some([c] + cs)
  }

  lemma {:induction false} RowsRoundTrip(cs: seq<Canonical>)
    requires forall i :: 0 <= i < |cs| ==> Printable(cs[i])
    ensures ReadRows(RowsText(cs)) == Some(cs)
  {
    hide RecordRow;
    hide ReadRecord;
    hide Printable;
    if cs != [] {
      RowsRoundTrip(cs[1..]);
      RecordRoundTrip(cs[0], RowsText(cs[1..]));
      RowHasBytes(cs[0]);
      assert cs == [cs[0]] + cs[1..];
    }
  }

  lemma RowHasBytes(c: Canonical)
    ensures |RecordRow(c)| >= 1
  {
  }

  lemma RowHasComma(c: Canonical)
    ensures |RecordRow(c)| >= 2
  {
  }

  /** The header decodes to the 28 field names. */
  lemma {:induction false} HeaderRoundTrip(i: nat, rest: seq<byte>)
    requires i < FIELD_COUNT
    ensures ParseRow(HeaderCells(i) + [10] + rest) ==
            Parsed(seq(FIELD_COUNT - i, k requires 0 <= k < FIELD_COUNT - i => Bare(Json.FieldKey(i + k))), rest)
    decreases FIELD_COUNT - i
  {
    hide Json.FieldKey;
    hide ParseCell;
    KeyBytesAreBare(i);
    var names := seq(FIELD_COUNT - i, k requires 0 <= k < FIELD_COUNT - i => Bare(Json.FieldKey(i + k)));
    var s := HeaderCells(i) + [10] + rest;
    if i + 1 == FIELD_COUNT {
      BareRoundTrip(Json.FieldKey(i), [10] + rest);
      assert s == Json.FieldKey(i) + ([10] + rest);
      assert ([10] + rest)[1..] == rest;
      assert names == [Bare(Json.FieldKey(i))];
    } else {
      var more := HeaderCells(i + 1) + [10] + rest;
      BareRoundTrip(Json.FieldKey(i), [44] + more);
      assert s == Json.FieldKey(i) + ([44] + more);
      assert ([44] + more)[1..] == more;
      HeaderRoundTrip(i + 1, rest);
      assert names == [Bare(Json.FieldKey(i))] +
        seq(FIELD_COUNT - (i + 1), k requires 0 <= k < FIELD_COUNT - (i + 1) => Bare(Json.FieldKey(i + 1 + k)));
    }
  }

  lemma PlainIsBare(s: string)
    requires Json.Plain(s)
    ensures forall k :: 0 <= k < |s| ==> BareByte(Ascii(s)[k])
  {
  }

  lemma KeyBytesAreBare(i: nat)
    requires i < FIELD_COUNT
    ensures forall k :: 0 <= k < |Json.FieldKey(i)| ==> BareByte(Json.FieldKey(i)[k])
  {
    hide Json.Plain;
    hide Ascii;
    Json.FieldNamesArePlain(i);
    PlainIsBare(FIELD_NAMES[i]);
  }

  // ---- length of a row ----

  lemma {:induction false} DoubleQuotesLength(s: seq<byte>)
    ensures |DoubleQuotes(s)| <= |Json.Body(s)|
  {
    if s != [] { DoubleQuotesLength(s[1..]); }
  }

  lemma CellIsShorter(v: Scalar)
    ensures |CellText(v)| <= |Json.ScalarText(v)|
  {
    if v.Text? { DoubleQuotesLength(v.text); }
  }

  lemma {:induction false} CellsAreShorter(fields: seq<Scalar>, i: nat)
    requires |fields| == FIELD_COUNT && i < FIELD_COUNT
    ensures |Cells(fields, i)| <= |Json.Members(fields, i)|
    decreases FIELD_COUNT - i
  {
    hide CellText;
    hide Json.ScalarText;
    CellIsShorter(fields[i]);
    if i + 1 < FIELD_COUNT { CellsAreShorter(fields, i + 1); }
  }

  /** The row of a valid record is under 8192 bytes. */
  lemma RowFitsRecordBuffer(r: Record)
    requires Valid(r)
    ensures |RecordRow(ViewOf(r))| < 8192
  {
    hide Fields;
    hide Cells;
    hide Json.Members;
    hide Valid;
    hide ViewOf;
    CellsAreShorter(Fields(ViewOf(r)), 0);
    Json.LineFitsRecordBuffer(r);
  }

  lemma {:induction false} HeaderLength(i: nat)
    requires i < FIELD_COUNT
    ensures |HeaderCells(i)| <= 25 * (FIELD_COUNT - i)
    decreases FIELD_COUNT - i
  {
    Json.FieldNamesArePlain(i);
    assert |Json.FieldKey(i)| <= 24;
    hide Json.FieldKey;
    if i + 1 < FIELD_COUNT { HeaderLength(i + 1); }
  }
}
