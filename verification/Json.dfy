/** JSONL: what the serialiser prints, a reader for RFC 8259, and the round trip between them. */
module Json {
  import opened Bytes
  import opened CanonicalRecord
  import Utf8

  // ---- printing ----

  function HexDigit(n: nat): (h: byte)
    requires n < 16
    ensures 48 <= h <= 57 || 97 <= h <= 102
  {
    if n < 10 then 48 + n else 87 + n
  }

  /** The escape of one byte (RFC 8259, section 7: the short forms where they exist). */
  function Escape(b: byte): (r: seq<byte>)
    ensures 1 <= |r| <= 6
    ensures forall i :: 0 <= i < |r| ==> r[i] >= 0x20
  {
    if b == 34 then [92, 34]
    else if b == 92 then [92, 92]
    else if b == 8 then [92, 98]
    else if b == 12 then [92, 102]
    else if b == 10 then [92, 110]
    else if b == 13 then [92, 114]
    else if b == 9 then [92, 116]
    else if b < 0x20 then [92, 117, 48, 48, HexDigit(b / 16), HexDigit(b % 16)]
    else [b]
  }

  function Body(s: seq<byte>): (r: seq<byte>)
    ensures forall i :: 0 <= i < |r| ==> r[i] >= 0x20
  {
    if s == [] then [] else Escape(s[0]) + Body(s[1..])
  }

  function Quoted(s: seq<byte>): seq<byte> { [34] + Body(s) + [34] }

  function TrueText(): seq<byte> { [116, 114, 117, 101] }
  function FalseText(): seq<byte> { [102, 97, 108, 115, 101] }
  function NullText(): seq<byte> { [110, 117, 108, 108] }

  function ScalarText(v: Scalar): seq<byte> {
    match v
    case Null => NullText()
    case Bool(b) => if b then TrueText() else FalseText()
    case Number(t) => t
    case Text(t) => Quoted(t)
  }

  /** One object member. */
  function Member(name: seq<byte>, v: Scalar): seq<byte> { Quoted(name) + [58] + ScalarText(v) }

  function FieldKey(i: nat): seq<byte>
    requires i < FIELD_COUNT
  {
    Ascii(FIELD_NAMES[i])
  }

  /** The members from the i-th on, comma separated. */
  function Members(fields: seq<Scalar>, i: nat): seq<byte>
    requires |fields| == FIELD_COUNT && i < FIELD_COUNT
    decreases FIELD_COUNT - i
  {
    Member(FieldKey(i), fields[i]) +
    if i + 1 == FIELD_COUNT then [] else [44] + Members(fields, i + 1)
  }

  /** One JSONL line. */
  function Line(fields: seq<Scalar>): seq<byte>
    requires |fields| == FIELD_COUNT
  {
    [123] + Members(fields, 0) + [125, 10]
  }

  function RecordLine(c: Canonical): seq<byte> { Line(Fields(c)) }

  // ---- reading (RFC 8259) ----

  function HexValue(b: byte): Option<nat> {
    if IsDigit(b) then Some(b - 48)
    else if 97 <= b <= 102 then Some(b - 87)
    else if 65 <= b <= 70 then Some(b - 55)
    else None
  }

  /** Four hexadecimal digits. */
  function Hex4(s: seq<byte>): (r: Option<nat>)
    ensures r.Some? ==> |s| >= 4 && r.value < 0x10000
  {
    if |s| < 4 then None
    else
      match (HexValue(s[0]), HexValue(s[1]), HexValue(s[2]), HexValue(s[3]))
      case (Some(a), Some(b), Some(c), Some(d)) =>
        if a < 16 && b < 16 && c < 16 && d < 16 then Some(((a * 16 + b) * 16 + c) * 16 + d) else None
      case _ => None
  }

  /** An escape after its backslash: the UTF-8 bytes it stands for. Surrogates come in pairs. */
  function ParseEscape(s: seq<byte>): (r: Parsed<seq<byte>>)
    ensures r.Parsed? ==> |r.rest| < |s|
  {
    if s == [] then Failed
    else if s[0] == 34 || s[0] == 92 || s[0] == 47 then Parsed([s[0]], s[1..])
    else if s[0] == 98 then Parsed([8], s[1..])
    else if s[0] == 102 then Parsed([12], s[1..])
    else if s[0] == 110 then Parsed([10], s[1..])
    else if s[0] == 114 then Parsed([13], s[1..])
    else if s[0] == 116 then Parsed([9], s[1..])
    else if s[0] == 117 && Hex4(s[1..]).Some? then
      var unit := Hex4(s[1..]).value;
      if !(0xD800 <= unit <= 0xDFFF) then Parsed(Utf8.Encode(unit), s[5..])
      else if unit <= 0xDBFF && |s| >= 11 && s[5] == 92 && s[6] == 117 && Hex4(s[7..]).Some?
              && 0xDC00 <= Hex4(s[7..]).value <= 0xDFFF then
        Parsed(Utf8.Encode(0x10000 + (unit - 0xD800) * 0x400 + (Hex4(s[7..]).value - 0xDC00)), s[11..])
      else Failed
    else Failed
  }

  /** The rest of a string after its opening quote. */
  function ParseBody(s: seq<byte>): (r: Parsed<seq<byte>>)
    ensures r.Parsed? ==> |r.rest| < |s|
    decreases |s|
  {
    if s == [] || s[0] < 0x20 then Failed
    else if s[0] == 34 then Parsed([], s[1..])
    else if s[0] == 92 then
      match ParseEscape(s[1..])
      case Failed => Failed
      case Parsed(bytes, rest) =>
        match ParseBody(rest)
        case Failed => Failed
        case Parsed(more, rest') => Parsed(bytes + more, rest')
    else
      match ParseBody(s[1..])
      case Failed => Failed
      case Parsed(more, rest) => Parsed([s[0]] + more, rest)
  }

  predicate NumberByte(b: byte) { IsDigit(b) || b == 43 || b == 45 || b == 46 || b == 69 || b == 101 }

  function NumberRun(s: seq<byte>): (n: nat)
    ensures n <= |s|
  {
    if s == [] || !NumberByte(s[0]) then 0 else 1 + NumberRun(s[1..])
  }

  function ParseScalar(s: seq<byte>): (r: Parsed<Scalar>)
    ensures r.Parsed? ==> |r.rest| < |s|
  {
    if s == [] then Failed
    else if s[0] == 34 then
      match ParseBody(s[1..])
      case Failed => Failed
      case Parsed(t, rest) => Parsed(Text(t), rest)
    else if TrueText() <= s then Parsed(Bool(true), s[4..])
    else if FalseText() <= s then Parsed(Bool(false), s[5..])
    else if NullText() <= s then Parsed(Null, s[4..])
    else
      var n := NumberRun(s);
      if IsJsonNumber(s[..n]) then Parsed(Number(s[..n]), s[n..]) else Failed
  }

  type Pairs = seq<(seq<byte>, Scalar)>

  /** Members up to and including the closing brace. */
  function ParseMembers(s: seq<byte>): (r: Parsed<Pairs>)
    ensures r.Parsed? ==> |r.rest| < |s|
    decreases |s|
  {
    if s == [] || s[0] != 34 then Failed
    else
      match ParseBody(s[1..])
      case Failed => Failed
      case Parsed(name, afterName) =>
        if afterName == [] || afterName[0] != 58 then Failed
        else
          match ParseScalar(afterName[1..])
          case Failed => Failed
          case Parsed(v, after) =>
            if after == [] then Failed
            else if after[0] == 125 then Parsed([(name, v)], after[1..])
            else if after[0] == 44 then
              match ParseMembers(after[1..])
              case Failed => Failed
              case Parsed(more, rest) => Parsed([(name, v)] + more, rest)
            else Failed
  }

  /** A flat object followed by a line feed. */
  function ParseLine(s: seq<byte>): (r: Parsed<Pairs>)
    ensures r.Parsed? ==> |r.rest| < |s|
  {
    if s == [] || s[0] != 123 then Failed
    else
      match ParseMembers(s[1..])
      case Failed => Failed
      case Parsed(pairs, rest) =>
        if rest == [] || rest[0] != 10 then Failed else Parsed(pairs, rest[1..])
  }

  // ---- round trip ----

  lemma {:induction false} BodyRoundTrip(s: seq<byte>, rest: seq<byte>)
    ensures ParseBody(Body(s) + [34] + rest) == Parsed(s, rest)
  {
    hide Escape;
    hide ParseEscape;
    if s == [] {
      assert Body(s) + [34] + rest == [34] + rest;
      assert ([34] + rest)[1..] == rest;
    } else {
      var tail := Body(s[1..]) + [34] + rest;
      var e := Escape(s[0]);
      assert Body(s) + [34] + rest == e + tail;
      BodyRoundTrip(s[1..], rest);
      EscapeRoundTrip(s[0], tail);
      assert s == [s[0]] + s[1..];
      if e[0] != 92 { assert (e + tail)[1..] == tail; }
    }
  }

  lemma EscapeRoundTrip(b: byte, tail: seq<byte>)
    ensures var e := Escape(b);
      if e[0] == 92 then ParseEscape((e + tail)[1..]) == Parsed([b], tail)
      else e == [b] && b != 34 && b >= 0x20
  {
    var e := Escape(b);
    var s := (e + tail)[1..];
    if |e| == 2 {
      assert s[1..] == tail;
    } else if |e| == 6 {
      assert s[1..][0] == 48 && s[1..][1] == 48;
      assert s[1..][2] == HexDigit(b / 16) && s[1..][3] == HexDigit(b % 16);
      assert Hex4(s[1..]) == Some(b);
      assert s[5..] == tail;
    }
  }

  lemma {:induction false} NumberRunStops(t: seq<byte>, rest: seq<byte>)
    requires forall i :: 0 <= i < |t| ==> NumberByte(t[i])
    requires rest != [] ==> !NumberByte(rest[0])
    ensures NumberRun(t + rest) == |t|
  {
    if t == [] {
      assert t + rest == rest;
    } else {
      assert (t + rest)[1..] == t[1..] + rest;
      NumberRunStops(t[1..], rest);
    }
  }

  lemma ExponentBytes(s: seq<byte>)
    requires IsExponent(s)
    ensures forall i :: 0 <= i < |s| ==> NumberByte(s[i])
  {
    var t := s[1..];
    forall i | 0 <= i < |s| ensures NumberByte(s[i]) {
      if i >= 2 {
        assert s[i] == t[i - 1];
        if t[0] == 43 || t[0] == 45 { assert t[i - 1] == t[1..][i - 2]; }
      } else if i == 1 {
        assert s[1] == t[0];
      }
    }
  }

  lemma FractionExponentBytes(s: seq<byte>)
    requires IsFractionExponent(s)
    ensures forall i :: 0 <= i < |s| ==> NumberByte(s[i])
  {
    if s != [] && s[0] == 46 {
      var n := DigitRun(s[1..]);
      var tail := s[1 + n..];
      if tail != [] { ExponentBytes(tail); }
      forall i | 0 <= i < |s| ensures NumberByte(s[i]) {
        if 1 <= i <= n { assert s[i] == s[1..][..n][i - 1]; }
        if n < i { assert s[i] == tail[i - 1 - n]; }
      }
    } else if s != [] {
      ExponentBytes(s);
    }
  }

  /** Every byte of a JSON number is a number byte, and the first is a minus or a digit. */
  lemma JsonNumberBytes(s: seq<byte>)
    requires IsJsonNumber(s)
    ensures s != [] && (s[0] == 45 || IsDigit(s[0]))
    ensures forall i :: 0 <= i < |s| ==> NumberByte(s[i])
  {
    var u := if s[0] == 45 then s[1..] else s;
    var n := DigitRun(u);
    var tail := u[n..];
    FractionExponentBytes(tail);
    forall i | 0 <= i < |u| ensures NumberByte(u[i]) {
      if i < n { assert u[i] == u[..n][i]; } else { assert u[i] == tail[i - n]; }
    }
    assert u[0] == u[..n][0];
    forall i | 0 <= i < |s| ensures NumberByte(s[i]) {
      if s[0] == 45 && i > 0 { assert s[i] == u[i - 1]; }
    }
  }

  lemma {:induction false} DigitRunAll(s: seq<byte>)
    requires AllDigits(s)
    ensures DigitRun(s) == |s|
  {
    if s != [] { DigitRunAll(s[1..]); }
  }

  lemma SignedDecimalIsNumber(n: int)
    ensures IsJsonNumber(SignedDecimal(n))
  {
    var d := Decimal(if n < 0 then -n else n);
    DigitRunAll(d);
    assert d[|d|..] == [];
    if n < 0 { assert SignedDecimal(n)[1..] == d; }
  }

  /** The scalars the serialiser prints: numbers follow the grammar. */
  predicate Printed(v: Scalar) { v.Number? ==> IsJsonNumber(v.text) }

  predicate AllPrinted(fields: seq<Scalar>) { forall i :: 0 <= i < |fields| ==> Printed(fields[i]) }

  lemma IdentityFieldsArePrinted(c: Canonical)
    ensures AllPrinted(IdentityFields(c)) && AllPrinted(PlaceFields(c))
  {
    hide IsJsonNumber;
    forall n: nat ensures IsJsonNumber(Decimal(n)) { UnsignedIsNumber(n); }
    hide Decimal;
  }

  lemma ValueFieldsArePrinted(c: Canonical)
    ensures AllPrinted(ShapeFields(c)) && AllPrinted(ValueFields(c))
  {
    hide IsJsonNumber;
    forall n: nat ensures IsJsonNumber(Decimal(n)) { UnsignedIsNumber(n); }
    forall n: int ensures IsJsonNumber(SignedDecimal(n)) { SignedDecimalIsNumber(n); }
    hide Decimal;
    hide SignedDecimal;
  }

  lemma FieldsArePrinted(c: Canonical)
    ensures AllPrinted(Fields(c))
  {
    hide Printed;
    IdentityFieldsArePrinted(c);
    ValueFieldsArePrinted(c);
    hide IdentityFields;
    hide PlaceFields;
    hide ShapeFields;
    hide ValueFields;
  }

  lemma UnsignedIsNumber(n: nat)
    ensures IsJsonNumber(Decimal(n))
  {
    SignedDecimalIsNumber(n);
  }

  lemma NumberRoundTrip(t: seq<byte>, rest: seq<byte>)
    requires IsJsonNumber(t)
    requires rest != [] && (rest[0] == 44 || rest[0] == 125)
    ensures ParseScalar(t + rest) == Parsed(Number(t), rest)
  {
    hide IsJsonNumber;
    var s := t + rest;
    JsonNumberBytes(t);
    NumberRunStops(t, rest);
    assert s[..|t|] == t && s[|t|..] == rest;
    assert s[0] == t[0];
  }

  lemma TextRoundTrip(t: seq<byte>, rest: seq<byte>)
    ensures ParseScalar(Quoted(t) + rest) == Parsed(Text(t), rest)
  {
    hide Body;
    hide IsJsonNumber;
    var s := Quoted(t) + rest;
    assert s[1..] == Body(t) + [34] + rest;
    BodyRoundTrip(t, rest);
  }

  lemma ScalarRoundTrip(v: Scalar, rest: seq<byte>)
    requires Printed(v)
    requires rest != [] && (rest[0] == 44 || rest[0] == 125)
    ensures ParseScalar(ScalarText(v) + rest) == Parsed(v, rest)
  {
    hide IsJsonNumber;
    hide NumberRun;
    hide ParseBody;
    var s := ScalarText(v) + rest;
    match v {
      case Null =>
        assert s[4..] == rest && s[..4] == NullText();
      case Bool(b) =>
        if b { assert s[4..] == rest && s[..4] == TrueText(); }
        else { assert s[5..] == rest && s[..5] == FalseText(); }
      case Number(t) =>
        NumberRoundTrip(t, rest);
      case Text(t) =>
        TextRoundTrip(t, rest);
    }
  }

  /** The name and value of each field from the i-th on. */
  function FieldPairs(fields: seq<Scalar>, i: nat): (p: Pairs)
    requires |fields| == FIELD_COUNT && i < FIELD_COUNT
    ensures |p| == FIELD_COUNT - i
    decreases FIELD_COUNT - i
  {
    if i + 1 == FIELD_COUNT then [(FieldKey(i), fields[i])]
    else [(FieldKey(i), fields[i])] + FieldPairs(fields, i + 1)
  }

  lemma {:induction false} FieldPairsAt(fields: seq<Scalar>, i: nat, k: nat)
    requires |fields| == FIELD_COUNT && i <= k < FIELD_COUNT
    ensures FieldPairs(fields, i)[k - i] == (FieldKey(k), fields[k])
    decreases k - i
  {
    hide FieldKey;
    if i < k { FieldPairsAt(fields, i + 1, k); }
  }

  /** What ParseMembers sees after one member, whatever follows it. */
  lemma MemberRead(name: seq<byte>, v: Scalar, after: seq<byte>)
    requires Printed(v) && after != [] && (after[0] == 44 || after[0] == 125)
    ensures var s := Member(name, v) + after;
      && s != [] && s[0] == 34
      && ParseBody(s[1..]) == Parsed(name, [58] + (ScalarText(v) + after))
      && ParseScalar(([58] + (ScalarText(v) + after))[1..]) == Parsed(v, after)
  {
    hide Body;
    hide ParseBody;
    hide ParseScalar;
    hide ScalarText;
    var afterName := [58] + (ScalarText(v) + after);
    var s := Member(name, v) + after;
    assert s == [34] + (Body(name) + [34] + afterName);
    assert s[1..] == Body(name) + [34] + afterName;
    BodyRoundTrip(name, afterName);
    assert afterName[1..] == ScalarText(v) + after;
    ScalarRoundTrip(v, after);
  }

  lemma {:induction false} MembersRoundTrip(fields: seq<Scalar>, i: nat, rest: seq<byte>)
    requires |fields| == FIELD_COUNT && i < FIELD_COUNT
    requires AllPrinted(fields)
    ensures ParseMembers(Members(fields, i) + [125] + rest) == Parsed(FieldPairs(fields, i), rest)
    decreases FIELD_COUNT - i
  {
    hide FieldKey;
    hide Member;
    hide Printed;
    hide ParseScalar;
    hide ParseBody;
    var name, v := FieldKey(i), fields[i];
    var s := Members(fields, i) + [125] + rest;
    if i + 1 == FIELD_COUNT {
      var after := [125] + rest;
      MemberRead(name, v, after);
      assert s == Member(name, v) + after;
      assert after[1..] == rest;
    } else {
      var more := Members(fields, i + 1) + [125] + rest;
      var after := [44] + more;
      MemberRead(name, v, after);
      assert s == Member(name, v) + after;
      assert after[1..] == more;
      MembersRoundTrip(fields, i + 1, rest);
    }
  }

  /** An RFC 8259 reader recovers the 28 members of a line and stops after its line feed. */
  lemma LineRoundTrip(c: Canonical, rest: seq<byte>)
    ensures ParseLine(RecordLine(c) + rest) == Parsed(FieldPairs(Fields(c), 0), rest)
  {
    FieldsArePrinted(c);
    hide Fields;
    hide Members;
    hide ParseMembers;
    hide Printed;
    var f := Fields(c);
    var s := RecordLine(c) + rest;
    assert s[1..] == Members(f, 0) + [125] + ([10] + rest);
    MembersRoundTrip(f, 0, [10] + rest);
    assert ([10] + rest)[1..] == rest;
  }

  lemma FieldNamesArePlain0(i: nat)
    requires 0 <= i < 4
    ensures Plain(FIELD_NAMES[i]) && |FIELD_NAMES[i]| <= 24
  {
  }

  lemma FieldNamesArePlain1(i: nat)
    requires 4 <= i < 8
    ensures Plain(FIELD_NAMES[i]) && |FIELD_NAMES[i]| <= 24
  {
  }

  lemma FieldNamesArePlain2(i: nat)
    requires 8 <= i < 12
    ensures Plain(FIELD_NAMES[i]) && |FIELD_NAMES[i]| <= 24
  {
  }

  lemma FieldNamesArePlain3(i: nat)
    requires 12 <= i < 16
    ensures Plain(FIELD_NAMES[i]) && |FIELD_NAMES[i]| <= 24
  {
  }

  lemma FieldNamesArePlain4(i: nat)
    requires 16 <= i < 20
    ensures Plain(FIELD_NAMES[i]) && |FIELD_NAMES[i]| <= 24
  {
  }

  lemma FieldNamesArePlain5(i: nat)
    requires 20 <= i < 24
    ensures Plain(FIELD_NAMES[i]) && |FIELD_NAMES[i]| <= 24
  {
  }

  lemma FieldNamesArePlain6(i: nat)
    requires 24 <= i < 28
    ensures Plain(FIELD_NAMES[i]) && |FIELD_NAMES[i]| <= 24
  {
  }

  lemma FieldNamesArePlain(i: nat)
    requires i < FIELD_COUNT
    ensures Plain(FIELD_NAMES[i]) && |FIELD_NAMES[i]| <= 24
  {
    hide Plain;
    if i < 4 { FieldNamesArePlain0(i); }
    else if i < 8 { FieldNamesArePlain1(i); }
    else if i < 12 { FieldNamesArePlain2(i); }
    else if i < 16 { FieldNamesArePlain3(i); }
    else if i < 20 { FieldNamesArePlain4(i); }
    else if i < 24 { FieldNamesArePlain5(i); }
    else { FieldNamesArePlain6(i); }
  }

  /** The field names are pairwise different, so no member of a line shadows another. */
  lemma FieldKeysDistinct()
    ensures forall i, j :: 0 <= i < j < FIELD_COUNT ==> FieldKey(i) != FieldKey(j)
  {
    forall i, j | 0 <= i < j < FIELD_COUNT ensures FieldKey(i) != FieldKey(j) {
      FieldNamesArePlain(i);
      FieldNamesArePlain(j);
      FieldNamesDiffer(i, j);
      AsciiInjective(FIELD_NAMES[i], FIELD_NAMES[j]);
    }
  }

  lemma FieldNamesDiffer(i: nat, j: nat)
    requires i < j < FIELD_COUNT
    ensures FIELD_NAMES[i] != FIELD_NAMES[j]
  {
  }

  lemma AsciiInjective(s: string, t: string)
    requires s != t && Plain(s) && Plain(t)
    ensures Ascii(s) != Ascii(t)
  {
    if |s| == |t| {
      var k :| 0 <= k < |s| && s[k] != t[k];
      assert Ascii(s)[k] != Ascii(t)[k];
    }
  }

  /** Printable ASCII that needs no escape. */
  predicate Plain(s: string) {
    forall i :: 0 <= i < |s| ==> ' ' <= s[i] <= '~' && s[i] != '"' && s[i] != '\\' && s[i] != ','
  }

  // ---- records ----

  /** The canonical view a reader takes from the members of one line. */
  function ReadPairs(pairs: Pairs): Option<Canonical> {
    if |pairs| == FIELD_COUNT && forall i :: 0 <= i < FIELD_COUNT ==> pairs[i].0 == FieldKey(i)
    then Some(Interpret(seq(FIELD_COUNT, i requires 0 <= i < FIELD_COUNT && |pairs| == FIELD_COUNT => pairs[i].1)))
    else None
  }

  /** Reads one line off the front of a file. */
  function ReadRecord(s: seq<byte>): (r: Parsed<Canonical>)
    ensures r.Parsed? ==> |r.rest| < |s|
  {
    match ParseLine(s)
    case Failed => Failed
    case Parsed(pairs, rest) =>
      match ReadPairs(pairs)
      case Some(c) => Parsed(c, rest)
      case None => Failed
  }

  lemma PairsReadBack(c: Canonical)
    requires Printable(c)
    ensures ReadPairs(FieldPairs(Fields(c), 0)) == Some(c)
  {
    hide FieldKey;
    hide Fields;
    hide Interpret;
    var f := Fields(c);
    var pairs := FieldPairs(f, 0);
    forall k | 0 <= k < FIELD_COUNT ensures pairs[k] == (FieldKey(k), f[k]) { FieldPairsAt(f, 0, k); }
    assert seq(FIELD_COUNT, i requires 0 <= i < FIELD_COUNT && |pairs| == FIELD_COUNT => pairs[i].1) == f;
    InterpretFields(c);
  }

  /** The line of a record gives back every present field and every presence flag. */
  lemma RecordRoundTrip(c: Canonical, rest: seq<byte>)
    requires Printable(c)
    ensures ReadRecord(RecordLine(c) + rest) == Parsed(c, rest)
  {
    hide RecordLine;
    hide ParseLine;
    hide ReadPairs;
    LineRoundTrip(c, rest);
    PairsReadBack(c);
  }

  /** Records that differ in their canonical view print differently. */
  lemma LinesDistinguishRecords(c: Canonical, d: Canonical)
    requires Printable(c) && Printable(d) && RecordLine(c) == RecordLine(d)
    ensures c == d
  {
    RecordRoundTrip(c, []);
    RecordRoundTrip(d, []);
  }

  /** The text of a whole JSONL file. */
  function FileText(cs: seq<Canonical>): seq<byte> {
    if cs == [] then [] else RecordLine(cs[0]) + FileText(cs[1..])
  }

  /** Reads records until the input is exhausted. */
  function ReadFile(s: seq<byte>): Option<seq<Canonical>>
    decreases |s|
  {
    if s == [] then Some([])
    else
      match ReadRecord(s)
      case Failed => None
      case Parsed(c, rest) =>
        match ReadFile(rest)
        case None => None
        case Some(cs) => Some([c] + cs)
  }

  /** A file of lines reads back as exactly the records written, in order. */
  lemma {:induction false} FileRoundTrip(cs: seq<Canonical>)
    requires forall i :: 0 <= i < |cs| ==> Printable(cs[i])
    ensures ReadFile(FileText(cs)) == Some(cs)
  {
    hide RecordLine;
    hide ReadRecord;
    if cs != [] {
      FileRoundTrip(cs[1..]);
      RecordRoundTrip(cs[0], FileText(cs[1..]));
      LineHasBytes(cs[0]);
      assert cs == [cs[0]] + cs[1..];
    }
  }

  lemma LineHasBytes(c: Canonical)
    ensures |RecordLine(c)| >= 3
  {
  }

  // ---- bytes of a line ----

  lemma {:induction false} BodyConcat(s: seq<byte>, t: seq<byte>)
    ensures Body(s + t) == Body(s) + Body(t)
  {
    hide Escape;
    if s == [] {
      assert s + t == t;
    } else {
      BodyConcat(s[1..], t);
      assert s + t == [s[0]] + (s[1..] + t);
      BodyNext(s[0], s[1..] + t);
    }
  }

  lemma BodyNext(b: byte, s: seq<byte>)
    ensures Body([b] + s) == Escape(b) + Body(s)
  {
    assert ([b] + s)[1..] == s;
  }

  lemma {:induction false} BodyOfHighBytes(s: seq<byte>)
    requires forall i :: 0 <= i < |s| ==> s[i] >= 0x80
    ensures Body(s) == s
  {
    if s != [] {
      BodyOfHighBytes(s[1..]);
      assert s == [s[0]] + s[1..];
    }
  }

  lemma BodyOfScalar(c: Utf8.Scalar)
    ensures Utf8.WellFormed(Body(Utf8.Encode(c)))
  {
    var e := Utf8.Encode(c);
    if c < 0x80 {
      assert e == [c] && e[1..] == [];
      assert Body(e) == Escape(c) + [];
      Utf8.AsciiWellFormed(Body(e));
    } else {
      BodyOfHighBytes(e);
      var one: seq<Utf8.Scalar> := [c];
      assert Utf8.EncodeAll(one) == e + Utf8.EncodeAll(one[1..]) == e;
    }
  }

  /** Escaping keeps UTF-8 text UTF-8. */
  lemma {:induction false} BodyKeepsUtf8(cs: seq<Utf8.Scalar>)
    ensures Utf8.WellFormed(Body(Utf8.EncodeAll(cs)))
  {
    hide Utf8.Encode;
    if cs == [] {
      Utf8.AsciiWellFormed([]);
    } else {
      BodyKeepsUtf8(cs[1..]);
      BodyOfScalar(cs[0]);
      BodyConcat(Utf8.Encode(cs[0]), Utf8.EncodeAll(cs[1..]));
      Utf8.WellFormedConcat(Body(Utf8.Encode(cs[0])), Body(Utf8.EncodeAll(cs[1..])));
    }
  }

  /** Text fields that are UTF-8. */
  ghost predicate TextsAreUtf8(fields: seq<Scalar>) {
    forall i :: 0 <= i < |fields| && fields[i].Text? ==> Utf8.WellFormed(fields[i].text)
  }

  lemma QuotedIsUtf8(s: seq<byte>)
    requires Utf8.WellFormed(s)
    ensures Utf8.WellFormed(Quoted(s))
  {
    var cs: seq<Utf8.Scalar> :| Utf8.EncodeAll(cs) == s;
    BodyKeepsUtf8(cs);
    Utf8.AsciiWellFormed([34]);
    Utf8.WellFormedConcat([34], Body(s));
    Utf8.WellFormedConcat([34] + Body(s), [34]);
  }

  lemma PlainIsUtf8(s: string)
    requires Plain(s)
    ensures Utf8.WellFormed(Ascii(s))
  {
    Utf8.AsciiWellFormed(Ascii(s));
  }

  lemma ScalarTextIsClean(v: Scalar)
    requires Printed(v) && (v.Text? ==> Utf8.WellFormed(v.text))
    ensures Utf8.WellFormed(ScalarText(v))
    ensures forall i :: 0 <= i < |ScalarText(v)| ==> ScalarText(v)[i] >= 0x20
  {
    hide IsJsonNumber;
    hide Utf8.WellFormed;
    match v {
      case Text(t) => QuotedIsUtf8(t);
      case Number(t) =>
        JsonNumberBytes(t);
        Utf8.AsciiWellFormed(t);
      case _ =>
        Utf8.AsciiWellFormed(ScalarText(v));
    }
  }

  lemma MemberIsClean(i: nat, v: Scalar)
    requires i < FIELD_COUNT && Printed(v) && (v.Text? ==> Utf8.WellFormed(v.text))
    ensures Utf8.WellFormed(Member(FieldKey(i), v))
    ensures forall k :: 0 <= k < |Member(FieldKey(i), v)| ==> Member(FieldKey(i), v)[k] >= 0x20
  {
    hide Body;
    hide ScalarText;
    hide Utf8.WellFormed;
    FieldNamesArePlain(i);
    PlainIsUtf8(FIELD_NAMES[i]);
    QuotedIsUtf8(FieldKey(i));
    ScalarTextIsClean(v);
    Utf8.AsciiWellFormed([58]);
    Utf8.WellFormedConcat(Quoted(FieldKey(i)), [58]);
    Utf8.WellFormedConcat(Quoted(FieldKey(i)) + [58], ScalarText(v));
  }

  lemma {:induction false} MembersAreClean(fields: seq<Scalar>, i: nat)
    requires |fields| == FIELD_COUNT && i < FIELD_COUNT && TextsAreUtf8(fields)
    requires AllPrinted(fields)
    ensures Utf8.WellFormed(Members(fields, i))
    ensures forall k :: 0 <= k < |Members(fields, i)| ==> Members(fields, i)[k] >= 0x20
    decreases FIELD_COUNT - i
  {
    hide Member;
    hide FieldKey;
    hide Utf8.WellFormed;
    var m := Member(FieldKey(i), fields[i]);
    MemberIsClean(i, fields[i]);
    if i + 1 == FIELD_COUNT {
      assert Members(fields, i) == m;
    } else {
      MembersAreClean(fields, i + 1);
      Utf8.AsciiWellFormed([44]);
      Utf8.WellFormedConcat([44], Members(fields, i + 1));
      Utf8.WellFormedConcat(m, [44] + Members(fields, i + 1));
    }
  }

  lemma KindNamesArePlain(k: RecordKind)
    ensures KindName(k).Some? ==> Plain(KindName(k).value)
  {
  }

  lemma StatusNamesArePlain(t: Status)
    ensures StatusName(t).Some? ==> Plain(StatusName(t).value)
  {
    match t {
      case StatusOk => assert Plain("ok");
      case StatusNoValue => assert Plain("no_value");
      case LengthMismatch => assert Plain("length_mismatch");
      case InvalidInput => assert Plain("invalid_input");
      case UnsupportedUeId => assert Plain("unsupported_ue_id");
      case UnsupportedDescriptor => assert Plain("unsupported_descriptor");
      case UnsupportedValueType => assert Plain("unsupported_value_type");
      case OtherStatus(_) =>
    }
  }

  lemma DescriptorNamesArePlain(d: DescriptorType)
    ensures DescriptorTypeName(d).Some? ==> Plain(DescriptorTypeName(d).value)
  {
  }

  lemma ValueTypeNamesArePlain(v: ValueType)
    ensures ValueTypeName(v).Some? ==> Plain(ValueTypeName(v).value)
  {
  }

  lemma NameIsUtf8(n: Option<string>)
    requires n.Some? ==> Plain(n.value)
    ensures Name(n).Text? ==> Utf8.WellFormed(Name(n).text)
  {
    if n.Some? { PlainIsUtf8(n.value); }
  }

  ghost predicate OptionIsUtf8(o: Option<seq<byte>>) { o.Some? ==> Utf8.WellFormed(o.value) }

  ghost predicate ViewIsUtf8(c: Canonical) {
    && OptionIsUtf8(c.nodeType) && OptionIsUtf8(c.nodeId) && Utf8.WellFormed(c.ueIdType)
    && OptionIsUtf8(c.ueIdValue) && OptionIsUtf8(c.measurementName)
    && OptionIsUtf8(c.diagnosticCode) && OptionIsUtf8(c.diagnosticMessage)
  }

  lemma IdentityFieldsAreUtf8(c: Canonical)
    requires ViewIsUtf8(c)
    ensures TextsAreUtf8(IdentityFields(c))
  {
    hide Utf8.WellFormed;
    KindNamesArePlain(c.recordKind);
    NameIsUtf8(KindName(c.recordKind));
    SchemaVersionIsUtf8();
    hide KindName;
    hide SchemaVersion;
  }

  lemma PlaceFieldsAreUtf8(c: Canonical)
    requires ViewIsUtf8(c)
    ensures TextsAreUtf8(PlaceFields(c))
  {
    hide Utf8.WellFormed;
  }

  lemma ShapeFieldsAreUtf8(c: Canonical)
    ensures TextsAreUtf8(ShapeFields(c))
  {
    hide Utf8.WellFormed;
    StatusNamesArePlain(c.structuralStatus);
    DescriptorNamesArePlain(c.descriptorType);
    hide StatusName;
    hide DescriptorTypeName;
    NameIsUtf8(StatusName(c.structuralStatus));
    NameIsUtf8(DescriptorTypeName(c.descriptorType));
  }

  lemma ValueFieldsAreUtf8(c: Canonical)
    requires ViewIsUtf8(c)
    ensures TextsAreUtf8(ValueFields(c))
  {
    hide Utf8.WellFormed;
    ValueTypeNamesArePlain(c.valueType);
    hide ValueTypeName;
    NameIsUtf8(ValueTypeName(c.valueType));
  }

  lemma ViewTextsAreUtf8(c: Canonical)
    requires ViewIsUtf8(c)
    ensures TextsAreUtf8(Fields(c))
  {
    hide Utf8.WellFormed;
    IdentityFieldsAreUtf8(c);
    PlaceFieldsAreUtf8(c);
    ShapeFieldsAreUtf8(c);
    ValueFieldsAreUtf8(c);
    hide IdentityFields;
    hide PlaceFields;
    hide ShapeFields;
    hide ValueFields;
  }

  lemma ValidViewIsUtf8(r: Record)
    requires Valid(r)
    ensures ViewIsUtf8(ViewOf(r))
  {
    hide Utf8.WellFormed;
    hide Utf8.CString;
    hide GoodMeasurement;
    hide GoodDiagnostic;
  }

  lemma SchemaVersionIsUtf8()
    ensures Utf8.WellFormed(SchemaVersion())
  {
    assert Plain(SCHEMA_VERSION);
    PlainIsUtf8(SCHEMA_VERSION);
  }

  /** The line of a valid record is UTF-8, and its only byte below 0x20 is the final line feed. */
  lemma LineIsClean(r: Record)
    requires Valid(r)
    ensures var line := RecordLine(ViewOf(r));
      && Utf8.WellFormed(line)
      && line[|line| - 1] == 10
      && forall i :: 0 <= i < |line| - 1 ==> line[i] >= 0x20
  {
    hide Fields;
    hide Members;
    hide Utf8.WellFormed;
    var f := Fields(ViewOf(r));
    FieldsArePrinted(ViewOf(r));
    ValidViewIsUtf8(r);
    ViewTextsAreUtf8(ViewOf(r));
    MembersAreClean(f, 0);
    Utf8.AsciiWellFormed([123]);
    Utf8.AsciiWellFormed([125, 10]);
    Utf8.WellFormedConcat([123], Members(f, 0));
    Utf8.WellFormedConcat([123] + Members(f, 0), [125, 10]);
  }

  // ---- length of a line ----

  lemma {:induction false} BodyLength(s: seq<byte>)
    ensures |Body(s)| <= 6 * |s|
  {
    hide Escape;
    if s != [] { BodyLength(s[1..]); }
  }

  lemma {:induction false} PlainBody(s: seq<byte>)
    requires forall i :: 0 <= i < |s| ==> s[i] >= 0x20 && s[i] != 34 && s[i] != 92
    ensures Body(s) == s
  {
    if s != [] {
      PlainBody(s[1..]);
      assert s == [s[0]] + s[1..];
    }
  }

  /** The most bytes the i-th value can take: texts are bounded by their buffers. */
  function ValueBudget(i: nat): nat {
    if i == 0 then 200                                  // schema_version
    else if i in {1, 19, 20, 23} then 134               // enum names
    else if i in {6, 9} then 6 * 31 + 2                 // node_type, ue_id_type
    else if i in {7, 10} then 6 * 127 + 2               // node_id, ue_id_value
    else if i in {21, 27} then 6 * 255 + 2              // measurement_name, diagnostic_message
    else if i == 26 then 6 * 63 + 2                     // diagnostic_code
    else 24                                             // numbers, booleans, null
  }

  predicate WithinBudget(fields: seq<Scalar>, base: nat) {
    forall i :: 0 <= i < |fields| ==> |ScalarText(fields[i])| <= ValueBudget(base + i)
  }

  /** Texts short enough to have come from their buffers. */
  predicate TextFits(o: Option<seq<byte>>, limit: nat) { o.Some? ==> |o.value| <= limit }

  predicate ViewFits(c: Canonical) {
    && TextFits(c.nodeType, 31) && TextFits(c.nodeId, 127) && |c.ueIdType| <= 31
    && TextFits(c.ueIdValue, 127) && TextFits(c.measurementName, 255)
    && TextFits(c.diagnosticCode, 63) && TextFits(c.diagnosticMessage, 255)
  }

  lemma ValidViewFits(r: Record)
    requires Valid(r)
    ensures ViewFits(ViewOf(r))
  {
    hide GoodMeasurement;
    hide GoodDiagnostic;
    hide Utf8.WellFormed;
  }

  lemma TextLength(s: seq<byte>, limit: nat)
    requires |s| <= limit
    ensures |ScalarText(Text(s))| <= 6 * limit + 2
  {
    BodyLength(s);
  }

  lemma NameLength(n: Option<string>)
    requires n.Some? ==> |n.value| <= 22
    ensures |ScalarText(Name(n))| <= 134
  {
    if n.Some? { TextLength(Ascii(n.value), 22); }
  }

  lemma OptionalTextLength(o: Option<seq<byte>>, limit: nat)
    requires TextFits(o, limit)
    ensures |ScalarText(OptionalText(o))| <= 6 * limit + 2 + 4
    ensures limit > 0 ==> |ScalarText(OptionalText(o))| <= 6 * limit + 2
  {
    if o.Some? { TextLength(o.value, limit); }
  }

  lemma KindNameLength(k: RecordKind)
    ensures |ScalarText(Name(KindName(k)))| <= 134
  {
    NameLength(KindName(k));
  }

  lemma StatusNameLength(t: Status)
    ensures |ScalarText(Name(StatusName(t)))| <= 134
  {
    NameLength(StatusName(t));
  }

  lemma DescriptorNameLength(d: DescriptorType)
    ensures |ScalarText(Name(DescriptorTypeName(d)))| <= 134
  {
    NameLength(DescriptorTypeName(d));
  }

  lemma ValueTypeNameLength(v: ValueType)
    ensures |ScalarText(Name(ValueTypeName(v)))| <= 134
  {
    NameLength(ValueTypeName(v));
  }

  lemma U64Length(n: u64)
    ensures |ScalarText(Unsigned(n))| <= 24
  {
    NumeralLengths();
  }

  lemma OptionalU64Length(o: Option<u64>)
    ensures |ScalarText(OptionalU64(o))| <= 24
  {
    if o.Some? { U64Length(o.value); }
  }

  lemma OptionalU32Length(o: Option<u32>)
    ensures |ScalarText(OptionalU32(o))| <= 24
  {
    if o.Some? { U64Length(o.value); }
  }

  lemma OptionalI64Length(o: Option<i64>)
    ensures |ScalarText(OptionalI64(o))| <= 24
  {
    NumeralLengths();
  }

  lemma OptionalRealLength(o: Option<Double>)
    ensures |ScalarText(OptionalReal(o))| <= 24
  {
    hide IsJsonNumber;
  }

  lemma FlagLength(o: Option<bool>)
    ensures |ScalarText(OptionalBool(o))| <= 5 && |ScalarText(Bool(o.Some?))| <= 5
  {
  }

  lemma SchemaVersionLength()
    ensures |SchemaVersion()| <= 33
  {
  }

  lemma IdentityFieldsFit(c: Canonical)
    requires ViewFits(c)
    ensures WithinBudget(IdentityFields(c), 0)
  {
    hide KindName;
    hide Name;
    hide OptionalI64;
    hide OptionalReal;
    hide OptionalText;
    hide OptionalU32;
    hide OptionalU64;
    hide ScalarText;
    hide SchemaVersion;
    hide Unsigned;
    KindNameLength(c.recordKind);
    SchemaVersionLength();
    TextLength(SchemaVersion(), 33);
    U64Length(c.indicationSequence);
    U64Length(c.receiveTimestampUs);
    OptionalU64Length(c.kpmHeaderTimestampUs);
    U64Length(c.messageFormat);
    OptionalTextLength(c.nodeType, 31);
  }

  lemma PlaceFieldsFit(c: Canonical)
    requires ViewFits(c)
    ensures WithinBudget(PlaceFields(c), 7)
  {
    hide Name;
    hide OptionalI64;
    hide OptionalReal;
    hide OptionalText;
    hide OptionalU32;
    hide OptionalU64;
    hide ScalarText;
    hide Unsigned;
    OptionalTextLength(c.nodeId, 127);
    OptionalU32Length(c.ueReportIndex);
    TextLength(c.ueIdType, 31);
    OptionalTextLength(c.ueIdValue, 127);
    OptionalU32Length(c.measDataIndex);
    OptionalU32Length(c.measInfoIndex);
    OptionalU32Length(c.measRecordIndex);
  }

  lemma ShapeFieldsFit(c: Canonical)
    ensures WithinBudget(ShapeFields(c), 14)
  {
    hide Body;
    hide DescriptorTypeName;
    hide Name;
    hide OptionalBool;
    hide ScalarText;
    hide StatusName;
    hide Unsigned;
    FlagLength(c.incompleteFlag);
    StatusNameLength(c.structuralStatus);
    DescriptorNameLength(c.descriptorType);
    U64Length(c.measDataLstLen);
    U64Length(c.measInfoLstLen);
    U64Length(c.measRecordLen);
  }

  lemma ValueFieldsFit(c: Canonical)
    requires ViewFits(c)
    ensures WithinBudget(ValueFields(c), 21)
  {
    hide Name;
    hide OptionalI64;
    hide OptionalReal;
    hide OptionalText;
    hide OptionalU32;
    hide OptionalU64;
    hide ScalarText;
    hide Unsigned;
    hide ValueTypeName;
    ValueTypeNameLength(c.valueType);
    OptionalTextLength(c.measurementName, 255);
    OptionalU32Length(c.measurementId);
    OptionalI64Length(c.integerValue);
    OptionalRealLength(c.realValue);
    OptionalTextLength(c.diagnosticCode, 63);
    OptionalTextLength(c.diagnosticMessage, 255);
  }

  lemma FieldsFit(c: Canonical)
    requires ViewFits(c)
    ensures WithinBudget(Fields(c), 0)
  {
    IdentityFieldsFit(c);
    PlaceFieldsFit(c);
    ShapeFieldsFit(c);
    ValueFieldsFit(c);
    hide IdentityFields;
    hide PlaceFields;
    hide ShapeFields;
    hide ValueFields;
    hide ScalarText;
    hide ValueBudget;
  }

  /** Room for the members from the i-th on: a name, quotes, colon, value and comma each. */
  function MembersBudget(i: nat): nat
    decreases FIELD_COUNT - i
  {
    if i >= FIELD_COUNT then 0 else 28 + ValueBudget(i) + MembersBudget(i + 1)
  }

  lemma {:induction false} MembersLength(fields: seq<Scalar>, i: nat)
    requires |fields| == FIELD_COUNT && i < FIELD_COUNT && WithinBudget(fields, 0)
    ensures |Members(fields, i)| <= MembersBudget(i)
    decreases FIELD_COUNT - i
  {
    hide ScalarText;
    hide ValueBudget;
    hide FieldKey;
    FieldKeyLength(i);
    hide Quoted;
    assert |ScalarText(fields[i])| <= ValueBudget(0 + i);
    if i + 1 < FIELD_COUNT { MembersLength(fields, i + 1); }
  }

  lemma PlainBytes(s: string)
    requires Plain(s)
    ensures forall i :: 0 <= i < |s| ==> Ascii(s)[i] >= 0x20 && Ascii(s)[i] != 34 && Ascii(s)[i] != 92
  {
  }

  lemma PlainKeyLength(s: string)
    requires Plain(s) && |s| <= 24
    ensures |Quoted(Ascii(s))| <= 26
  {
    hide Body;
    hide Ascii;
    PlainBytes(s);
    PlainBody(Ascii(s));
  }

  lemma FieldKeyLength(i: nat)
    requires i < FIELD_COUNT
    ensures |Quoted(FieldKey(i))| <= 26
  {
    hide Plain;
    hide Quoted;
    hide Ascii;
    FieldNamesArePlain(i);
    PlainKeyLength(FIELD_NAMES[i]);
  }

  lemma UpperBudget()
    ensures MembersBudget(14) <= 4430
  {
    assert MembersBudget(24) <= 4 * 28 + 24 + 24 + 380 + 1532;
    assert MembersBudget(20) <= MembersBudget(24) + 4 * 28 + 134 + 1532 + 24 + 134;
    assert MembersBudget(16) <= MembersBudget(20) + 4 * 28 + 24 * 3 + 134;
  }

  lemma TotalBudget()
    ensures MembersBudget(0) <= 7600
  {
    UpperBudget();
    assert MembersBudget(10) <= MembersBudget(14) + 4 * 28 + 24 * 3 + 764;
    assert MembersBudget(6) <= MembersBudget(10) + 4 * 28 + 24 + 188 * 2 + 764;
    assert MembersBudget(2) <= MembersBudget(6) + 4 * 28 + 24 * 4;
  }

  /** Even with six-byte escapes everywhere, the line of a valid record is under 8192 bytes. */
  lemma LineFitsRecordBuffer(r: Record)
    requires Valid(r)
    ensures |RecordLine(ViewOf(r))| < 8192
  {
    hide Fields;
    hide Members;
    hide Valid;
    hide ViewOf;
    ValidViewFits(r);
    FieldsFit(ViewOf(r));
    MembersLength(Fields(ViewOf(r)), 0);
    TotalBudget();
  }
}
